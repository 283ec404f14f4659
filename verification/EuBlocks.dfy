/** Where every IF, ELSE and WHILE of a program jumps. */
module EuBlocks {
  import opened Options
  import opened EuIr
  import opened EuPatching
  import opened EuTargets
  import opened EuUipJip
  import opened EuMeaning

  /** What an instruction belongs to: the IF of a block with its ELSE, if it has one, and its end, the
      ELSE of a block with its end, or the end of a loop with the first instruction of its body.  The end
      of a block is its ENDIF, or the instruction behind it where there is none. */
  datatype Mate = NoMate | OfIf(els: Option<nat>, end: nat) | OfElse(end: nat) | OfWhile(first: nat)

  /** What the instruction at offset i belongs to in a statement at offset at. */
  function MateOf(c: Config, s: Stmt, at: nat, i: int): Mate {
    match s
    case Seq(a, b) =>
      if i < at + Length(c, a) then MateOf(c, a, at, i) else MateOf(c, b, at + Length(c, a), i)
    case If(thn) =>
      var n := Length(c, thn);
      if i == at then OfIf(None, at + 1 + n)
      else if at < i <= at + n then MateOf(c, thn, at + 1, i)
      else NoMate
    case IfElse(thn, els) =>
      var n, m := Length(c, thn), Length(c, els);
      if i == at then OfIf(Some(at + 1 + n), at + 2 + n + m)
      else if at < i <= at + n then MateOf(c, thn, at + 1, i)
      else if i == at + 1 + n then OfElse(at + 2 + n + m)
      else if at + 1 + n < i < at + 2 + n + m then MateOf(c, els, at + 1 + n + 1, i)
      else NoMate
    case Loop(body) =>
      var first, n := at + DoLength(c), Length(c, body);
      if first <= i < first + n then MateOf(c, body, first, i)
      else if i == first + n then OfWhile(first)
      else NoMate
    case _ => NoMate
  }

  predicate Jumps(op: Opcode) {
    op == IF || op == IFF || op == ELSE || op == WHILE || op == ADD
  }

  /** The instruction at offset i jumps where its block or loop says.  On gen4 and gen5 an IF without ELSE
      becomes an IFF to just past the ENDIF, with one it goes to the ELSE, and the ELSE just past the ENDIF;
      later an IF goes to just past the ELSE, or to the ENDIF, and the ELSE to the ENDIF.  Distances count one
      for an instruction on gen4 and two from gen5 on.  ADDs count in bytes, and go to the first instruction
      to be executed.  An ENDIF pops one of the mask stack on gen4 and gen5. */
  predicate JumpsTo(c: Config, insn: Insn, mate: Mate, i: int) {
    var f, unit := insn.fields, if c.gen == 5 then 2 else 1;
    match mate
    case NoMate => !Jumps(insn.op) && (insn.op == ENDIF && c.gen < 6 ==> f.jumpCount == 0 && f.popCount == 1)
    case OfIf(els, end) =>
      var target := if els.Some? then els.value + 1 else end;
      && insn.predicated
      && insn.op == (if c.AddsToIp() then ADD else if c.gen < 6 && els.None? then IFF else IF)
      && if c.AddsToIp() then insn.inverse && f.ud == 16 * (target - i)
         else if c.gen < 6 then
           f.jumpCount == unit * ((if els.Some? then els.value else end + 1) - i) && f.popCount == 0
         else if c.gen == 6 then f.gen6Jump == 2 * (target - i)
         else f.jip == 2 * (target - i) && f.uip == 2 * (end - i)
    case OfElse(end) =>
      && insn.op == (if c.AddsToIp() then ADD else ELSE)
      && if c.AddsToIp() then f.ud == 16 * (end - i)
         else if c.gen < 6 then f.jumpCount == unit * (end + 1 - i) && f.popCount == 1
         else if c.gen == 6 then f.gen6Jump == 2 * (end - i)
         else f.jip == 2 * (end - i)
    case OfWhile(first) =>
      && insn.op == (if c.AddsToIp() then ADD else WHILE)
      && if c.AddsToIp() then f.ud == 16 * (first - i)
         else if c.gen < 6 then f.jumpCount == unit * (first - i)
         else if c.gen == 6 then f.gen6Jump == 2 * (first - i)
         else f.jip == 2 * (first - i)
  }

  /** Distances of up to n instructions fit their fields. */
  predicate Reaches(c: Config, n: nat) {
    !c.AddsToIp() ==> c.Br() * n < 0x8000
  }

  // ---- the instructions a statement has of its own ----

  lemma IfJumps(c: Config, cur: State, thn: nat, els: Option<nat>, i: nat)
    requires Reaches(c, thn + 2 + if els.Some? then els.value + 1 else 0)
    ensures var end := i + 1 + thn + if els.Some? then 1 + els.value else 0;
            JumpsTo(c, IfInsn(c, cur, thn, els), OfIf(if els.Some? then Some(i + 1 + thn) else None, end), i)
  {
    hide Short16;
    var n := if els.Some? then 1 + els.value else 0;
    if !c.AddsToIp() {
      Short16Fits(c.Br() * (1 + thn));
      Short16Fits(c.Br() * (2 + thn));
      Short16Fits(c.Br() * (1 + thn + n));
      Short16Fits(c.Br() * (2 + thn + n));
    }
  }

  lemma ElseJumps(c: Config, cur: State, els: nat, i: nat)
    requires Reaches(c, els + 2)
    ensures JumpsTo(c, ElseInsn(c, cur, els), OfElse(i + 1 + els), i)
  {
    hide Short16;
    if !c.AddsToIp() {
      Short16Fits(c.Br() * (1 + els));
      Short16Fits(c.Br() * (2 + els));
    }
  }

  lemma WhileJumps(c: Config, cur: State, body: nat, first: nat)
    requires Reaches(c, body)
    ensures JumpsTo(c, WhileInsn(c, cur, body), OfWhile(first), first + body)
  {
    hide Short16;
    if !c.AddsToIp() {
      Short16Fits(-(c.Br() * body));
    }
  }

  lemma IfStep(c: Config, p: Place, patched: bool, i: nat)
    requires p.s.If? && i < Length(c, p.s) && Reaches(c, Length(c, p.s) + 1)
    ensures var part, mate := Locate(c, p, patched, i), MateOf(c, p.s, p.at, p.at + i);
            && (part.Own? ==> JumpsTo(c, part.insn, mate, p.at + i))
            && (part.Inner? ==> mate == MateOf(c, part.place.s, part.place.at, part.place.at + part.i))
  {
    hide After, Used, Unpredicated, IfInsn, EndifInsns, JumpsTo;
    var n, cur1 := Length(c, p.s.thn), Unpredicated(p.cur);
    IfJumps(c, p.cur, n, None, p.at);
    EndifStays(c, After(c, p.s.thn, cur1), p.at + i);
  }

  lemma IfElseStep(c: Config, p: Place, patched: bool, i: nat)
    requires p.s.IfElse? && i < Length(c, p.s) && Reaches(c, Length(c, p.s) + 1)
    ensures var part, mate := Locate(c, p, patched, i), MateOf(c, p.s, p.at, p.at + i);
            && (part.Own? ==> JumpsTo(c, part.insn, mate, p.at + i))
            && (part.Inner? ==> mate == MateOf(c, part.place.s, part.place.at, part.place.at + part.i))
  {
    hide After, Used, Unpredicated, IfInsn, ElseInsn, EndifInsns, JumpsTo;
    var n, m, cur1 := Length(c, p.s.thn), Length(c, p.s.els), Unpredicated(p.cur);
    var cur2 := After(c, p.s.thn, cur1);
    IfJumps(c, p.cur, n, Some(m), p.at);
    ElseJumps(c, cur2, m, p.at + 1 + n);
    EndifStays(c, After(c, p.s.els, Used(cur2)), p.at + i);
  }

  lemma EndifStays(c: Config, cur: State, i: nat)
    ensures EndifLength(c) == 1 ==> JumpsTo(c, EndifInsns(c, cur)[0], NoMate, i)
  {
  }

  lemma LoopStep(c: Config, p: Place, patched: bool, i: nat)
    requires p.s.Loop? && i < Length(c, p.s) && Reaches(c, Length(c, p.s) + 1)
    ensures var part, mate := Locate(c, p, patched, i), MateOf(c, p.s, p.at, p.at + i);
            && (part.Own? ==> JumpsTo(c, part.insn, mate, p.at + i))
            && (part.Inner? ==> mate == MateOf(c, part.place.s, part.place.at, part.place.at + part.i))
  {
    hide After, AfterDo, WhileInsn;
    WhileJumps(c, After(c, p.s.body, AfterDo(c, p.cur)), Length(c, p.s.body), p.at + DoLength(c));
  }

  lemma MateStep(c: Config, p: Place, patched: bool, i: nat)
    requires i < Length(c, p.s) && Reaches(c, Length(c, p.s) + 1)
    ensures var part, mate := Locate(c, p, patched, i), MateOf(c, p.s, p.at, p.at + i);
            && (part.Own? ==> JumpsTo(c, part.insn, mate, p.at + i))
            && (part.Inner? ==> mate == MateOf(c, part.place.s, part.place.at, part.place.at + part.i))
  {
    hide After;
    match p.s
    case If(_) => IfStep(c, p, patched, i);
    case IfElse(_, _) => IfElseStep(c, p, patched, i);
    case Loop(_) => LoopStep(c, p, patched, i);
    case _ =>
  }

  // ---- every instruction, however deep ----

  lemma {:induction false} EveryJump(c: Config, p: Place, patched: bool, i: nat)
    requires i < Length(c, p.s) && Reaches(c, Length(c, p.s) + 1)
    ensures JumpsTo(c, At(c, p, patched, i), MateOf(c, p.s, p.at, p.at + i), p.at + i)
    decreases p.s
  {
    hide Locate, Length, MateOf, JumpsTo;
    MateStep(c, p, patched, i);
    match Locate(c, p, patched, i)
    case Own(_) =>
    case Inner(q, j) =>
      InnerLoop(c, p, patched, i);
      EveryJump(c, q, patched, j);
  }

  /** The ELSE and the ENDIF of the block of an IF, or the DO of the loop of a WHILE, are where they are
      said to be, and agree. */
  ghost predicate Mated(c: Config, p: Place, patched: bool, i: int)
    requires p.at <= i < p.at + Length(c, p.s)
  {
    var from, to := p.at, p.at + Length(c, p.s);
    var mate := MateOf(c, p.s, from, i);
    && (mate.OfWhile? ==>
          && from + DoLength(c) <= mate.first <= i
          && (DoLength(c) == 1 ==> At(c, p, patched, mate.first - 1 - from).op == DO))
    && (mate.OfIf? || mate.OfElse? ==>
          && i < mate.end <= to - EndifLength(c)
          && (EndifLength(c) == 1 ==> At(c, p, patched, mate.end - from).op == ENDIF))
    && (mate.OfIf? && mate.els.Some? ==>
          && i < mate.els.value < mate.end
          && MateOf(c, p.s, from, mate.els.value) == OfElse(mate.end))
  }

  lemma OwnMated(c: Config, p: Place, patched: bool, i: nat)
    requires i < Length(c, p.s) && Locate(c, p, patched, i).Own?
    ensures Mated(c, p, patched, p.at + i)
  {
    hide After, AfterDo, Used, Unpredicated, IfInsn, ElseInsn, WhileInsn, BreakInsn;
  }

  lemma {:induction false} EveryMate(c: Config, p: Place, patched: bool, i: nat)
    requires i < Length(c, p.s) && Reaches(c, Length(c, p.s) + 1)
    ensures Mated(c, p, patched, p.at + i)
    decreases p.s
  {
    hide Locate, Length, MateOf, JumpsTo, Mated;
    match Locate(c, p, patched, i)
    case Own(_) => OwnMated(c, p, patched, i);
    case Inner(q, j) =>
      InnerLoop(c, p, patched, i);
      EveryMate(c, q, patched, j);
      InnerMated(c, p, patched, i);
  }

  /** What is mated in a part is mated in the whole. */
  lemma InnerMated(c: Config, p: Place, patched: bool, i: nat)
    requires i < Length(c, p.s) && Reaches(c, Length(c, p.s) + 1) && Locate(c, p, patched, i).Inner?
    requires Mated(c, Locate(c, p, patched, i).place, patched, p.at + i)
    ensures Mated(c, p, patched, p.at + i)
  {
    hide Locate, Length, MateOf, JumpsTo, DoLength, EndifLength;
    var q := Locate(c, p, patched, i).place;
    var mate := MateOf(c, q.s, q.at, p.at + i);
    InnerInside(c, p, patched, i);
    MateStep(c, p, patched, i);
    if mate.OfWhile? && DoLength(c) == 1 {
      SamePart(c, p, patched, i, mate.first - 1 - p.at);
    }
    if (mate.OfIf? || mate.OfElse?) && EndifLength(c) == 1 {
      SamePart(c, p, patched, i, mate.end - p.at);
    }
    if mate.OfIf? && mate.els.Some? {
      SamePart(c, p, patched, i, mate.els.value - p.at);
      MateStep(c, p, patched, mate.els.value - p.at);
    }
  }

  // ---- the generated program ----

  /** The pass over BREAK, CONTINUE and ENDIF does not touch the other jumps, and keeps every opcode; before gen6
      it does nothing. */
  lemma ProgramInsn(c: Config, s: Stmt, i: nat)
    requires i < Length(c, s)
    ensures var a, b := Program(c, s)[i], At(c, Place(s, INITIAL, 0, None, 0), c.PatchesBreaks(), i);
            a.op == b.op && (Jumps(a.op) || c.gen < 6 ==> a == b)
  {
    hide Code, At, Length, Short16, NextBlockEnd, FindLoopEnd;
    CodeAt(c, Place(s, INITIAL, 0, None, 0), c.PatchesBreaks(), i);
  }

  /** In the program generated for s, whatever its blocks and loops are nested in, every IF, ELSE and WHILE
      and the ADDs they become hold the distances to the ends of their own block or loop, where the ELSE
      and the ENDIF or DO are; nothing else is such a jump. */
  lemma ProgramJumps(c: Config, s: Stmt, i: nat)
    requires i < Length(c, s) && Reaches(c, Length(c, s) + 1)
    ensures var code, mate := Program(c, s), MateOf(c, s, 0, i);
            && JumpsTo(c, code[i], mate, i)
            && (mate.OfIf? || mate.OfElse? ==> i < mate.end <= |code|)
            && (mate.OfIf? || mate.OfElse? ==> c.AddsToIp() || (mate.end < |code| && code[mate.end].op == ENDIF))
            && (mate.OfIf? && mate.els.Some? ==> i < mate.els.value < mate.end)
            && (mate.OfIf? && mate.els.Some? ==> JumpsTo(c, code[mate.els.value], OfElse(mate.end), mate.els.value))
            && (mate.OfWhile? ==> 0 <= mate.first <= i)
            && (mate.OfWhile? && c.PatchesBreaks() ==> 0 < mate.first && code[mate.first - 1].op == DO)
  {
    hide At, Length, MateOf, JumpsTo, Program, Reaches;
    var p := Place(s, INITIAL, 0, None, 0);
    var mate := MateOf(c, s, 0, i);
    EveryMate(c, p, c.PatchesBreaks(), i);
    JumpKept(c, s, i);
    if mate.OfWhile? && c.PatchesBreaks() {
      ProgramInsn(c, s, mate.first - 1);
    }
    if (mate.OfIf? || mate.OfElse?) && !c.AddsToIp() {
      ProgramInsn(c, s, mate.end);
    }
    if mate.OfIf? && mate.els.Some? {
      JumpKept(c, s, mate.els.value);
    }
  }

  lemma JumpKept(c: Config, s: Stmt, i: nat)
    requires i < Length(c, s) && Reaches(c, Length(c, s) + 1)
    ensures JumpsTo(c, Program(c, s)[i], MateOf(c, s, 0, i), i)
  {
    hide At, Length, MateOf, Program, Reaches;
    EveryJump(c, Place(s, INITIAL, 0, None, 0), c.PatchesBreaks(), i);
    ProgramInsn(c, s, i);
  }
}
