/** Which loop the jumps of a structured program belong to: the distances and pop counts that
    back-patching leaves, and the scan for backward jumps that finds loop ends on gen6 and gen7. */
module EuTargets {
  import opened Options
  import opened EuIr
  import opened EuPatching

  predicate IsJumpOut(insn: Insn) {
    insn.op == BREAK || insn.op == CONTINUE
  }

  /** The IF blocks open around instruction i of a statement, inside the innermost loop around it. */
  function OpenIfs(c: Config, p: Place, i: nat): nat
    requires i < Length(c, p.s)
    decreases p.s
  {
    match Locate(c, p, true, i)
    case Own(_) => p.ifDepth
    case Inner(q, j) => OpenIfs(c, q, j)
  }

  /** The loop end a BREAK or CONTINUE at instruction i of a statement is given. */
  function Target(c: Config, p: Place, patched: bool, i: nat): Option<nat> {
    var inner := LoopEnd(c, p.s, p.at, p.at + i);
    if inner.None? then p.loop else if patched then inner else None
  }

  predicate IsBlockInsn(op: Opcode) {
    op == IF || op == IFF || op == ELSE || op == ADD || op == ENDIF
  }

  predicate IsLoopInsn(op: Opcode) {
    op == DO || op == WHILE || op == ADD
  }

  lemma FrameOps(c: Config, cur: State, n: nat, els: Option<nat>)
    ensures IsBlockInsn(IfInsn(c, cur, n, els).op) && IsBlockInsn(ElseInsn(c, cur, n).op)
    ensures forall j :: 0 <= j < EndifLength(c) ==> IsBlockInsn(EndifInsns(c, cur)[j].op)
    ensures forall j :: 0 <= j < DoLength(c) ==> DoInsns(c, cur)[j].op == DO
    ensures IsLoopInsn(WhileInsn(c, cur, n).op)
  {
  }

  lemma BlockOps(c: Config, p: Place, patched: bool, i: nat)
    requires p.s.If? || p.s.IfElse?
    requires i < Length(c, p.s) && Locate(c, p, patched, i).Own?
    ensures IsBlockInsn(Locate(c, p, patched, i).insn.op)
  {
    hide After, Used, Unpredicated, IfInsn, ElseInsn, EndifInsns, IsBlockInsn;
    var n, cur1 := Length(c, p.s.thn), Unpredicated(p.cur);
    var cur2 := After(c, p.s.thn, cur1);
    if p.s.If? {
      FrameOps(c, p.cur, n, None);
      FrameOps(c, cur2, n, None);
    } else {
      FrameOps(c, p.cur, n, Some(Length(c, p.s.els)));
      FrameOps(c, cur2, Length(c, p.s.els), None);
      FrameOps(c, After(c, p.s.els, Used(cur2)), n, None);
    }
  }

  lemma LoopOps(c: Config, p: Place, patched: bool, i: nat)
    requires p.s.Loop? && i < Length(c, p.s) && Locate(c, p, patched, i).Own?
    ensures var insn := Locate(c, p, patched, i).insn;
            && IsLoopInsn(insn.op)
            && (i == Length(c, p.s) - 1 ==>
                  insn == WhileInsn(c, After(c, p.s.body, AfterDo(c, p.cur)), Length(c, p.s.body)))
            && (i != Length(c, p.s) - 1 ==> insn.op == DO)
  {
    hide After, AfterDo, DoInsns, WhileInsn;
    FrameOps(c, p.cur, 0, None);
    FrameOps(c, After(c, p.s.body, AfterDo(c, p.cur)), Length(c, p.s.body), None);
  }

  lemma JumpOp(c: Config, op: Opcode, cur: State, at: nat, loop: Option<nat>, d: nat)
    requires op == BREAK || op == CONTINUE
    ensures BreakInsn(c, op, cur, at, loop, d).op == op
  {
  }

  /** The only BREAKs, CONTINUEs and WHILEs a statement has of its own. */
  lemma OwnInsn(c: Config, p: Place, patched: bool, i: nat)
    requires i < Length(c, p.s) && Locate(c, p, patched, i).Own?
    ensures var insn := Locate(c, p, patched, i).insn;
            && insn.op != HALT
            && (IsJumpOut(insn) ==> p.s.Break? || p.s.Continue?)
            && (IsJumpOut(insn) ==> insn == BreakInsn(c, insn.op, p.cur, p.at + i, p.loop, p.ifDepth))
            && (insn.op == WHILE ==> p.s.Loop? && i == Length(c, p.s) - 1)
            && (p.s.Loop? && i == Length(c, p.s) - 1 ==>
                  insn == WhileInsn(c, After(c, p.s.body, AfterDo(c, p.cur)), Length(c, p.s.body)))
  {
    hide After, AfterDo, Used, Unpredicated, IfInsn, ElseInsn, EndifInsns, DoInsns, WhileInsn, BreakInsn;
    match p.s
    case If(_) => BlockOps(c, p, patched, i);
    case IfElse(_, _) => BlockOps(c, p, patched, i);
    case Loop(_) => LoopOps(c, p, patched, i);
    case Break => JumpOp(c, BREAK, p.cur, p.at, p.loop, p.ifDepth);
    case Continue => JumpOp(c, CONTINUE, p.cur, p.at, p.loop, p.ifDepth);
    case _ =>
  }

  /** The part an instruction is in inherits its loop, or is the body of one. */
  lemma InnerLoop(c: Config, p: Place, patched: bool, i: nat)
    requires i < Length(c, p.s) && Locate(c, p, patched, i).Inner?
    ensures var q := Locate(c, p, patched, i).place;
            && q.loop == (if !p.s.Loop? then p.loop else if patched then Some(p.at + Length(c, p.s) - 1) else None)
            && q.ifDepth == (if p.s.Loop? then 0 else if p.s.If? || p.s.IfElse? then p.ifDepth + 1 else p.ifDepth)
            && q.at + Length(c, q.s) <= p.at + Length(c, p.s) - (if p.s.Loop? then 1 else 0)
            && Length(c, q.s) < Length(c, p.s) + (if p.s.Seq? then 1 else 0)
            && q.(loop := None) == Locate(c, p, true, i).place.(loop := None)
            && Locate(c, p, true, i).Inner? && Locate(c, p, true, i).i == Locate(c, p, patched, i).i
  {
    hide After, AfterDo, Used, Unpredicated, IfInsn, ElseInsn, EndifInsns, DoInsns, WhileInsn, BreakInsn, Plain;
  }

  /** Every BREAK and CONTINUE belongs to the innermost loop around it, and pops the IF blocks
      open inside that loop. */
  lemma {:induction false} JumpsOut(c: Config, p: Place, patched: bool, i: nat)
    requires i < Length(c, p.s) && IsJumpOut(At(c, p, patched, i))
    ensures var insn := At(c, p, patched, i);
            insn.fields == BreakInsn(c, insn.op, State(false, false, false), p.at + i, Target(c, p, patched, i),
                                     OpenIfs(c, p, i)).fields
    decreases p.s
  {
    hide Locate, Length, BreakDistance, LoopEnd, WhileInsn;
    LoopEndStep(c, p, patched, i);
    match Locate(c, p, patched, i)
    case Own(_) => OwnInsn(c, p, patched, i); OwnSame(c, p, i);
    case Inner(q, j) =>
      InnerLoop(c, p, patched, i);
      JumpsOut(c, q, patched, j);
      OpenIfsSame(c, q, Locate(c, p, true, i).place, j);
  }

  /** Whether jumps are settled does not change where an instruction comes from. */
  lemma OwnSame(c: Config, p: Place, i: nat)
    requires i < Length(c, p.s)
    ensures Locate(c, p, true, i).Own? == Locate(c, p, false, i).Own?
  {
  }

  lemma LocateSame(c: Config, p: Place, p': Place, i: nat)
    requires p.(loop := None) == p'.(loop := None) && i < Length(c, p.s)
    ensures var part, part' := Locate(c, p, true, i), Locate(c, p', true, i);
            && part.Own? == part'.Own?
            && (part.Inner? ==> part.i == part'.i && part.place.(loop := None) == part'.place.(loop := None))
  {
    hide After, AfterDo, Used, Unpredicated, IfInsn, ElseInsn, EndifInsns, DoInsns, WhileInsn, BreakInsn, Plain;
  }

  lemma {:induction false} OpenIfsSame(c: Config, p: Place, p': Place, i: nat)
    requires p.(loop := None) == p'.(loop := None) && i < Length(c, p.s)
    ensures OpenIfs(c, p, i) == OpenIfs(c, p', i)
    decreases p.s
  {
    hide Locate, Length;
    LocateSame(c, p, p', i);
    match Locate(c, p, true, i)
    case Own(_) =>
    case Inner(q, j) => OpenIfsSame(c, q, Locate(c, p', true, i).place, j);
  }

  lemma {:induction false} LoopEndInside(c: Config, p: Place, i: nat)
    requires i < Length(c, p.s) && LoopEnd(c, p.s, p.at, p.at + i).Some?
    ensures p.at + i < LoopEnd(c, p.s, p.at, p.at + i).value < p.at + Length(c, p.s)
    decreases p.s
  {
    hide Locate, Length, LoopEnd;
    LoopEndStep(c, p, true, i);
    match Locate(c, p, true, i)
    case Own(_) =>
    case Inner(q, j) =>
      InnerLoop(c, p, true, i);
      if LoopEnd(c, q.s, q.at, q.at + j).Some? {
        LoopEndInside(c, q, j);
      }
  }

  /** Once every loop is closed, a BREAK goes just past, and a CONTINUE to, the WHILE of its
      innermost loop; it pops the IF blocks open inside that loop,
      if they are fewer than the sixteen the field can count. */
  lemma PatchedJumpsOut(c: Config, s: Stmt, cur: State, i: nat, w: nat)
    requires c.PatchesBreaks() && i < Length(c, s) && LoopEnd(c, s, 0, i) == Some(w)
    requires (if c.gen == 5 then 2 else 1) * (Length(c, s) + 1) < 0x8000
    ensures var insn, unit := Code(c, s, cur, 0, None, 0, true)[i], if c.gen == 5 then 2 else 1;
            && (insn.op == BREAK ==> insn.fields.jumpCount == unit * (w - i + 1))
            && (insn.op == CONTINUE ==> insn.fields.jumpCount == unit * (w - i))
            && var open := OpenIfs(c, Place(s, cur, 0, None, 0), i);
               (IsJumpOut(insn) ==> insn.fields.popCount == open % 16 && (insn.fields.popCount == open <==> open < 16))
  {
    hide Code, At, OpenIfs, Length, LoopEnd;
    var p := Place(s, cur, 0, None, 0);
    CodeAt(c, p, true, i);
    if IsJumpOut(At(c, p, true, i)) {
      JumpsOut(c, p, true, i);
    }
    LoopEndInside(c, p, i);
    Short16Fits(c.Br() * (w - i + 1));
    Short16Fits(c.Br() * (w - i));
  }

  /** A BREAK in n nested IF blocks. */
  function BreakIn(n: nat): Stmt {
    if n == 0 then Break else If(BreakIn(n - 1))
  }

  lemma {:induction false} BreakInBlocks(c: Config, p: Place, n: nat)
    requires p.s == BreakIn(n) && c.PatchesBreaks()
    ensures Length(c, p.s) == 2 * n + 1
    ensures At(c, p, true, n).op == BREAK && OpenIfs(c, p, n) == p.ifDepth + n
    decreases n
  {
    hide BreakDistance;
    if n > 0 {
      BreakInBlocks(c, Place(BreakIn(n - 1), Unpredicated(p.cur), p.at + 1, p.loop, p.ifDepth + 1), n - 1);
    }
  }

  /** A BREAK in a loop under sixteen IFs pops none of them: its pop count is zero. */
  lemma SixteenIfs(c: Config, cur: State)
    requires c.PatchesBreaks()
    ensures var s := Loop(BreakIn(16));
            && Length(c, s) == 35 && OpenIfs(c, Place(s, cur, 0, None, 0), 17) == 16
            && var insn := Code(c, s, cur, 0, None, 0, true)[17];
               insn.op == BREAK && insn.fields.popCount == 0
  {
    hide Code, BreakIn, BreakDistance, WhileInsn;
    var s := Loop(BreakIn(16));
    var p := Place(s, cur, 0, None, 0);
    BreakInBlocks(c, Place(BreakIn(16), AfterDo(c, cur), 1, Some(34), 0), 16);
    CodeAt(c, p, true, 17);
    JumpsOut(c, p, true, 17);
  }

  // ---- the scan for loop ends on gen6 and gen7 ----

  /** How far a WHILE jumps, in units of half an instruction. */
  function BackJump(c: Config, insn: Insn): int {
    if c.gen == 6 then insn.fields.gen6Jump else insn.fields.jip
  }

  /** A WHILE at offset j that jumps back to offset start or before it. */
  predicate Encloses(c: Config, insn: Insn, j: int, start: int) {
    insn.op == WHILE && 2 * j + BackJump(c, insn) <= 2 * start
  }

  /** The first enclosing WHILE from offset from on, or start if there is none. */
  function FindLoopEnd(c: Config, code: seq<Insn>, start: nat, from: nat): (r: nat)
    requires start < from <= |code|
    ensures r == start || from <= r < |code|
    ensures r != start ==>
              Encloses(c, code[r], r, start) && forall j :: from <= j < r ==> !Encloses(c, code[j], j, start)
    ensures r == start ==> forall j :: from <= j < |code| ==> !Encloses(c, code[j], j, start)
    decreases |code| - from
  {
    if from == |code| then start
    else if Encloses(c, code[from], from, start) then from
    else FindLoopEnd(c, code, start, from + 1)
  }

  lemma LastOfLoop(c: Config, p: Place, patched: bool)
    requires c.gen >= 6 && p.s.Loop?
    ensures var n := Length(c, p.s.body);
            && Length(c, p.s) == n + 1
            && At(c, p, patched, n) == WhileInsn(c, After(c, p.s.body, AfterDo(c, p.cur)), n)
  {
    hide After, AfterDo, WhileInsn, DoInsns;
  }

  lemma WhileReaches(c: Config, cur: State, n: nat, at: int, start: int)
    requires c.gen >= 6 && 2 * n < 0x8000
    ensures Encloses(c, WhileInsn(c, cur, n), at + n, start) <==> at <= start
  {
    hide Short16;
    Short16Fits(-(c.Br() * n));
  }

  /** The WHILE of a loop encloses exactly the offsets from the loop's first instruction on. */
  lemma WhileEncloses(c: Config, p: Place, patched: bool, start: int)
    requires c.gen >= 6 && p.s.Loop? && 2 * Length(c, p.s) < 0x8000
    ensures var i := Length(c, p.s) - 1;
            Encloses(c, At(c, p, patched, i), p.at + i, start) <==> p.at <= start
  {
    hide After, AfterDo, WhileInsn, At, Encloses, Length;
    LastOfLoop(c, p, patched);
    WhileReaches(c, After(c, p.s.body, AfterDo(c, p.cur)), Length(c, p.s.body), p.at, start);
  }

  /** The loops of a statement start in it: none encloses an offset before it. */
  lemma {:induction false} LoopsStartInside(c: Config, p: Place, patched: bool, i: nat, start: int)
    requires c.gen >= 6 && 2 * Length(c, p.s) < 0x8000 && i < Length(c, p.s) && start < p.at
    ensures !Encloses(c, At(c, p, patched, i), p.at + i, start)
    decreases p.s
  {
    hide Locate, Length, Encloses;
    match Locate(c, p, patched, i)
    case Own(insn) =>
      OwnInsn(c, p, patched, i);
      if insn.op == WHILE {
        WhileEncloses(c, p, patched, start);
      } else {
        NotWhile(c, insn, p.at + i, start);
      }
    case Inner(q, j) =>
      InnerInside(c, p, patched, i);
      LoopsStartInside(c, q, patched, j, start);
  }

  lemma NotWhile(c: Config, insn: Insn, j: int, start: int)
    requires insn.op != WHILE
    ensures !Encloses(c, insn, j, start)
  {
  }

  /** A part lies inside its statement. */
  lemma InnerInside(c: Config, p: Place, patched: bool, i: nat)
    requires i < Length(c, p.s) && Locate(c, p, patched, i).Inner?
    ensures var q := Locate(c, p, patched, i).place;
            p.at <= q.at && q.at + Length(c, q.s) <= p.at + Length(c, p.s) && Length(c, q.s) <= Length(c, p.s)
  {
    hide After, AfterDo, Used, Unpredicated, IfInsn, ElseInsn, EndifInsns, DoInsns, WhileInsn, BreakInsn, Plain;
  }

  /** Two instructions of a statement are in the same part, or the later one is in a part that
      starts behind the earlier one, or it is the statement's own. */
  lemma SameOrLaterPart(c: Config, p: Place, patched: bool, i: nat, j: nat)
    requires i < j < Length(c, p.s)
    ensures var a, b := Locate(c, p, patched, i), Locate(c, p, patched, j);
            b.Inner? ==> p.at + i < b.place.at || (a.Inner? && a.place == b.place && a.i < b.i)
  {
    hide After, AfterDo, Used, Unpredicated, IfInsn, ElseInsn, EndifInsns, DoInsns, WhileInsn, BreakInsn, Plain;
  }

  /** Behind instruction i, up to the end of the innermost loop around it, or up to the end of the
      statement when no loop of it is around i, no WHILE encloses it. */
  lemma {:induction false} NoneCloser(c: Config, p: Place, patched: bool, i: nat, j: nat)
    requires c.gen >= 6 && 2 * Length(c, p.s) < 0x8000 && i < j < Length(c, p.s)
    requires var w := LoopEnd(c, p.s, p.at, p.at + i); w.Some? ==> p.at + j < w.value
    ensures !Encloses(c, At(c, p, patched, j), p.at + j, p.at + i)
    decreases p.s
  {
    hide Locate, Length, Encloses, LoopEnd;
    LoopEndStep(c, p, patched, i);
    match Locate(c, p, patched, j)
    case Own(insn) =>
      OwnInsn(c, p, patched, j);
      if insn.op == WHILE {
        assert p.s.Loop? && j == Length(c, p.s) - 1;
        LoopBodyOrLast(c, p, patched, i);
        assert false;
      } else {
        NotWhile(c, insn, p.at + j, p.at + i);
      }
    case Inner(q, k) =>
      InnerInside(c, p, patched, j);
      SameOrLaterPart(c, p, patched, i, j);
      if p.at + i < q.at {
        LoopsStartInside(c, q, patched, k, p.at + i);
      } else {
        NoneCloser(c, q, patched, Locate(c, p, patched, i).i, k);
      }
  }

  /** On gen6 and gen7 everything in a loop but its WHILE is its body, and has a loop end. */
  lemma LoopBodyOrLast(c: Config, p: Place, patched: bool, i: nat)
    requires c.gen >= 6 && p.s.Loop? && i < Length(c, p.s) - 1
    ensures LoopEnd(c, p.s, p.at, p.at + i).Some? && LoopEnd(c, p.s, p.at, p.at + i).value < p.at + Length(c, p.s)
  {
    var w := LoopEnd(c, p.s, p.at, p.at + i);
    if w.Some? {
      LoopEndInside(c, p, i);
    }
  }

  /** The WHILE of the innermost loop around instruction i encloses it. */
  lemma {:induction false} InnermostEncloses(c: Config, p: Place, patched: bool, i: nat)
    requires c.gen >= 6 && 2 * Length(c, p.s) < 0x8000 && i < Length(c, p.s)
    requires LoopEnd(c, p.s, p.at, p.at + i).Some?
    ensures var w := LoopEnd(c, p.s, p.at, p.at + i).value;
            p.at + i < w < p.at + Length(c, p.s) && Encloses(c, At(c, p, patched, w - p.at), w, p.at + i)
    decreases p.s
  {
    hide Locate, Length, Encloses, LoopEnd;
    LoopEndStep(c, p, patched, i);
    LoopEndInside(c, p, i);
    var Inner(q, j) := Locate(c, p, patched, i);
    InnerInside(c, p, patched, i);
    var inner := LoopEnd(c, q.s, q.at, q.at + j);
    if inner.Some? {
      InnermostEncloses(c, q, patched, j);
      SamePart(c, p, patched, i, inner.value - p.at);
    } else {
      WhileEncloses(c, p, patched, p.at + i);
    }
  }

  /** Instructions in reach of a part are located in it. */
  lemma SamePart(c: Config, p: Place, patched: bool, i: nat, k: nat)
    requires i < Length(c, p.s) && Locate(c, p, patched, i).Inner?
    requires var q := Locate(c, p, patched, i).place; q.at <= p.at + k < q.at + Length(c, q.s)
    ensures k < Length(c, p.s)
    ensures var q := Locate(c, p, patched, i).place;
            Locate(c, p, patched, k) == Inner(q, p.at + k - q.at)
  {
    hide After, AfterDo, Used, Unpredicated, IfInsn, ElseInsn, EndifInsns, DoInsns, WhileInsn, BreakInsn, Plain;
  }

  /** On gen6 and gen7, where loops have no first instruction of their own, the scan from offset i
      finds the WHILE of the innermost loop around i. */
  lemma ScanFindsInnermost(c: Config, s: Stmt, cur: State, patched: bool, i: nat)
    requires c.gen >= 6 && 2 * Length(c, s) < 0x8000 && i < Length(c, s) && LoopEnd(c, s, 0, i).Some?
    ensures FindLoopEnd(c, Code(c, s, cur, 0, None, 0, patched), i, i + 1) == LoopEnd(c, s, 0, i).value
  {
    hide Code, At, LoopEnd, Length, Encloses;
    var p := Place(s, cur, 0, None, 0);
    var code, w := PlaceCode(c, p, patched), LoopEnd(c, s, 0, i).value;
    InnermostEncloses(c, p, patched, i);
    CodeAt(c, p, patched, w);
    var r := FindLoopEnd(c, code, i, i + 1);
    if r < w {
      CodeAt(c, p, patched, r);
      if r != i {
        NoneCloser(c, p, patched, i, r);
      }
    }
  }
}
