/** Generated code as instruction words: a generated program with an end-of-thread message behind it is one
    that compaction is meant for. */
module EuWords {
  import opened Options
  import opened EuIr
  import opened EuPatching
  import opened EuTargets
  import opened EuUipJip
  import opened EuFinished
  import opened EuSemantics
  import opened EuMeaning
  import Digits
  import EuBlocks
  import Codec = EuCodec
  import Words = EuStructs
  import opened EuProgram
  import EuLayout

  // ---- encoding ----

  function Number(op: Opcode): nat {
    match op
    case IF => Words.OPCODE_IF
    case ELSE => Words.OPCODE_ELSE
    case ENDIF => Words.OPCODE_ENDIF
    case WHILE => Words.OPCODE_WHILE
    case BREAK => Words.OPCODE_BREAK
    case CONTINUE => Words.OPCODE_CONTINUE
    case HALT => Words.OPCODE_HALT
    case _ => Words.OPCODE_NOP
  }

  /** A jump: opcode, predicate control, an immediate operand for BREAK and CONTINUE, and the distances. */
  function JumpWords(insn: Insn): Words.Insn {
    var f := insn.fields;
    Words.Insn(Number(insn.op) + (if insn.predicated then 0x1_0000 else 0) + (if insn.inverse then 0x10_0000 else 0),
               Words.WithJumpCount(if IsJumpOut(insn) then 0xc00 else 0, f.gen6Jump), 0,
               Words.BreakCont(f.jip, f.uip))
  }

  /** The words of straight-line instructions are up to the client. */
  type Encoding = Insn -> Words.Insn

  /** No branch and no NOP, and not marked as compacted; a message with its descriptor, which goes on. */
  predicate IsStraight(w: Words.Insn) {
    var op := Words.Opcode(w.d0);
    && !Words.CmptControl(w.d0) && op != Words.OPCODE_NOP && !OtherBranch(op)
    && !IsBranch(6, op) && !IsBranch(7, op)
    && (IsSend(op) ==> !Words.EndOfThread(w.d3) && Codec.HasImmediate(w))
  }

  ghost predicate Straight(alu: Encoding) {
    forall insn :: IsStraight(alu(insn))
  }

  /** A message that ends the thread. */
  predicate EndsThread(w: Words.Insn) {
    !Words.CmptControl(w.d0) && IsSend(Words.Opcode(w.d0)) && Words.EndOfThread(w.d3) && Codec.HasImmediate(w)
  }

  function WordsOf(alu: Encoding, insn: Insn): Words.Insn {
    if insn.op == ALU then alu(insn) else JumpWords(insn)
  }

  /** The instruction store with a program and the message behind it. */
  function Encoded(alu: Encoding, last: Words.Insn, code: seq<Insn>): (p: seq<Raw>)
    ensures |p| == |code| + 1
  {
    seq(|code|, i requires 0 <= i < |code| => Full(WordsOf(alu, code[i]))) + [Full(last)]
  }

  lemma {:induction false} FullStart(p: seq<Raw>, k: nat)
    requires k <= |p| && forall i :: 0 <= i < |p| ==> p[i].Full?
    ensures Start(p, k) == 2 * k
  {
    if k > 0 {
      FullStart(p, k - 1);
    }
  }

  /** Instruction offset i + d / 2 is one of the program, or the one behind it. */
  predicate Inside(n: nat, i: int, d: int) {
    d % 2 == 0 && 0 <= 2 * i + d <= 2 * n && -0x8000 <= d < 0x8000
  }

  lemma JumpWordFields(insn: Insn)
    requires insn.op != ALU
    requires var f := insn.fields;
             && -0x8000 <= f.jip < 0x8000 && -0x8000 <= f.uip < 0x8000 && -0x8000 <= f.gen6Jump < 0x8000
    ensures var w, f := JumpWords(insn), insn.fields;
            && Words.Opcode(w.d0) == Number(insn.op) && !Words.CmptControl(w.d0)
            && Words.Jip(w.d3) == f.jip && Words.Uip(w.d3) == f.uip && Words.JumpCount(w.d1) == f.gen6Jump
            && (IsJumpOut(insn) ==> Codec.HasImmediate(w))
  {
    var f := insn.fields;
    HeaderFields(insn);
    DistanceFields(if IsJumpOut(insn) then 0xc00 else 0, f.jip, f.uip);
    DistanceFields(if IsJumpOut(insn) then 0xc00 else 0, f.gen6Jump, 0);
    if IsJumpOut(insn) {
      ImmediateField(f.gen6Jump);
    }
  }

  lemma HeaderFields(insn: Insn)
    requires insn.op != ALU
    ensures Words.Opcode(JumpWords(insn).d0) == Number(insn.op) && !Words.CmptControl(JumpWords(insn).d0)
  {
  }

  /** The header of a jump in its bits: the opcode, predicate control (normal, or none), and its inversion. */
  lemma HeaderBits(insn: Insn)
    requires insn.op in {IF, ELSE, ENDIF, WHILE, BREAK, CONTINUE, HALT}
    ensures var d0 := JumpWords(insn).d0;
            && (insn.op == IF ==> d0 % 0x80 == 34) && (insn.op == ELSE ==> d0 % 0x80 == 36)
            && (insn.op == ENDIF ==> d0 % 0x80 == 37) && (insn.op == WHILE ==> d0 % 0x80 == 39)
            && (insn.op == BREAK ==> d0 % 0x80 == 40) && (insn.op == CONTINUE ==> d0 % 0x80 == 41)
            && (insn.op == HALT ==> d0 % 0x80 == 42)
            && d0 / 0x1_0000 % 0x10 == (if insn.predicated then 1 else 0)
            && (d0 / 0x10_0000 % 2 == 1 <==> insn.inverse)
  {
  }

  lemma ImmediateField(v: int)
    ensures Words.Src1RegFile(Words.WithJumpCount(0xc00, v)) == Words.IMMEDIATE_VALUE
  {
    hide Words.Field16;
    var x := Words.Field16(v);
    var d1 := Words.WithJumpCount(0xc00, v);
    Digits.DivUnique(d1, 0x400, 3 + 0x40 * x, 0);
    Digits.DivUnique(3 + 0x40 * x, 4, 0x10 * x, 3);
  }

  // ---- the instructions of gen6 and gen7 ----

  /** What is emitted there, and the fields that are not used. */
  predicate Modern(c: Config, insn: Insn) {
    && (insn.op == ALU || insn.op == IF || insn.op == ELSE || insn.op == ENDIF || insn.op == WHILE
        || insn.op == BREAK || insn.op == CONTINUE)
    && (insn.op == ELSE || insn.op == ENDIF || insn.op == WHILE ==> insn.fields.uip == 0)
    && (c.gen == 6 && insn.op == ENDIF ==> insn.fields.gen6Jump == 2)
    && (c.gen == 6 && !IsJumpOut(insn) && insn.op != ENDIF ==> insn.fields.jip == insn.fields.uip == 0)
    && (c.gen == 7 || IsJumpOut(insn) ==> insn.fields.gen6Jump == 0)
  }

  lemma OwnModern(c: Config, p: Place, patched: bool, i: nat)
    requires 6 <= c.gen <= 7 && i < Length(c, p.s) && Locate(c, p, patched, i).Own?
    ensures Modern(c, Locate(c, p, patched, i).insn)
  {
    hide After, AfterDo, Used, Unpredicated, Short16, BreakDistance;
  }

  lemma {:induction false} AtModern(c: Config, p: Place, patched: bool, i: nat)
    requires 6 <= c.gen <= 7 && i < Length(c, p.s)
    ensures Modern(c, At(c, p, patched, i))
    decreases p.s
  {
    hide Locate, Length, Modern;
    match Locate(c, p, patched, i)
    case Own(_) => OwnModern(c, p, patched, i);
    case Inner(q, j) => AtModern(c, q, patched, j);
  }

  lemma ProgramModern(c: Config, s: Stmt, i: nat)
    requires 6 <= c.gen <= 7 && i < Length(c, s)
    ensures Modern(c, Program(c, s)[i])
  {
    hide At, Code, Length, NextBlockEnd, FindLoopEnd, Short16;
    var p := Place(s, INITIAL, 0, None, 0);
    CodeAt(c, p, false, i);
    AtModern(c, p, false, i);
    EuBlocks.ProgramInsn(c, s, i);
  }

  // ---- where they jump ----

  lemma TwiceInside(n: nat, i: nat, j: int)
    requires i < n && 0 <= j <= n && Fits(n)
    ensures Inside(n, i, 2 * (j - i)) && Short16(2 * (j - i)) == 2 * (j - i)
  {
    Short16Fits(2 * (j - i));
  }

  lemma ProgramFinished(c: Config, s: Stmt, i: nat)
    requires c.gen >= 6 && i < Length(c, s)
    ensures var code := Code(c, s, INITIAL, 0, None, 0, false);
            Program(c, s)[i] == Finished(c, code, i) && Program(c, s)[i].op == code[i].op
  {
    hide Code, Length, NextBlockEnd, FindLoopEnd, Short16;
  }

  /** The JIP of a BREAK, CONTINUE or ENDIF with a block ending behind it. */
  lemma BlockEndInside(c: Config, code: seq<Insn>, i: nat)
    requires i < |code| && Fits(|code|) && NextBlockEnd(code, i + 1) != 0
    requires IsJumpOut(code[i]) || code[i].op == ENDIF
    ensures Inside(|code|, i, Finished(c, code, i).fields.jip)
  {
    hide NextBlockEnd, FindLoopEnd, Short16, Inside;
    TwiceInside(|code|, i, NextBlockEnd(code, i + 1));
  }

  lemma LoopEndsBlock(code: seq<Insn>, i: nat, w: nat)
    requires i < w < |code| && code[w].op == WHILE
    ensures NextBlockEnd(code, i + 1) != 0
  {
    assert EndsBlock(code[w]);
  }

  /** A BREAK or CONTINUE names the end of a block behind it and the WHILE of its loop, or on gen6 for a
      BREAK the instruction behind that. */
  lemma JumpOutInside(c: Config, s: Stmt, i: nat) returns (w: nat)
    requires 6 <= c.gen <= 7 && CanRun(c, s) && i < Length(c, s) && IsJumpOut(Program(c, s)[i])
    ensures var n, insn := Length(c, s), Program(c, s)[i];
            && i < w < n && Program(c, s)[w].op == WHILE
            && insn.fields.uip == 2 * (w - i + if insn.op == BREAK && c.gen == 6 then 1 else 0)
            && Inside(n, i, insn.fields.jip) && Inside(n, i, insn.fields.uip)
  {
    hide Code, At, Length, LoopEnd, FindLoopEnd, Short16, NextBlockEnd, FreeJump, Inside, Program, Finished, EndsBlock;
    var p, code := Place(s, INITIAL, 0, None, 0), Code(c, s, INITIAL, 0, None, 0, false);
    ProgramFinished(c, s, i);
    CodeAt(c, p, false, i);
    LoopAroundJump(c, p, false, i);
    w := LoopEnd(c, s, 0, i).value;
    LoopEndInside(c, p, i);
    ScanFindsInnermost(c, s, INITIAL, false, i);
    FinishedJumpsOut(c, s, INITIAL, i, w);
    ProgramFinished(c, s, w);
    LoopEndsBlock(code, i, w);
    BlockEndInside(c, code, i);
    TwiceInside(Length(c, s), i, w);
    TwiceInside(Length(c, s), i, w + 1);
  }

  /** An ENDIF names the next end of a block, or the instruction behind it. */
  lemma EndifInside(c: Config, s: Stmt, i: nat)
    requires 6 <= c.gen <= 7 && CanRun(c, s) && i < Length(c, s) && Program(c, s)[i].op == ENDIF
    ensures Inside(Length(c, s), i, Program(c, s)[i].fields.jip)
  {
    hide Code, Length, Short16, NextBlockEnd, FindLoopEnd, Inside, Program;
    var code := Code(c, s, INITIAL, 0, None, 0, false);
    ProgramFinished(c, s, i);
    if NextBlockEnd(code, i + 1) == 0 {
      TwiceInside(Length(c, s), i, i + 1);
    } else {
      BlockEndInside(c, code, i);
    }
  }

  /** The JIP of every BREAK, CONTINUE and ENDIF of a generated program: it names b, the first ENDIF, ELSE, WHILE
      or HALT behind it, which only an ENDIF may lack, and which then goes one instruction on. */
  lemma ProgramJips(c: Config, s: Stmt, i: nat) returns (b: nat)
    requires 6 <= c.gen <= 7 && CanRun(c, s) && i < Length(c, s)
    requires Program(c, s)[i].op in {BREAK, CONTINUE, ENDIF}
    ensures var code := Program(c, s);
            && i < b <= |code|
            && (forall j :: i < j < b ==> code[j].op !in {ENDIF, ELSE, WHILE, HALT})
            && (b < |code| ==> code[b].op in {ENDIF, ELSE, WHILE, HALT} && code[i].fields.jip == 2 * (b - i))
            && (b == |code| ==> code[i].op == ENDIF && code[i].fields.jip == 2)
  {
    hide Code, Length, Short16, NextBlockEnd, FindLoopEnd, Program, Finished, Inside;
    var code := Code(c, s, INITIAL, 0, None, 0, false);
    forall j | 0 <= j < Length(c, s) ensures Program(c, s)[j].op == code[j].op {
      ProgramFinished(c, s, j);
    }
    ProgramFinished(c, s, i);
    b := NextBlockEnd(code, i + 1);
    if b == 0 {
      b := |code|;
    }
    JipNamesBlockEnd(c, code, i, b);
    if IsJumpOut(Program(c, s)[i]) {
      var w := JumpOutInside(c, s, i);
      assert code[w].op == WHILE;
    }
  }

  /** An IF, ELSE or WHILE jumps inside its block or loop. */
  lemma BlockInside(c: Config, s: Stmt, i: nat)
    requires 6 <= c.gen <= 7 && CanRun(c, s) && i < Length(c, s) && EuBlocks.Jumps(Program(c, s)[i].op)
    ensures var n, f := Length(c, s), Program(c, s)[i].fields;
            Inside(n, i, f.jip) && Inside(n, i, f.uip) && Inside(n, i, f.gen6Jump)
  {
    hide Program, Length, EuBlocks.MateOf, Inside;
    EuBlocks.ProgramJumps(c, s, i);
    ProgramModern(c, s, i);
    var n, mate := Length(c, s), EuBlocks.MateOf(c, s, 0, i);
    TwiceInside(n, i, i);
    match mate
    case OfIf(els, end) =>
      TwiceInside(n, i, end);
      if els.Some? {
        TwiceInside(n, i, els.value + 1);
      }
    case OfElse(end) => TwiceInside(n, i, end);
    case OfWhile(first) => TwiceInside(n, i, first);
    case NoMate =>
  }

  lemma AllInside(c: Config, s: Stmt, i: nat)
    requires 6 <= c.gen <= 7 && CanRun(c, s) && i < Length(c, s) && Program(c, s)[i].op != ALU
    ensures var n, f := Length(c, s), Program(c, s)[i].fields;
            Inside(n, i, f.jip) && Inside(n, i, f.uip) && Inside(n, i, f.gen6Jump)
  {
    hide Program, Length, Inside;
    ProgramModern(c, s, i);
    TwiceInside(Length(c, s), i, i);
    TwiceInside(Length(c, s), i, i + 1);
    if IsJumpOut(Program(c, s)[i]) {
      var w := JumpOutInside(c, s, i);
    } else if Program(c, s)[i].op == ENDIF {
      EndifInside(c, s, i);
    } else {
      BlockInside(c, s, i);
    }
  }

  // ---- the program in the store ----

  /** A generated program in words, with a message behind it. */
  function Stored(c: Config, s: Stmt, alu: Encoding, last: Words.Insn): (p: seq<Raw>)
    ensures |p| == Length(c, s) + 1
  {
    Encoded(alu, last, Program(c, s))
  }

  lemma StoredAt(c: Config, s: Stmt, alu: Encoding, last: Words.Insn, i: nat)
    requires i <= Length(c, s)
    ensures Stored(c, s, alu, last)[i] ==
            Full(if i < Length(c, s) then WordsOf(alu, Program(c, s)[i]) else last)
  {
    hide Program, Length;
  }

  lemma StoredStart(c: Config, s: Stmt, alu: Encoding, last: Words.Insn, k: nat)
    requires k <= Length(c, s) + 1
    ensures Start(Stored(c, s, alu, last), k) == 2 * k
  {
    hide Program, Length;
    FullStart(Stored(c, s, alu, last), k);
  }

  lemma InsideIsStart(c: Config, s: Stmt, alu: Encoding, last: Words.Insn, i: nat, d: int)
    requires i < Length(c, s) && Inside(Length(c, s), i, d)
    ensures IsStart(Stored(c, s, alu, last), 2 * i + d)
  {
    hide Stored, Start, Length;
    StoredStart(c, s, alu, last, i + d / 2);
    assert Start(Stored(c, s, alu, last), i + d / 2) == 2 * i + d;
  }

  /** What the machine sees of a jump. */
  lemma StoredJump(c: Config, s: Stmt, alu: Encoding, last: Words.Insn, i: nat)
    requires 6 <= c.gen <= 7 && CanRun(c, s) && i < Length(c, s) && Program(c, s)[i].op != ALU
    ensures var r, insn := Stored(c, s, alu, last)[i], Program(c, s)[i];
            && r == Full(JumpWords(insn)) && Op(r) == Number(insn.op) && Proper(r)
            && (IsJumpOut(insn) ==> Codec.HasImmediate(r.insn))
            && Displacement(c.gen, r, AtJip) == (if c.gen == 6 && !IsJumpOut(insn) then insn.fields.gen6Jump
                                                 else insn.fields.jip)
            && Displacement(c.gen, r, AtUip) == (if c.gen == 6 && !IsJumpOut(insn) then insn.fields.gen6Jump
                                                 else insn.fields.uip)
  {
    hide Program, Length, Stored, JumpWords;
    StoredAt(c, s, alu, last, i);
    AllInside(c, s, i);
    ProgramModern(c, s, i);
    JumpWordFields(Program(c, s)[i]);
  }

  lemma JumpWellFormed(c: Config, s: Stmt, alu: Encoding, last: Words.Insn, i: nat)
    requires 6 <= c.gen <= 7 && CanRun(c, s) && i < Length(c, s) && Program(c, s)[i].op != ALU
    ensures EuLayout.WellFormedAt(c.gen, Stored(c, s, alu, last), i)
  {
    hide Program, Length, Stored, JumpWords, Start, Displacement;
    var p := Stored(c, s, alu, last);
    ProgramModern(c, s, i);
    AllInside(c, s, i);
    StoredJump(c, s, alu, last, i);
    StoredStart(c, s, alu, last, i);
    InsideIsStart(c, s, alu, last, i, Displacement(c.gen, p[i], AtJip));
    InsideIsStart(c, s, alu, last, i, Displacement(c.gen, p[i], AtUip));
  }

  lemma StraightWellFormed(gen: Codec.Gen, p: seq<Raw>, i: nat)
    requires i < |p| && p[i].Full? && IsStraight(p[i].insn)
    ensures EuLayout.WellFormedAt(gen, p, i) && !NeedsAlign(p[i])
  {
  }

  lemma LastWellFormed(gen: Codec.Gen, p: seq<Raw>, i: nat)
    requires i < |p| && p[i].Full? && EndsThread(p[i].insn) && Start(p, i) % 2 == 0
    ensures EuLayout.WellFormedAt(gen, p, i)
  {
    hide Start;
  }

  lemma StoredWellFormedAt(c: Config, s: Stmt, alu: Encoding, last: Words.Insn, i: nat)
    requires 6 <= c.gen <= 7 && CanRun(c, s) && Straight(alu) && EndsThread(last) && i <= Length(c, s)
    ensures EuLayout.WellFormedAt(c.gen, Stored(c, s, alu, last), i)
  {
    hide Program, Length, Stored, JumpWords, Start, EuLayout.WellFormedAt, CanRun, EndsThread, IsStraight;
    var p := Stored(c, s, alu, last);
    StoredAt(c, s, alu, last, i);
    if i == Length(c, s) {
      StoredStart(c, s, alu, last, i);
      LastWellFormed(c.gen, p, i);
    } else if Program(c, s)[i].op == ALU {
      assert IsStraight(alu(Program(c, s)[i]));
      StraightWellFormed(c.gen, p, i);
    } else {
      JumpWellFormed(c, s, alu, last, i);
    }
  }

  /** The code of a program, with an end-of-thread message behind it, is a program compaction is meant for. */
  lemma StoredWellFormed(c: Config, s: Stmt, alu: Encoding, last: Words.Insn)
    requires 6 <= c.gen <= 7 && CanRun(c, s) && Straight(alu) && EndsThread(last)
    ensures EuLayout.WellFormed(c.gen, Stored(c, s, alu, last))
  {
    hide Program, Length, Stored, Start, EuLayout.WellFormedAt, CanRun, EndsThread, Straight;
    var p := Stored(c, s, alu, last);
    StoredStart(c, s, alu, last, |p|);
    forall i | 0 <= i < |p|
      ensures EuLayout.WellFormedAt(c.gen, p, i)
    {
      StoredWellFormedAt(c, s, alu, last, i);
    }
  }
}
