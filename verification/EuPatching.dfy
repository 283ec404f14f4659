/** Why patching a loop when it is closed gives every BREAK and CONTINUE in it the loop it
    belongs to. */
module EuPatching {
  import opened Options
  import opened EuIr
  import opened EuPatches

  /** Patching the run of instructions that starts at offset at. */
  function PatchedRun(c: Config, code: seq<Insn>, at: int, end: int): (r: seq<Insn>)
    ensures |r| == |code|
  {
    seq(|code|, i requires 0 <= i < |code| => PatchedBreak(c, code[i], at + i, end))
  }

  lemma PatchedRunConcat(c: Config, a: seq<Insn>, b: seq<Insn>, at: int, end: int)
    ensures PatchedRun(c, a + b, at, end) == PatchedRun(c, a, at, end) + PatchedRun(c, b, at + |a|, end)
  {
  }

  /** Instructions patching leaves alone. */
  ghost predicate Settled(code: seq<Insn>) {
    forall i :: 0 <= i < |code| ==>
      (code[i].op == BREAK || code[i].op == CONTINUE) ==> code[i].fields.jumpCount != 0
  }

  lemma SettledUnpatched(c: Config, code: seq<Insn>, at: int, end: int)
    requires Settled(code)
    ensures PatchedRun(c, code, at, end) == code
  {
  }

  /** A distance that fits is kept. */
  lemma Short16Fits(v: int)
    requires -0x8000 <= v < 0x8000
    ensures Short16(v) == v
  {
  }

  /** Distances in a loop of fitting size are positive. */
  lemma BreakDistancePositive(c: Config, op: Opcode, at: int, loop: int)
    requires at < loop && c.Br() * (loop - at + 1) < 0x8000
    ensures 0 < BreakDistance(c, op, at, loop)
  {
    var d := loop - at + if op == BREAK && c.gen <= 6 then 1 else 0;
    Short16Fits(c.Br() * d);
  }

  lemma SettledConcat(a: seq<Insn>, b: seq<Insn>)
    requires Settled(a) && Settled(b)
    ensures Settled(a + b)
  {
  }

  lemma SettledFive(a: seq<Insn>, b: seq<Insn>, c: seq<Insn>, d: seq<Insn>, e: seq<Insn>)
    requires Settled(a) && Settled(b) && Settled(c) && Settled(d) && Settled(e)
    ensures Settled(a + b + c + d + e)
  {
    hide Settled;
    SettledConcat(a, b);
    SettledConcat(a + b, c);
    SettledConcat(a + b + c, d);
    SettledConcat(a + b + c + d, e);
  }

  /** The instructions around blocks and loops are not patched. */
  lemma FrameSettled(c: Config, cur: State, thn: nat, els: Option<nat>)
    ensures Settled([IfInsn(c, cur, thn, els)]) && Settled([ElseInsn(c, cur, thn)]) && Settled(EndifInsns(c, cur))
    ensures Settled(DoInsns(c, cur)) && Settled([WhileInsn(c, cur, thn)])
  {
  }

  /** Where the enclosing loop is settled, so is all the code. */
  lemma {:induction false} CodeSettled(c: Config, s: Stmt, cur: State, at: nat, loop: nat, ifDepth: nat)
    requires c.PatchesBreaks() && at + Length(c, s) <= loop && c.Br() * (loop - at + 1) < 0x8000
    ensures Settled(Code(c, s, cur, at, Some(loop), ifDepth, true))
    decreases s, 1
  {
    hide Settled, IfInsn, ElseInsn, EndifInsns, DoInsns, WhileInsn, After, BreakInsn, Plain, Cat2, Cat3, Cat5, Used,
         Unpredicated, AfterDo;
    match s
    case Alu(id) => AluSettled(cur, id);
    case SetPredicated(_) => AluSettled(cur, 0);
    case SetInverse(_) => AluSettled(cur, 0);
    case SetConditional(_) => AluSettled(cur, 0);
    case Seq(_, _) => SeqSettled(c, s, cur, at, loop, ifDepth);
    case If(_) => IfSettled(c, s, cur, at, loop, ifDepth);
    case IfElse(_, _) => IfElseSettled(c, s, cur, at, loop, ifDepth);
    case Loop(_) => LoopSettled(c, s, cur, at, Some(loop), ifDepth);
    case Break => BreakSettled(c, BREAK, cur, at, loop, ifDepth);
    case Continue => BreakSettled(c, CONTINUE, cur, at, loop, ifDepth);
  }

  lemma {:induction false} SeqSettled(c: Config, s: Stmt, cur: State, at: nat, loop: nat, ifDepth: nat)
    requires s.Seq?
    requires c.PatchesBreaks() && at + Length(c, s) <= loop && c.Br() * (loop - at + 1) < 0x8000
    ensures Settled(Code(c, s, cur, at, Some(loop), ifDepth, true))
    decreases s, 0
  {
    hide Settled, Code, After;
    var Seq(a, b) := s;
    CodeSeq(c, a, b, cur, at, Some(loop), ifDepth, true);
    CodeSettled(c, a, cur, at, loop, ifDepth);
    CodeSettled(c, b, After(c, a, cur), at + Length(c, a), loop, ifDepth);
    SettledConcat(Code(c, a, cur, at, Some(loop), ifDepth, true),
                  Code(c, b, After(c, a, cur), at + Length(c, a), Some(loop), ifDepth, true));
  }

  lemma {:induction false} IfSettled(c: Config, s: Stmt, cur: State, at: nat, loop: nat, ifDepth: nat)
    requires s.If?
    requires c.PatchesBreaks() && at + Length(c, s) <= loop && c.Br() * (loop - at + 1) < 0x8000
    ensures Settled(Code(c, s, cur, at, Some(loop), ifDepth, true))
    decreases s, 0
  {
    hide Settled, Code, After, IfInsn, ElseInsn, EndifInsns, Used, Unpredicated;
    var cur1 := Unpredicated(cur);
    CodeIf(c, s.thn, cur, at, Some(loop), ifDepth, true);
    var head := [IfInsn(c, cur, Length(c, s.thn), None)];
    var t := Code(c, s.thn, cur1, at + 1, Some(loop), ifDepth + 1, true);
    CodeSettled(c, s.thn, cur1, at + 1, loop, ifDepth + 1);
    FrameSettled(c, cur, Length(c, s.thn), None);
    FrameSettled(c, After(c, s.thn, cur1), 0, None);
    SettledConcat(head, t);
    SettledConcat(head + t, EndifInsns(c, After(c, s.thn, cur1)));
  }

  lemma {:induction false} IfElseSettled(c: Config, s: Stmt, cur: State, at: nat, loop: nat, ifDepth: nat)
    requires s.IfElse?
    requires c.PatchesBreaks() && at + Length(c, s) <= loop && c.Br() * (loop - at + 1) < 0x8000
    ensures Settled(Code(c, s, cur, at, Some(loop), ifDepth, true))
    decreases s, 0
  {
    hide Settled, Code, After, IfInsn, ElseInsn, EndifInsns;
    var IfElse(thn, els) := s;
    CodeIfElse(c, thn, els, cur, at, Some(loop), ifDepth, true);
    var cur1 := Unpredicated(cur);
    var cur2 := After(c, thn, cur1);
    var n, m := Length(c, thn), Length(c, els);
    var head, t := [IfInsn(c, cur, n, Some(m))], Code(c, thn, cur1, at + 1, Some(loop), ifDepth + 1, true);
    var mid, e := [ElseInsn(c, cur2, m)], Code(c, els, Used(cur2), at + 1 + n + 1, Some(loop), ifDepth + 1, true);
    CodeSettled(c, thn, cur1, at + 1, loop, ifDepth + 1);
    CodeSettled(c, els, Used(cur2), at + 1 + n + 1, loop, ifDepth + 1);
    FrameSettled(c, cur, n, Some(m));
    FrameSettled(c, cur2, m, None);
    FrameSettled(c, After(c, els, Used(cur2)), 0, None);
    SettledFive(head, t, mid, e, EndifInsns(c, After(c, els, Used(cur2))));
  }

  /** A closed loop is settled, whatever is around it. */
  lemma {:induction false} LoopSettled(c: Config, s: Stmt, cur: State, at: nat, loop: Option<nat>, ifDepth: nat)
    requires s.Loop? && c.PatchesBreaks() && c.Br() * (Length(c, s) + 1) < 0x8000
    ensures Settled(Code(c, s, cur, at, loop, ifDepth, true))
    decreases s, 0
  {
    hide Settled, Code, DoInsns, WhileInsn, After, AfterDo;
    var first, n, cur1 := at + DoLength(c), Length(c, s.body), AfterDo(c, cur);
    CodeLoop(c, s.body, cur, at, loop, ifDepth, true);
    var head, b := DoInsns(c, cur), Code(c, s.body, cur1, first, Some(first + n), 0, true);
    CodeSettled(c, s.body, cur1, first, first + n, 0);
    FrameSettled(c, cur, 0, None);
    FrameSettled(c, After(c, s.body, cur1), n, None);
    SettledConcat(head, b);
    SettledConcat(head + b, [WhileInsn(c, After(c, s.body, cur1), n)]);
  }

  lemma AluSettled(cur: State, id: nat)
    ensures Settled([]) && Settled([Plain(ALU, cur).(id := id)])
  {
  }

  lemma BreakSettled(c: Config, op: Opcode, cur: State, at: nat, loop: nat, ifDepth: nat)
    requires c.PatchesBreaks() && at < loop && c.Br() * (loop - at + 1) < 0x8000 && (op == BREAK || op == CONTINUE)
    ensures Settled([BreakInsn(c, op, cur, at, Some(loop), ifDepth)])
  {
    BreakDistancePositive(c, op, at, loop);
  }

  /** Patching the code of a loop body settles its jumps on that loop. */
  lemma {:induction false} PatchedCode(c: Config, s: Stmt, cur: State, at: nat, loop: nat, ifDepth: nat)
    requires c.PatchesBreaks() && at + Length(c, s) <= loop && c.Br() * (loop - at + 1) < 0x8000
    ensures PatchedRun(c, Code(c, s, cur, at, None, ifDepth, true), at, loop) ==
            Code(c, s, cur, at, Some(loop), ifDepth, true)
    decreases s, 1
  {
    hide Settled, PatchedRun, IfInsn, ElseInsn, EndifInsns, DoInsns, WhileInsn, BreakInsn, Cat2, Cat3, Cat5, After,
         Used, Unpredicated, AfterDo, Plain;
    match s
    case Seq(_, _) => PatchedSeq(c, s, cur, at, loop, ifDepth);
    case If(_) => PatchedIfOnly(c, s, cur, at, loop, ifDepth);
    case IfElse(_, _) => PatchedIfElse(c, s, cur, at, loop, ifDepth);
    case Loop(_) => PatchedLoopKept(c, s, cur, at, loop, ifDepth);
    case Break => PatchedOne(c, BREAK, cur, at, loop, ifDepth);
    case Continue => PatchedOne(c, CONTINUE, cur, at, loop, ifDepth);
    case _ => PatchedLeaf(c, s, cur, at, loop, ifDepth);
  }

  /** A closed loop has nothing left to patch. */
  lemma PatchedLoopKept(c: Config, s: Stmt, cur: State, at: nat, loop: nat, ifDepth: nat)
    requires s.Loop?
    requires c.PatchesBreaks() && at + Length(c, s) <= loop && c.Br() * (loop - at + 1) < 0x8000
    ensures PatchedRun(c, Code(c, s, cur, at, None, ifDepth, true), at, loop) ==
            Code(c, s, cur, at, Some(loop), ifDepth, true)
  {
    hide Settled, PatchedRun, Code;
    LoopSettled(c, s, cur, at, None, ifDepth);
    SettledUnpatched(c, Code(c, s, cur, at, None, ifDepth, true), at, loop);
    CodeLoop(c, s.body, cur, at, None, ifDepth, true);
    CodeLoop(c, s.body, cur, at, Some(loop), ifDepth, true);
  }

  lemma PatchedLeaf(c: Config, s: Stmt, cur: State, at: nat, loop: nat, ifDepth: nat)
    requires s.Alu? || s.SetPredicated? || s.SetInverse? || s.SetConditional?
    ensures PatchedRun(c, Code(c, s, cur, at, None, ifDepth, true), at, loop) ==
            Code(c, s, cur, at, Some(loop), ifDepth, true)
  {
  }

  lemma {:induction false} PatchedSeq(c: Config, s: Stmt, cur: State, at: nat, loop: nat, ifDepth: nat)
    requires s.Seq?
    requires c.PatchesBreaks() && at + Length(c, s) <= loop && c.Br() * (loop - at + 1) < 0x8000
    ensures PatchedRun(c, Code(c, s, cur, at, None, ifDepth, true), at, loop) ==
            Code(c, s, cur, at, Some(loop), ifDepth, true)
    decreases s, 0
  {
    hide PatchedRun, Code, After;
    var Seq(a, b) := s;
    CodeSeq(c, a, b, cur, at, None, ifDepth, true);
    CodeSeq(c, a, b, cur, at, Some(loop), ifDepth, true);
    PatchedCode(c, a, cur, at, loop, ifDepth);
    PatchedCode(c, b, After(c, a, cur), at + Length(c, a), loop, ifDepth);
    PatchedRunConcat(c, Code(c, a, cur, at, None, ifDepth, true),
                     Code(c, b, After(c, a, cur), at + Length(c, a), None, ifDepth, true), at, loop);
  }

  lemma {:induction false} PatchedIfOnly(c: Config, s: Stmt, cur: State, at: nat, loop: nat, ifDepth: nat)
    requires s.If?
    requires c.PatchesBreaks() && at + Length(c, s) <= loop && c.Br() * (loop - at + 1) < 0x8000
    ensures PatchedRun(c, Code(c, s, cur, at, None, ifDepth, true), at, loop) ==
            Code(c, s, cur, at, Some(loop), ifDepth, true)
    decreases s, 0
  {
    hide Settled, PatchedRun, Code, After, IfInsn, EndifInsns;
    var thn := s.thn;
    CodeIf(c, thn, cur, at, None, ifDepth, true);
    CodeIf(c, thn, cur, at, Some(loop), ifDepth, true);
    var cur1 := Unpredicated(cur);
    var head, t := [IfInsn(c, cur, Length(c, thn), None)], Code(c, thn, cur1, at + 1, None, ifDepth + 1, true);
    var tail := EndifInsns(c, After(c, thn, cur1));
    PatchedCode(c, thn, cur1, at + 1, loop, ifDepth + 1);
    FrameSettled(c, cur, Length(c, thn), None);
    FrameSettled(c, After(c, thn, cur1), 0, None);
    SettledUnpatched(c, head, at, loop);
    SettledUnpatched(c, tail, at + 1 + Length(c, thn), loop);
    PatchedRunConcat(c, head, t, at, loop);
    PatchedRunConcat(c, head + t, tail, at, loop);
  }

  lemma {:induction false} PatchedIfElse(c: Config, s: Stmt, cur: State, at: nat, loop: nat, ifDepth: nat)
    requires s.IfElse?
    requires c.PatchesBreaks() && at + Length(c, s) <= loop && c.Br() * (loop - at + 1) < 0x8000
    ensures PatchedRun(c, Code(c, s, cur, at, None, ifDepth, true), at, loop) ==
            Code(c, s, cur, at, Some(loop), ifDepth, true)
    decreases s, 0
  {
    hide Settled, PatchedRun, Code, After, IfInsn, ElseInsn, EndifInsns;
    var IfElse(thn, els) := s;
    CodeIfElse(c, thn, els, cur, at, None, ifDepth, true);
    CodeIfElse(c, thn, els, cur, at, Some(loop), ifDepth, true);
    var cur1 := Unpredicated(cur);
    var cur2 := After(c, thn, cur1);
    var n, m := Length(c, thn), Length(c, els);
    var head, t := [IfInsn(c, cur, n, Some(m))], Code(c, thn, cur1, at + 1, None, ifDepth + 1, true);
    var mid, e := [ElseInsn(c, cur2, m)], Code(c, els, Used(cur2), at + 1 + n + 1, None, ifDepth + 1, true);
    var tail := EndifInsns(c, After(c, els, Used(cur2)));
    PatchedCode(c, thn, cur1, at + 1, loop, ifDepth + 1);
    PatchedCode(c, els, Used(cur2), at + 1 + n + 1, loop, ifDepth + 1);
    FrameSettled(c, cur, n, Some(m));
    FrameSettled(c, cur2, m, None);
    FrameSettled(c, After(c, els, Used(cur2)), 0, None);
    SettledUnpatched(c, head, at, loop);
    SettledUnpatched(c, mid, at + 1 + n, loop);
    SettledUnpatched(c, tail, at + 1 + n + 1 + m, loop);
    PatchedRunConcat(c, head, t, at, loop);
    PatchedRunConcat(c, head + t, mid, at, loop);
    PatchedRunConcat(c, head + t + mid, e, at, loop);
    PatchedRunConcat(c, head + t + mid + e, tail, at, loop);
  }

  lemma PatchedOne(c: Config, op: Opcode, cur: State, at: nat, loop: nat, ifDepth: nat)
    requires c.PatchesBreaks() && (op == BREAK || op == CONTINUE)
    ensures PatchedRun(c, [BreakInsn(c, op, cur, at, None, ifDepth)], at, loop) ==
            [BreakInsn(c, op, cur, at, Some(loop), ifDepth)]
  {
  }
}
