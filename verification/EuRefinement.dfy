/** The emitted instructions do for every channel what the structured program says. */
module EuRefinement {
  import opened Options
  import opened EuIr
  import opened EuFinished
  import opened EuTargets
  import opened EuSemantics

  /** A part of a statement sits where the statement says. */
  lemma PartSits(c: Config, prog: seq<Insn>, p: Place, q: Place)
    requires Sits(c, prog, p)
    requires p.at <= q.at && q.at + Length(c, q.s) <= p.at + Length(c, p.s)
    requires q.loop.Some? ==> q.at + Length(c, q.s) <= q.loop.value < |prog|
    requires 0 < Length(c, q.s) ==> Locate(c, p, true, q.at - p.at) == Inner(q, 0)
    ensures Sits(c, prog, q)
  {
    hide Locate, Length;
    forall j | 0 <= j < Length(c, q.s)
      ensures prog[q.at + j] == At(c, q, true, j)
    {
      SamePart(c, p, true, q.at - p.at, q.at - p.at + j);
      assert prog[p.at + (q.at - p.at + j)] == At(c, p, true, q.at - p.at + j);
    }
  }

  /** One step at an instruction a statement has of its own. */
  lemma OwnStep(c: Config, flag: Flag, prog: seq<Insn>, p: Place, i: nat, insn: Insn, pt: Point)
    requires Sits(c, prog, p) && i < Length(c, p.s) && Locate(c, p, true, i) == Own(insn) && pt.pc == p.at + i
    ensures Run(c, flag, prog, pt, 1) == Next(c, flag, insn, pt)
  {
    hide Locate, Length, Next;
    assert prog[p.at + i] == At(c, p, true, i) == insn;
  }

  // ---- the parts of each kind of statement ----

  lemma SeqSits(c: Config, prog: seq<Insn>, p: Place)
    requires p.s.Seq? && Sits(c, prog, p)
    ensures Sits(c, prog, Place(p.s.first, p.cur, p.at, p.loop, p.ifDepth))
    ensures Sits(c, prog, Place(p.s.second, After(c, p.s.first, p.cur), p.at + Length(c, p.s.first), p.loop, p.ifDepth))
  {
    hide At, After;
    PartSits(c, prog, p, Place(p.s.first, p.cur, p.at, p.loop, p.ifDepth));
    PartSits(c, prog, p, Place(p.s.second, After(c, p.s.first, p.cur), p.at + Length(c, p.s.first), p.loop, p.ifDepth));
  }

  function ThenPlace(p: Place): Place
    requires p.s.If? || p.s.IfElse?
  {
    Place(p.s.thn, Unpredicated(p.cur), p.at + 1, p.loop, p.ifDepth + 1)
  }

  function ElsePlace(c: Config, p: Place): Place
    requires p.s.IfElse?
  {
    Place(p.s.els, Used(After(c, p.s.thn, Unpredicated(p.cur))), p.at + 1 + Length(c, p.s.thn) + 1, p.loop,
          p.ifDepth + 1)
  }

  function BodyPlace(c: Config, p: Place): Place
    requires p.s.Loop?
  {
    var first := p.at + DoLength(c);
    Place(p.s.body, AfterDo(c, p.cur), first, Some(first + Length(c, p.s.body)), 0)
  }

  function ElseLength(c: Config, s: Stmt): Option<nat>
    requires s.If? || s.IfElse?
  {
    if s.If? then None else Some(Length(c, s.els))
  }

  lemma IfSits(c: Config, prog: seq<Insn>, p: Place)
    requires (p.s.If? || p.s.IfElse?) && Sits(c, prog, p)
    ensures Sits(c, prog, ThenPlace(p))
    ensures p.s.IfElse? ==> Sits(c, prog, ElsePlace(c, p))
  {
    hide At, After, IfInsn, ElseInsn, EndifInsns;
    PartSits(c, prog, p, ThenPlace(p));
    if p.s.IfElse? {
      PartSits(c, prog, p, ElsePlace(c, p));
    }
  }

  lemma LoopSits(c: Config, prog: seq<Insn>, p: Place)
    requires p.s.Loop? && Sits(c, prog, p)
    ensures Sits(c, prog, BodyPlace(c, p))
  {
    hide At, After, WhileInsn, DoInsns;
    PartSits(c, prog, p, BodyPlace(c, p));
  }

  // ---- the control instructions of each kind of statement ----

  lemma IfRun(c: Config, flag: Flag, prog: seq<Insn>, p: Place, trace: Trace)
    requires (p.s.If? || p.s.IfElse?) && Sits(c, prog, p) && Runs(c, p)
    ensures Run(c, flag, prog, Point(p.at, trace), 1) ==
            Point(p.at + if flag(trace) != p.cur.inverse then 1
                         else if p.s.If? then 1 + Length(c, p.s.thn) else 1 + Length(c, p.s.thn) + 1, trace)
  {
    hide At, After, Run, Next, IfInsn, ElseInsn, EndifInsns, FreeJump;
    var n, m := Length(c, p.s.thn), ElseLength(c, p.s);
    OwnStep(c, flag, prog, p, 0, IfInsn(c, p.cur, n, m), Point(p.at, trace));
    IfStep(c, flag, p.cur, Point(p.at, trace), n, m);
  }

  lemma ElseRun(c: Config, flag: Flag, prog: seq<Insn>, p: Place, trace: Trace)
    requires p.s.IfElse? && Sits(c, prog, p) && Runs(c, p)
    ensures var at := p.at + 1 + Length(c, p.s.thn);
            Run(c, flag, prog, Point(at, trace), 1) == Point(at + 1 + Length(c, p.s.els), trace)
  {
    hide At, After, Run, Next, IfInsn, ElseInsn, EndifInsns, FreeJump;
    var i, cur2 := 1 + Length(c, p.s.thn), After(c, p.s.thn, Unpredicated(p.cur));
    var insn := ElseInsn(c, cur2, Length(c, p.s.els));
    OwnStep(c, flag, prog, p, i, insn, Point(p.at + i, trace));
    ElseStep(c, flag, cur2, Point(p.at + i, trace), Length(c, p.s.els));
  }

  /** The instruction state at the end of a block, in front of its ENDIF. */
  function BlockEnd(c: Config, p: Place): State
    requires p.s.If? || p.s.IfElse?
  {
    var cur2 := After(c, p.s.thn, Unpredicated(p.cur));
    if p.s.If? then cur2 else After(c, p.s.els, Used(cur2))
  }

  /** Through the ENDIF, if there is one. */
  lemma EndifRun(c: Config, flag: Flag, prog: seq<Insn>, p: Place, trace: Trace)
    requires (p.s.If? || p.s.IfElse?) && Sits(c, prog, p)
    ensures var end := p.at + Length(c, p.s);
            Run(c, flag, prog, Point(end - EndifLength(c), trace), EndifLength(c)) == Point(end, trace)
  {
    hide At, After, Next, IfInsn, ElseInsn, EndifInsns;
    if EndifLength(c) == 1 {
      var i := Length(c, p.s) - 1;
      var cur := BlockEnd(c, p);
      EndifOwn(c, p);
      OwnStep(c, flag, prog, p, i, EndifInsns(c, cur)[0], Point(p.at + i, trace));
      EndifStep(c, flag, cur, Point(p.at + i, trace));
    }
  }

  lemma EndifOwn(c: Config, p: Place)
    requires (p.s.If? || p.s.IfElse?) && EndifLength(c) == 1
    ensures Locate(c, p, true, Length(c, p.s) - 1) == Own(EndifInsns(c, BlockEnd(c, p))[0])
  {
    hide EndifInsns, IfInsn, ElseInsn;
  }

  lemma WhileRun(c: Config, flag: Flag, prog: seq<Insn>, p: Place, trace: Trace)
    requires p.s.Loop? && Sits(c, prog, p) && Runs(c, p)
    ensures var end := After(c, p.s.body, AfterDo(c, p.cur));
            && DoLength(c) == 0
            && Run(c, flag, prog, Point(p.at + Length(c, p.s.body), trace), 1) ==
               Point(p.at + if Passes(flag, end.predicated, end.inverse, trace) then 0 else Length(c, p.s), trace)
  {
    hide At, After, Run, Next, WhileInsn, Passes, FreeJump;
    var n, end := Length(c, p.s.body), After(c, p.s.body, AfterDo(c, p.cur));
    OwnStep(c, flag, prog, p, n, WhileInsn(c, end, n), Point(p.at + n, trace));
    WhileStep(c, flag, end, Point(p.at + n, trace), n);
  }

  // ---- every statement ----

  /** The flat program simulates the structured one, step by step and whatever the flag does. */
  lemma {:induction false} Simulates(c: Config, flag: Flag, prog: seq<Insn>, p: Place, trace: Trace, fuel: nat)
    returns (k: nat)
    requires Sits(c, prog, p) && Runs(c, p)
    ensures Matches(c, flag, prog, p, trace, fuel, k)
    decreases fuel, p.s, 2
  {
    match p.s
    case Seq(_, _) => k := SimulatesSeq(c, flag, prog, p, trace, fuel);
    case If(_) => k := SimulatesIf(c, flag, prog, p, trace, fuel);
    case IfElse(_, _) => k := SimulatesIf(c, flag, prog, p, trace, fuel);
    case Loop(_) => k := SimulatesLoop(c, flag, prog, p, trace, fuel);
    case SetPredicated(_) => k := 0;
    case SetInverse(_) => k := 0;
    case SetConditional(_) => k := 0;
    case _ => k := SimulatesOne(c, flag, prog, p, trace, fuel);
  }

  lemma SimulatesOne(c: Config, flag: Flag, prog: seq<Insn>, p: Place, trace: Trace, fuel: nat) returns (k: nat)
    requires Sits(c, prog, p) && Runs(c, p) && (p.s.Alu? || p.s.Break? || p.s.Continue?)
    ensures Matches(c, flag, prog, p, trace, fuel, k)
  {
    hide Run, At, BreakInsn, Passes;
    k := 1;
    var pt := Point(p.at, trace);
    if p.s.Alu? {
      OwnStep(c, flag, prog, p, 0, Plain(ALU, p.cur).(id := p.s.id), pt);
    } else {
      var op := if p.s.Break? then BREAK else CONTINUE;
      OwnStep(c, flag, prog, p, 0, BreakInsn(c, op, p.cur, p.at, p.loop, p.ifDepth), pt);
      BreakStep(c, flag, op, p.cur, pt, p.at, p.loop.value, p.ifDepth);
    }
  }

  lemma {:induction false} SimulatesSeq(c: Config, flag: Flag, prog: seq<Insn>, p: Place, trace: Trace, fuel: nat)
    returns (k: nat)
    requires Sits(c, prog, p) && Runs(c, p) && p.s.Seq?
    ensures Matches(c, flag, prog, p, trace, fuel, k)
    decreases fuel, p.s, 0
  {
    hide Run, At, After;
    var Place(s, cur, at, loop, d) := p;
    SeqSits(c, prog, p);
    k := Simulates(c, flag, prog, Place(s.first, cur, at, loop, d), trace, fuel);
    var r := Eval(c, flag, s.first, cur, trace, fuel);
    if r.Done? {
      var q := Place(s.second, After(c, s.first, cur), at + Length(c, s.first), loop, d);
      var m := Simulates(c, flag, prog, q, r.trace, r.fuel);
      RunSplits(c, flag, prog, Point(at, trace), k, m);
      k := k + m;
    }
  }

  /** The branch taken, if there is one, ends behind it. */
  function BranchEnd(c: Config, p: Place, thn: bool): int
    requires p.s.If? || p.s.IfElse?
  {
    p.at + 1 + Length(c, p.s.thn) + if p.s.If? || thn then 0 else 1 + Length(c, p.s.els)
  }

  /** From the IF through the branch taken. */
  lemma {:induction false} SimulatesBranch(c: Config, flag: Flag, prog: seq<Insn>, p: Place, trace: Trace, fuel: nat)
    returns (k: nat)
    requires Sits(c, prog, p) && Runs(c, p) && (p.s.If? || p.s.IfElse?)
    ensures var r, pt := Eval(c, flag, p.s, p.cur, trace, fuel), Run(c, flag, prog, Point(p.at, trace), k);
            && fuel <= k + r.Left()
            && if r.Done? then pt == Point(BranchEnd(c, p, flag(trace) != p.cur.inverse), r.trace)
               else Leaves(c, p, r, pt)
    decreases fuel, p.s, 0
  {
    hide Run, At, After;
    IfSits(c, prog, p);
    IfRun(c, flag, prog, p, trace);
    k := 1;
    var thn := flag(trace) != p.cur.inverse;
    if thn || p.s.IfElse? {
      var q := if thn then ThenPlace(p) else ElsePlace(c, p);
      var m := Simulates(c, flag, prog, q, trace, fuel);
      RunSplits(c, flag, prog, Point(p.at, trace), k, m);
      k := k + m;
    }
  }

  lemma {:induction false} SimulatesIf(c: Config, flag: Flag, prog: seq<Insn>, p: Place, trace: Trace, fuel: nat)
    returns (k: nat)
    requires Sits(c, prog, p) && Runs(c, p) && (p.s.If? || p.s.IfElse?)
    ensures Matches(c, flag, prog, p, trace, fuel, k)
    decreases fuel, p.s, 1
  {
    hide Run, At, After, Eval, Sits, Runs;
    var start := Point(p.at, trace);
    k := SimulatesBranch(c, flag, prog, p, trace, fuel);
    var r := Eval(c, flag, p.s, p.cur, trace, fuel);
    if r.Done? {
      if flag(trace) != p.cur.inverse && p.s.IfElse? {
        ElseRun(c, flag, prog, p, r.trace);
        RunSplits(c, flag, prog, start, k, 1);
        k := k + 1;
      }
      EndifRun(c, flag, prog, p, r.trace);
      RunSplits(c, flag, prog, start, k, EndifLength(c));
      k := k + EndifLength(c);
    }
  }

  /** One round of a loop. */
  lemma EvalLoop(c: Config, flag: Flag, body: Stmt, cur: State, trace: Trace, fuel: nat)
    ensures var cur1 := AfterDo(c, cur);
            var r, end := Eval(c, flag, body, cur1, trace, fuel), After(c, body, cur1);
            Eval(c, flag, Loop(body), cur, trace, fuel) ==
            if r.OutOfFuel? then r
            else if r.Broke? || !Passes(flag, end.predicated, end.inverse, r.trace) then Done(r.trace, r.fuel)
            else if r.fuel == 0 then OutOfFuel(r.trace)
            else Eval(c, flag, Loop(body), cur, r.trace, r.fuel - 1)
  {
    hide After, AfterDo, Passes;
  }

  lemma LoopRuns(c: Config, p: Place)
    requires p.s.Loop? && Runs(c, p)
    ensures Runs(c, BodyPlace(c, p)) && DoLength(c) == 0 && Length(c, p.s) == Length(c, p.s.body) + 1
  {
    hide After;
  }

  lemma {:induction false} SimulatesLoop(c: Config, flag: Flag, prog: seq<Insn>, p: Place, trace: Trace, fuel: nat)
    returns (k: nat)
    requires Sits(c, prog, p) && Runs(c, p) && p.s.Loop?
    ensures Matches(c, flag, prog, p, trace, fuel, k)
    decreases fuel, p.s, 0
  {
    hide Run, After, AfterDo, Passes, Eval, Sits, Runs, DoLength, Length;
    var start := Point(p.at, trace);
    LoopSits(c, prog, p);
    LoopRuns(c, p);
    EvalLoop(c, flag, p.s.body, p.cur, trace, fuel);
    k := Simulates(c, flag, prog, BodyPlace(c, p), trace, fuel);
    var cur1 := AfterDo(c, p.cur);
    var r, end := Eval(c, flag, p.s.body, cur1, trace, fuel), After(c, p.s.body, cur1);
    if r.Done? || r.Continued? {
      WhileRun(c, flag, prog, p, r.trace);
      RunSplits(c, flag, prog, start, k, 1);
      k := k + 1;
      if Passes(flag, end.predicated, end.inverse, r.trace) && r.fuel > 0 {
        var m := SimulatesLoop(c, flag, prog, p, r.trace, r.fuel - 1);
        RunSplits(c, flag, prog, start, k, m);
        k := k + m;
      }
    }
  }
}
