/** When it does not matter for which generation a program is generated. */
module EuGenerations {
  import opened Options
  import opened EuIr
  import opened EuTargets
  import opened EuUipJip
  import opened EuSemantics
  import opened EuRefinement
  import opened EuMeaning

  /** What an instruction has of the instruction defaults: a straight-line one all of it, a jump that may be
      taken its predicate.  (An IF is always predicated, and an ELSE always jumps.) */
  datatype Head = Executes(insn: Insn) | Decides(predicated: bool, inverse: bool)

  function HeadOf(insn: Insn): Head {
    if insn.op == ALU then Executes(insn) else Decides(insn.predicated, insn.inverse)
  }

  function HeadCount(s: Stmt): nat {
    match s
    case Alu(_) => 1
    case Seq(a, b) => HeadCount(a) + HeadCount(b)
    case If(thn) => HeadCount(thn)
    case IfElse(thn, els) => HeadCount(thn) + HeadCount(els)
    case Loop(body) => HeadCount(body) + 1
    case Break => 1
    case Continue => 1
    case _ => 0
  }

  /** The heads of the straight-line instructions, loop ends, BREAKs and CONTINUEs of a statement, in order. */
  function Heads(c: Config, s: Stmt, cur: State): (r: seq<Head>)
    ensures |r| == HeadCount(s)
  {
    match s
    case Alu(id) => [Executes(Plain(ALU, cur).(id := id))]
    case Seq(a, b) => Heads(c, a, cur) + Heads(c, b, After(c, a, cur))
    case If(thn) => Heads(c, thn, Unpredicated(cur))
    case IfElse(thn, els) =>
      var cur1 := Unpredicated(cur);
      Heads(c, thn, cur1) + Heads(c, els, Used(After(c, thn, cur1)))
    case Loop(body) =>
      var cur1 := AfterDo(c, cur);
      var end := After(c, body, cur1);
      Heads(c, body, cur1) + [Decides(end.predicated, end.inverse)]
    case Break => [Decides(cur.predicated, cur.inverse)]
    case Continue => [Decides(cur.predicated, cur.inverse)]
    case _ => []
  }

  // ---- programs with the same heads ----

  lemma {:induction false} InverseAgrees(c: Config, c': Config, s: Stmt, cur: State, cur': State)
    requires cur.inverse == cur'.inverse
    ensures After(c, s, cur).inverse == After(c', s, cur').inverse
  {
    match s
    case Seq(a, b) =>
      InverseAgrees(c, c', a, cur, cur');
      InverseAgrees(c, c', b, After(c, a, cur), After(c', a, cur'));
    case If(thn) => InverseAgrees(c, c', thn, Unpredicated(cur), Unpredicated(cur'));
    case IfElse(thn, els) =>
      var cur1, cur1' := Unpredicated(cur), Unpredicated(cur');
      InverseAgrees(c, c', thn, cur1, cur1');
      InverseAgrees(c, c', els, Used(After(c, thn, cur1)), Used(After(c', thn, cur1')));
    case Loop(body) => InverseAgrees(c, c', body, AfterDo(c, cur), AfterDo(c', cur'));
    case _ =>
  }

  lemma Halved<T>(a: seq<T>, b: seq<T>, a': seq<T>, b': seq<T>)
    requires |a| == |a'|
    ensures a + b == a' + b' <==> a == a' && b == b'
  {
    if a + b == a' + b' {
      assert a == (a + b)[..|a|] && b == (a + b)[|a|..];
      assert a' == (a' + b')[..|a|] && b' == (a' + b')[|a|..];
    }
  }

  lemma {:induction false} EvalAgrees(c: Config, c': Config, flag: Flag, s: Stmt, cur: State, cur': State, trace: Trace,
                                      fuel: nat)
    requires cur.inverse == cur'.inverse && Heads(c, s, cur) == Heads(c', s, cur')
    ensures Eval(c, flag, s, cur, trace, fuel) == Eval(c', flag, s, cur', trace, fuel)
    decreases fuel, s, 1
  {
    hide After, Passes;
    match s
    case Seq(a, b) =>
      var mid, mid' := After(c, a, cur), After(c', a, cur');
      Halved(Heads(c, a, cur), Heads(c, b, mid), Heads(c', a, cur'), Heads(c', b, mid'));
      InverseAgrees(c, c', a, cur, cur');
      EvalAgrees(c, c', flag, a, cur, cur', trace, fuel);
      var r := Eval(c, flag, a, cur, trace, fuel);
      if r.Done? {
        EvalAgrees(c, c', flag, b, mid, mid', r.trace, r.fuel);
      }
    case If(thn) => EvalAgrees(c, c', flag, thn, Unpredicated(cur), Unpredicated(cur'), trace, fuel);
    case IfElse(thn, els) =>
      var cur1, cur1' := Unpredicated(cur), Unpredicated(cur');
      var mid, mid' := Used(After(c, thn, cur1)), Used(After(c', thn, cur1'));
      Halved(Heads(c, thn, cur1), Heads(c, els, mid), Heads(c', thn, cur1'), Heads(c', els, mid'));
      InverseAgrees(c, c', thn, cur1, cur1');
      EvalAgrees(c, c', flag, thn, cur1, cur1', trace, fuel);
      EvalAgrees(c, c', flag, els, mid, mid', trace, fuel);
    case Loop(_) => LoopAgrees(c, c', flag, s, cur, cur', trace, fuel);
    case _ =>
  }

  lemma {:induction false} LoopAgrees(c: Config, c': Config, flag: Flag, s: Stmt, cur: State, cur': State, trace: Trace,
                                      fuel: nat)
    requires s.Loop? && cur.inverse == cur'.inverse && Heads(c, s, cur) == Heads(c', s, cur')
    ensures Eval(c, flag, s, cur, trace, fuel) == Eval(c', flag, s, cur', trace, fuel)
    decreases fuel, s, 0
  {
    hide After, Passes, Eval;
    var cur1, cur1' := AfterDo(c, cur), AfterDo(c', cur');
    var end, end' := After(c, s.body, cur1), After(c', s.body, cur1');
    Halved(Heads(c, s.body, cur1), [Decides(end.predicated, end.inverse)],
           Heads(c', s.body, cur1'), [Decides(end'.predicated, end'.inverse)]);
    EvalLoop(c, flag, s.body, cur, trace, fuel);
    EvalLoop(c', flag, s.body, cur', trace, fuel);
    EvalAgrees(c, c', flag, s.body, cur1, cur1', trace, fuel);
    var r := Eval(c, flag, s.body, cur1, trace, fuel);
    if (r.Done? || r.Continued?) && r.fuel > 0 {
      LoopAgrees(c, c', flag, s, cur, cur', r.trace, r.fuel - 1);
    }
  }

  /** Where both emit the same instructions, with ENDIFs or without, the states are the same throughout. */
  lemma {:induction false} SameKind(c: Config, c': Config, s: Stmt, cur: State)
    requires c.AddsToIp() == c'.AddsToIp() && c.PatchesBreaks() == c'.PatchesBreaks()
    ensures After(c, s, cur) == After(c', s, cur) && Heads(c, s, cur) == Heads(c', s, cur)
  {
    match s
    case Seq(a, b) =>
      SameKind(c, c', a, cur);
      SameKind(c, c', b, After(c, a, cur));
    case If(thn) => SameKind(c, c', thn, Unpredicated(cur));
    case IfElse(thn, els) =>
      SameKind(c, c', thn, Unpredicated(cur));
      SameKind(c, c', els, Used(After(c, thn, Unpredicated(cur))));
    case Loop(body) => SameKind(c, c', body, AfterDo(c, cur));
    case _ =>
  }

  /** It does not matter for which of two generations a program is generated, if both have ENDIFs or none, or
      if the heads are the same. */
  lemma GenerationsAgree(c: Config, c': Config, flag: Flag, s: Stmt, trace: Trace)
    requires CanRun(c, s) && CanRun(c', s)
    requires c.AddsToIp() == c'.AddsToIp() || Heads(c, s, INITIAL) == Heads(c', s, INITIAL)
    ensures Halts(c, flag, Program(c, s), trace) <==> Halts(c', flag, Program(c', s), trace)
  {
    hide Halts, Program, Eval, Heads;
    GeneratedHalts(c, flag, s, trace);
    GeneratedHalts(c', flag, s, trace);
    if c.AddsToIp() == c'.AddsToIp() {
      SameKind(c, c', s, INITIAL);
    }
    forall fuel: nat
      ensures EndsWithin(c, flag, s, trace, fuel) == EndsWithin(c', flag, s, trace, fuel)
    {
      EvalAgrees(c, c', flag, s, INITIAL, INITIAL, [], fuel);
    }
  }

  /** Otherwise it may: the ENDIF of gen6 uses up the modifier and so predicates the instruction behind it,
      which with ADDs is executed. */
  lemma PendingModifierDiffers(flag: Flag)
    requires !flag([])
    ensures var s := Seq(If(SetConditional(true)), Alu(1));
            var executed := [Insn(ALU, 1, false, false, true, NO_FIELDS)];
            && Halts(Config(5, true), flag, Program(Config(5, true), s), executed)
            && Halts(Config(6, false), flag, Program(Config(6, false), s), [])
  {
    hide Halts, Program;
    var c, c', s := Config(5, true), Config(6, false), Seq(If(SetConditional(true)), Alu(1));
    var executed := [Insn(ALU, 1, false, false, true, NO_FIELDS)];
    GeneratedHalts(c, flag, s, executed);
    GeneratedHalts(c', flag, s, []);
    assert EndsWithin(c, flag, s, executed, 0);
    assert EndsWithin(c', flag, s, [], 0);
  }

  /** A modifier that is pending at the end of a block and is then withdrawn does no harm. */
  lemma WithdrawnModifierAgrees(c: Config, c': Config)
    ensures var s := Seq(If(SetConditional(true)), Seq(SetConditional(false), Seq(SetPredicated(false), Alu(1))));
            Heads(c, s, INITIAL) == Heads(c', s, INITIAL)
  {
    WithdrawnHeads(c);
    WithdrawnHeads(c');
  }

  lemma WithdrawnHeads(c: Config)
    ensures var s := Seq(If(SetConditional(true)), Seq(SetConditional(false), Seq(SetPredicated(false), Alu(1))));
            Heads(c, s, INITIAL) == [Executes(Plain(ALU, INITIAL).(id := 1))]
  {
    var rest := Seq(SetConditional(false), Seq(SetPredicated(false), Alu(1)));
    var cur := After(c, If(SetConditional(true)), INITIAL);
    assert cur == AfterEndif(c, State(false, false, true)) by {
      assert After(c, SetConditional(true), Unpredicated(INITIAL)) == State(false, false, true);
    }
    var mid := After(c, rest.first, cur);
    assert mid.conditionalMod == false && mid.inverse == false;
    assert After(c, rest.second.first, mid) == INITIAL;
    assert Heads(c, rest.second, mid) == Heads(c, rest.second.first, mid) + Heads(c, Alu(1), INITIAL);
    assert Heads(c, rest, cur) == Heads(c, rest.first, cur) + Heads(c, rest.second, mid);
  }

  // ---- the heads as they are emitted ----

  /** The offsets of the instructions the heads belong to. */
  function HeadPlaces(c: Config, s: Stmt, at: nat): (r: seq<nat>)
    ensures |r| == HeadCount(s)
  {
    match s
    case Alu(_) => [at]
    case Seq(a, b) => HeadPlaces(c, a, at) + HeadPlaces(c, b, at + Length(c, a))
    case If(thn) => HeadPlaces(c, thn, at + 1)
    case IfElse(thn, els) => HeadPlaces(c, thn, at + 1) + HeadPlaces(c, els, at + 1 + Length(c, thn) + 1)
    case Loop(body) => HeadPlaces(c, body, at + DoLength(c)) + [at + DoLength(c) + Length(c, body)]
    case Break => [at]
    case Continue => [at]
    case _ => []
  }

  /** Head k of a statement is that of the instruction at its offset. */
  ghost predicate EmittedAt(c: Config, p: Place, patched: bool, k: nat)
    requires k < HeadCount(p.s)
  {
    var i := HeadPlaces(c, p.s, p.at)[k];
    p.at <= i < p.at + Length(c, p.s) && HeadOf(At(c, p, patched, i - p.at)) == Heads(c, p.s, p.cur)[k]
  }

  lemma PartEmitted(c: Config, p: Place, patched: bool, k: nat, q: Place, m: nat)
    requires k < HeadCount(p.s) && m < HeadCount(q.s) && EmittedAt(c, q, patched, m)
    requires HeadPlaces(c, p.s, p.at)[k] == HeadPlaces(c, q.s, q.at)[m]
    requires Heads(c, p.s, p.cur)[k] == Heads(c, q.s, q.cur)[m]
    requires p.at <= q.at && q.at + Length(c, q.s) <= p.at + Length(c, p.s)
    requires var i := HeadPlaces(c, q.s, q.at)[m]; Locate(c, p, patched, i - p.at) == Inner(q, i - q.at)
    ensures EmittedAt(c, p, patched, k)
  {
    hide Locate, Length, Heads, HeadPlaces, HeadOf;
  }

  lemma {:induction false} HeadEmitted(c: Config, p: Place, patched: bool, k: nat)
    requires k < HeadCount(p.s)
    ensures EmittedAt(c, p, patched, k)
    decreases p.s, 1
  {
    hide At, After, Unpredicated, Used;
    match p.s
    case Seq(_, _) => HeadEmittedSeq(c, p, patched, k);
    case If(thn) =>
      var q := ThenPlace(p);
      HeadEmitted(c, q, patched, k);
      PartEmitted(c, p, patched, k, q, k);
    case IfElse(_, _) => HeadEmittedIfElse(c, p, patched, k);
    case Loop(_) => HeadEmittedLoop(c, p, patched, k);
    case _ => HeadEmittedHere(c, p, patched, k);
  }

  lemma HeadEmittedHere(c: Config, p: Place, patched: bool, k: nat)
    requires k < HeadCount(p.s) && (p.s.Alu? || p.s.Break? || p.s.Continue?)
    ensures EmittedAt(c, p, patched, k)
  {
    hide BreakDistance;
  }

  // Of each kind of statement: its parts, their heads, and what is located in them.

  function SeqPart(c: Config, p: Place, first: bool): Place
    requires p.s.Seq?
  {
    if first then Place(p.s.first, p.cur, p.at, p.loop, p.ifDepth)
    else Place(p.s.second, After(c, p.s.first, p.cur), p.at + Length(c, p.s.first), p.loop, p.ifDepth)
  }

  lemma ConcatAt<T>(a: seq<T>, b: seq<T>, k: nat)
    requires k < |a| + |b|
    ensures (a + b)[k] == if k < |a| then a[k] else b[k - |a|]
  {
  }

  lemma SeqShape(c: Config, p: Place)
    requires p.s.Seq?
    ensures var a, b := SeqPart(c, p, true), SeqPart(c, p, false);
            && HeadPlaces(c, p.s, p.at) == HeadPlaces(c, a.s, a.at) + HeadPlaces(c, b.s, b.at)
            && Heads(c, p.s, p.cur) == Heads(c, a.s, a.cur) + Heads(c, b.s, b.cur)
  {
    hide After, Length;
  }

  lemma SeqHeads(c: Config, p: Place, k: nat)
    requires p.s.Seq? && k < HeadCount(p.s)
    ensures var n := HeadCount(p.s.first);
            var q, m := SeqPart(c, p, k < n), if k < n then k else k - n;
            && m < HeadCount(q.s)
            && HeadPlaces(c, p.s, p.at)[k] == HeadPlaces(c, q.s, q.at)[m]
            && Heads(c, p.s, p.cur)[k] == Heads(c, q.s, q.cur)[m]
  {
    hide After, Length, Heads, HeadPlaces;
    var a, b := SeqPart(c, p, true), SeqPart(c, p, false);
    SeqShape(c, p);
    ConcatAt(HeadPlaces(c, a.s, a.at), HeadPlaces(c, b.s, b.at), k);
    ConcatAt(Heads(c, a.s, a.cur), Heads(c, b.s, b.cur), k);
  }

  lemma SeqLocate(c: Config, p: Place, patched: bool, first: bool, i: nat)
    requires p.s.Seq?
    requires var q := SeqPart(c, p, first); q.at <= p.at + i < q.at + Length(c, q.s)
    ensures i < Length(c, p.s)
    ensures var q := SeqPart(c, p, first); Locate(c, p, patched, i) == Inner(q, p.at + i - q.at)
  {
    hide After;
  }

  lemma {:induction false} HeadEmittedSeq(c: Config, p: Place, patched: bool, k: nat)
    requires p.s.Seq? && k < HeadCount(p.s)
    ensures EmittedAt(c, p, patched, k)
    decreases p.s, 0
  {
    hide At, After, Heads, HeadPlaces, HeadOf, Locate;
    var n := HeadCount(p.s.first);
    var q, m := SeqPart(c, p, k < n), if k < n then k else k - n;
    SeqHeads(c, p, k);
    HeadEmitted(c, q, patched, m);
    SeqLocate(c, p, patched, k < n, HeadPlaces(c, q.s, q.at)[m] - p.at);
    PartEmitted(c, p, patched, k, q, m);
  }

  lemma BranchShape(c: Config, p: Place)
    requires p.s.IfElse?
    ensures var a, b := ThenPlace(p), ElsePlace(c, p);
            && HeadPlaces(c, p.s, p.at) == HeadPlaces(c, a.s, a.at) + HeadPlaces(c, b.s, b.at)
            && Heads(c, p.s, p.cur) == Heads(c, a.s, a.cur) + Heads(c, b.s, b.cur)
  {
    hide After, Length, Unpredicated, Used;
  }

  lemma BranchHeads(c: Config, p: Place, k: nat)
    requires p.s.IfElse? && k < HeadCount(p.s)
    ensures var n := HeadCount(p.s.thn);
            var q, m := if k < n then ThenPlace(p) else ElsePlace(c, p), if k < n then k else k - n;
            && m < HeadCount(q.s)
            && HeadPlaces(c, p.s, p.at)[k] == HeadPlaces(c, q.s, q.at)[m]
            && Heads(c, p.s, p.cur)[k] == Heads(c, q.s, q.cur)[m]
  {
    hide After, Length, Unpredicated, Used, Heads, HeadPlaces;
    var a, b := ThenPlace(p), ElsePlace(c, p);
    BranchShape(c, p);
    ConcatAt(HeadPlaces(c, a.s, a.at), HeadPlaces(c, b.s, b.at), k);
    ConcatAt(Heads(c, a.s, a.cur), Heads(c, b.s, b.cur), k);
  }

  lemma BranchLocate(c: Config, p: Place, patched: bool, first: bool, i: nat)
    requires p.s.IfElse?
    requires var q := if first then ThenPlace(p) else ElsePlace(c, p); q.at <= p.at + i < q.at + Length(c, q.s)
    ensures i < Length(c, p.s)
    ensures var q := if first then ThenPlace(p) else ElsePlace(c, p);
            Locate(c, p, patched, i) == Inner(q, p.at + i - q.at)
  {
    hide After, Unpredicated, Used, IfInsn, ElseInsn, EndifInsns;
  }

  lemma {:induction false} HeadEmittedIfElse(c: Config, p: Place, patched: bool, k: nat)
    requires p.s.IfElse? && k < HeadCount(p.s)
    ensures EmittedAt(c, p, patched, k)
    decreases p.s, 0
  {
    hide At, After, Heads, HeadPlaces, HeadOf, Locate, Unpredicated, Used;
    var n := HeadCount(p.s.thn);
    var q, m := if k < n then ThenPlace(p) else ElsePlace(c, p), if k < n then k else k - n;
    BranchHeads(c, p, k);
    HeadEmitted(c, q, patched, m);
    BranchLocate(c, p, patched, k < n, HeadPlaces(c, q.s, q.at)[m] - p.at);
    PartEmitted(c, p, patched, k, q, m);
  }

  function LoopPart(c: Config, p: Place, patched: bool): Place
    requires p.s.Loop?
  {
    var first := p.at + DoLength(c);
    Place(p.s.body, AfterDo(c, p.cur), first, if patched then Some(first + Length(c, p.s.body)) else None, 0)
  }

  lemma BodyHeads(c: Config, p: Place, patched: bool, k: nat)
    requires p.s.Loop? && k < HeadCount(p.s.body)
    ensures var q := LoopPart(c, p, patched);
            && HeadPlaces(c, p.s, p.at)[k] == HeadPlaces(c, q.s, q.at)[k]
            && Heads(c, p.s, p.cur)[k] == Heads(c, q.s, q.cur)[k]
  {
    hide After, AfterDo, Length, DoLength;
  }

  lemma BodyLocate(c: Config, p: Place, patched: bool, i: nat)
    requires p.s.Loop?
    requires var q := LoopPart(c, p, patched); q.at <= p.at + i < q.at + Length(c, q.s)
    ensures i < Length(c, p.s)
    ensures var q := LoopPart(c, p, patched); Locate(c, p, patched, i) == Inner(q, p.at + i - q.at)
  {
    hide After, AfterDo, DoInsns, WhileInsn;
  }

  lemma LoopEndEmitted(c: Config, p: Place, patched: bool)
    requires p.s.Loop?
    ensures EmittedAt(c, p, patched, HeadCount(p.s.body))
  {
    hide After, AfterDo, DoInsns, Short16;
  }

  lemma {:induction false} HeadEmittedLoop(c: Config, p: Place, patched: bool, k: nat)
    requires p.s.Loop? && k < HeadCount(p.s)
    ensures EmittedAt(c, p, patched, k)
    decreases p.s, 0
  {
    hide At, After, AfterDo, Heads, HeadPlaces, HeadOf, Locate, EmittedAt;
    if k < HeadCount(p.s.body) {
      var q := LoopPart(c, p, patched);
      BodyHeads(c, p, patched, k);
      HeadEmitted(c, q, patched, k);
      assert q.at <= HeadPlaces(c, q.s, q.at)[k] < q.at + Length(c, q.s) by { EmittedInside(c, q, patched, k); }
      BodyLocate(c, p, patched, HeadPlaces(c, q.s, q.at)[k] - p.at);
      PartEmitted(c, p, patched, k, q, k);
    } else {
      LoopEndEmitted(c, p, patched);
    }
  }

  lemma EmittedInside(c: Config, p: Place, patched: bool, k: nat)
    requires k < HeadCount(p.s) && EmittedAt(c, p, patched, k)
    ensures p.at <= HeadPlaces(c, p.s, p.at)[k] < p.at + Length(c, p.s)
  {
  }

  /** How many heads come before those of the part that holds instruction i. */
  function HeadsBefore(c: Config, s: Stmt, i: nat): nat {
    if s.Seq? && i >= Length(c, s.first) then HeadCount(s.first)
    else if s.IfElse? && i > Length(c, s.thn) then HeadCount(s.thn)
    else 0
  }

  lemma IfHeads(c: Config, p: Place)
    requires p.s.If?
    ensures HeadCount(p.s) == HeadCount(p.s.thn)
    ensures HeadPlaces(c, p.s, p.at) == HeadPlaces(c, p.s.thn, p.at + 1)
    ensures Heads(c, p.s, p.cur) == Heads(c, p.s.thn, Unpredicated(p.cur))
  {
    hide Unpredicated;
  }

  /** Which part holds instruction i. */
  lemma PartOf(c: Config, p: Place, patched: bool, i: nat)
    requires i < Length(c, p.s) && Locate(c, p, patched, i).Inner?
    ensures var q := Locate(c, p, patched, i).place;
            && (p.s.Seq? || p.s.If? || p.s.IfElse? || p.s.Loop?)
            && (p.s.Seq? ==> q == SeqPart(c, p, i < Length(c, p.s.first)))
            && (p.s.If? ==> q == ThenPlace(p))
            && (p.s.IfElse? ==> q == if i <= Length(c, p.s.thn) then ThenPlace(p) else ElsePlace(c, p))
            && (p.s.Loop? ==> q == LoopPart(c, p, patched))
  {
    hide After, AfterDo, Used, Unpredicated, IfInsn, ElseInsn, EndifInsns, DoInsns, WhileInsn;
  }

  /** The heads of a part are among those of the statement. */
  lemma PartHead(c: Config, p: Place, patched: bool, i: nat, m: nat)
    requires i < Length(c, p.s) && Locate(c, p, patched, i).Inner?
    requires m < HeadCount(Locate(c, p, patched, i).place.s)
    ensures var q, k := Locate(c, p, patched, i).place, HeadsBefore(c, p.s, i) + m;
            k < HeadCount(p.s) && HeadPlaces(c, p.s, p.at)[k] == HeadPlaces(c, q.s, q.at)[m]
  {
    hide Locate, Length, Heads, HeadPlaces, After, AfterDo, Used, Unpredicated, DoLength;
    PartOf(c, p, patched, i);
    if p.s.Seq? {
      SeqHeads(c, p, HeadsBefore(c, p.s, i) + m);
    } else if p.s.If? {
      IfHeads(c, p);
    } else if p.s.IfElse? {
      BranchHeads(c, p, HeadsBefore(c, p.s, i) + m);
    } else {
      BodyHeads(c, p, patched, m);
    }
  }

  predicate HasHeadOp(op: Opcode) {
    op == ALU || op == WHILE || op == BREAK || op == CONTINUE
  }

  lemma OwnHead(c: Config, p: Place, patched: bool, i: nat) returns (k: nat)
    requires i < Length(c, p.s) && Locate(c, p, patched, i).Own? && HasHeadOp(Locate(c, p, patched, i).insn.op)
    ensures k < HeadCount(p.s) && HeadPlaces(c, p.s, p.at)[k] == p.at + i
  {
    hide After, AfterDo, Used, Unpredicated, IfInsn, ElseInsn, EndifInsns, DoInsns, WhileInsn, BreakInsn;
    k := 0;
    if p.s.If? || p.s.IfElse? {
      BlockOps(c, p, patched, i);
      assert false;
    } else if p.s.Loop? {
      k := HeadCount(p.s) - 1;
      LoopOps(c, p, patched, i);
    }
  }

  /** Every straight-line instruction, WHILE, BREAK and CONTINUE has its head. */
  lemma {:induction false} HasHead(c: Config, p: Place, patched: bool, i: nat) returns (k: nat)
    requires i < Length(c, p.s) && HasHeadOp(At(c, p, patched, i).op)
    ensures k < HeadCount(p.s) && HeadPlaces(c, p.s, p.at)[k] == p.at + i
    decreases p.s
  {
    hide Locate, Length, HeadPlaces, HasHeadOp;
    match Locate(c, p, patched, i)
    case Own(_) => k := OwnHead(c, p, patched, i);
    case Inner(q, j) =>
      var m := HasHead(c, q, patched, j);
      PartHead(c, p, patched, i, m);
      k := HeadsBefore(c, p.s, i) + m;
  }

  // ---- what heads tell ----

  /** Whether a channel takes an instruction, and what it has executed then. */
  function Act(flag: Flag, insn: Insn, trace: Trace): (bool, Trace) {
    var passes := Passes(flag, insn.predicated, insn.inverse, trace);
    (passes, if passes && insn.op == ALU then trace + [insn] else trace)
  }

  ghost predicate ActAlike(a: Insn, b: Insn) {
    forall flag: Flag, trace: Trace :: Act(flag, a, trace) == Act(flag, b, trace)
  }

  /** Two instructions act alike for every flag exactly if they have the same head. */
  lemma AlikeExactly(a: Insn, b: Insn)
    requires a.inverse == b.inverse && (a.op == ALU <==> b.op == ALU)
    ensures ActAlike(a, b) <==> HeadOf(a) == HeadOf(b)
  {
    var yes: Flag := _ => !a.inverse;
    var no: Flag := _ => a.inverse;
    if ActAlike(a, b) {
      assert Act(yes, a, []) == Act(yes, b, []) && Act(no, a, []) == Act(no, b, []);
      assert a.op == ALU ==> [] + [a] == [a] && [] + [b] == [b];
    }
  }

  predicate SameInverse(a: Head, b: Head) {
    match a
    case Executes(insn) =>
      b.Executes? && b.insn == insn.(predicated := b.insn.predicated, conditional := b.insn.conditional)
    case Decides(_, inverse) => b.Decides? && b.inverse == inverse
  }

  lemma SameInverseHere(c: Config, c': Config, s: Stmt, cur: State, cur': State)
    requires cur.inverse == cur'.inverse && (s.Alu? || s.Break? || s.Continue?)
    ensures SameInverse(Heads(c, s, cur)[0], Heads(c', s, cur')[0])
  {
  }

  lemma SameInverseEnd(c: Config, c': Config, s: Stmt, cur: State, cur': State)
    requires cur.inverse == cur'.inverse && s.Loop?
    ensures SameInverse(Heads(c, s, cur)[HeadCount(s.body)], Heads(c', s, cur')[HeadCount(s.body)])
  {
    hide After;
    InverseAgrees(c, c', s.body, AfterDo(c, cur), AfterDo(c', cur'));
  }

  /** The inversion of the predicate does not depend on the generation. */
  lemma {:induction false} HeadsSameInverse(c: Config, c': Config, s: Stmt, cur: State, cur': State, k: nat)
    requires cur.inverse == cur'.inverse && k < HeadCount(s)
    ensures SameInverse(Heads(c, s, cur)[k], Heads(c', s, cur')[k])
  {
    hide After, Heads, HeadPlaces, SameInverse, Length, DoLength;
    var p, p' := Place(s, cur, 0, None, 0), Place(s, cur', 0, None, 0);
    match s
    case Seq(a, b) =>
      SeqHeads(c, p, k);
      SeqHeads(c', p', k);
      InverseAgrees(c, c', a, cur, cur');
      if k < HeadCount(a) {
        HeadsSameInverse(c, c', a, cur, cur', k);
      } else {
        HeadsSameInverse(c, c', b, After(c, a, cur), After(c', a, cur'), k - HeadCount(a));
      }
    case If(thn) =>
      IfHeads(c, p);
      IfHeads(c', p');
      HeadsSameInverse(c, c', thn, Unpredicated(cur), Unpredicated(cur'), k);
    case IfElse(thn, els) =>
      var cur1, cur1' := Unpredicated(cur), Unpredicated(cur');
      BranchHeads(c, p, k);
      BranchHeads(c', p', k);
      InverseAgrees(c, c', thn, cur1, cur1');
      if k < HeadCount(thn) {
        HeadsSameInverse(c, c', thn, cur1, cur1', k);
      } else {
        HeadsSameInverse(c, c', els, Used(After(c, thn, cur1)), Used(After(c', thn, cur1')), k - HeadCount(thn));
      }
    case Loop(body) =>
      if k < HeadCount(body) {
        BodyHeads(c, p, true, k);
        BodyHeads(c', p', true, k);
        HeadsSameInverse(c, c', body, AfterDo(c, cur), AfterDo(c', cur'), k);
      } else {
        SameInverseEnd(c, c', s, cur, cur');
      }
    case _ => SameInverseHere(c, c', s, cur, cur');
  }

  /** Finishing changes no head. */
  lemma ProgramHead(c: Config, s: Stmt, k: nat)
    requires !c.PatchesBreaks() && k < HeadCount(s)
    ensures var i := HeadPlaces(c, s, 0)[k];
            0 <= i < Length(c, s) && HeadOf(Program(c, s)[i]) == Heads(c, s, INITIAL)[k]
  {
    hide Code, At, Length, Short16, NextBlockEnd, FindLoopEnd, Heads, HeadPlaces;
    var p := Place(s, INITIAL, 0, None, 0);
    HeadEmitted(c, p, false, k);
    CodeAt(c, p, false, HeadPlaces(c, s, 0)[k]);
  }

  /** Head k of the two programs acts alike. */
  ghost predicate HeadAlike(c: Config, c': Config, s: Stmt, k: nat)
    requires k < HeadCount(s)
  {
    var i, i' := HeadPlaces(c, s, 0)[k], HeadPlaces(c', s, 0)[k];
    i < Length(c, s) && i' < Length(c', s) && ActAlike(Program(c, s)[i], Program(c', s)[i'])
  }

  lemma HeadAlikeExactly(c: Config, c': Config, s: Stmt, k: nat)
    requires !c.PatchesBreaks() && !c'.PatchesBreaks() && k < HeadCount(s)
    ensures HeadAlike(c, c', s, k) <==> Heads(c, s, INITIAL)[k] == Heads(c', s, INITIAL)[k]
  {
    hide Program, Length, Heads, HeadPlaces, ActAlike;
    ProgramHead(c, s, k);
    ProgramHead(c', s, k);
    HeadsSameInverse(c, c', s, INITIAL, INITIAL, k);
    AlikeExactly(Program(c, s)[HeadPlaces(c, s, 0)[k]], Program(c', s)[HeadPlaces(c', s, 0)[k]]);
  }

  /** The heads are the same if and only if every straight-line instruction, loop end, BREAK and CONTINUE of the one
      finished program does, for every flag, what its counterpart in the other does. */
  lemma HeadsExact(c: Config, c': Config, s: Stmt)
    requires !c.PatchesBreaks() && !c'.PatchesBreaks()
    ensures Heads(c, s, INITIAL) == Heads(c', s, INITIAL)
            <==> forall k :: 0 <= k < HeadCount(s) ==> HeadAlike(c, c', s, k)
  {
    hide Heads, HeadAlike;
    forall k | 0 <= k < HeadCount(s)
      ensures HeadAlike(c, c', s, k) <==> Heads(c, s, INITIAL)[k] == Heads(c', s, INITIAL)[k]
    {
      HeadAlikeExactly(c, c', s, k);
    }
  }

  // ---- one block ----

  /** Behind a block that one generation ends with an ENDIF and the other does not, whose branches leave the
      same state, the states are the same if and only if no conditional modifier is pending at its end. */
  lemma BlockEndsAgree(c: Config, c': Config, s: Stmt, cur: State)
    requires c.AddsToIp() != c'.AddsToIp() && (s.If? || s.IfElse?)
    requires var p := Place(s, cur, 0, None, 0); BlockEnd(c, p) == BlockEnd(c', p)
    ensures After(c, s, cur) == After(c', s, cur) <==> !BlockEnd(c, Place(s, cur, 0, None, 0)).conditionalMod
  {
  }
}
