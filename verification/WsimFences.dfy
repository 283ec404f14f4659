/** Which steps of a workload emit fences, what the parser lets through, and the fence values through
    an iteration. */
module WsimFences {
  import opened Options

  /** deps are the relative fence dependencies of a batch; sync says that its completion is waited for
      at once. */
  datatype Step =
    | Batch(engine: nat, deps: seq<int>, sync: bool)
    | SwFence
    | SwFenceSignal(target: int)
    | QdThrottle(limit: int)
    | Other

  /** A fence dependency of step i: on an earlier batch or software fence. */
  predicate GoodDep(steps: seq<Step>, i: int, dep: int) {
    0 <= i + dep < i <= |steps| && (steps[i + dep].Batch? || steps[i + dep].SwFence?)
  }

  predicate GoodStep(steps: seq<Step>, i: int)
    requires 0 <= i < |steps|
  {
    match steps[i]
    case Batch(_, deps, _) => forall j :: 0 <= j < |deps| ==> GoodDep(steps, i, deps[j])
    case SwFenceSignal(target) => 0 <= i + target < i && steps[i + target].SwFence?
    case _ => true
  }

  /** What the parser accepts, as far as fences go. */
  predicate Accepted(steps: seq<Step>) {
    forall i :: 0 <= i < |steps| ==> GoodStep(steps, i)
  }

  /** Step t is a fence dependency of step i. */
  predicate Targets(steps: seq<Step>, i: nat, t: int)
    requires i < |steps|
  {
    steps[i].Batch? && exists j :: 0 <= j < |steps[i].deps| && i + steps[i].deps[j] == t
  }

  /** Some step before step n depends on the fence of step t. */
  predicate Tagged(steps: seq<Step>, t: int, n: nat)
    requires n <= |steps|
  {
    exists i :: 0 <= i < n && Targets(steps, i, t)
  }

  /** The fence fields before an iteration: -1 where a fence is to be emitted. */
  function Tags(steps: seq<Step>): (r: seq<int>)
    ensures |r| == |steps|
  {
    seq(|steps|, t requires 0 <= t < |steps| => if Tagged(steps, t, |steps|) then -1 else 0)
  }

  /** Tags the fence dependencies, checking them first; then checks the signals' targets. */
  method Tag(steps: seq<Step>) returns (emit: array<int>, ok: bool)
    ensures fresh(emit) && emit.Length == |steps|
    ensures ok <==> Accepted(steps)
    ensures ok ==> emit[..] == Tags(steps)
  {
    emit := new int[|steps|](_ => 0);
    for i := 0 to |steps|
      invariant forall k :: 0 <= k < i && steps[k].Batch? ==> GoodStep(steps, k)
      invariant forall t :: 0 <= t < |steps| ==> emit[t] == if Tagged(steps, t, i) then -1 else 0
    {
      if steps[i].Batch? {
        ok := TagDeps(steps, i, emit);
        if !ok {
          return;
        }
      }
      forall t | 0 <= t < |steps|
        ensures Tagged(steps, t, i + 1) <==> Tagged(steps, t, i) || Targets(steps, i, t)
      {
      }
    }
    for i := 0 to |steps|
      invariant forall k :: 0 <= k < |steps| && (k < i || steps[k].Batch?) ==> GoodStep(steps, k)
    {
      if steps[i].SwFenceSignal? {
        var target := i + steps[i].target;
        if target < 0 || target >= i || !steps[target].SwFence? {
          ok := false;
          assert !GoodStep(steps, i);
          return;
        }
      }
    }
    ok := true;
  }

  method TagDeps(steps: seq<Step>, i: nat, emit: array<int>) returns (ok: bool)
    requires i < |steps| == emit.Length && steps[i].Batch?
    modifies emit
    ensures ok <==> GoodStep(steps, i)
    ensures ok ==> forall t :: 0 <= t < |steps| ==> emit[t] == if Targets(steps, i, t) then -1 else old(emit[t])
  {
    var deps := steps[i].deps;
    for j := 0 to |deps|
      invariant forall k :: 0 <= k < j ==> GoodDep(steps, i, deps[k])
      invariant forall t :: 0 <= t < |steps| ==>
                  emit[t] == if exists k :: 0 <= k < j && i + deps[k] == t then -1 else old(emit[t])
    {
      var target := i + deps[j];
      if target < 0 || target >= i || !(steps[target].Batch? || steps[target].SwFence?) {
        assert !GoodDep(steps, i, deps[j]);
        return false;
      }
      emit[target] := -1;
    }
    ok := true;
  }

  // ---- the fences through an iteration ----

  /** Executing step w with the assertions on fences and signals; fd is the descriptor the kernel gives out.  None
      if an assertion fails. */
  function FenceStep(steps: seq<Step>, emit: seq<int>, w: nat, fd: int): (r: Option<seq<int>>)
    requires w < |steps| == |emit|
    ensures r.Some? ==> |r.value| == |emit|
  {
    match steps[w]
    case Batch(_, deps, _) =>
      if emit[w] > 0 then None
      else if exists j :: 0 <= j < |deps| && !(0 <= w + deps[j] < w && emit[w + deps[j]] > 0) then None
      else Some(if emit[w] != 0 then emit[w := fd] else emit)
    case SwFence => if emit[w] < 0 then Some(emit[w := fd]) else None
    case SwFenceSignal(target) => if 0 <= w + target < w && steps[w + target].SwFence? then Some(emit) else None
    case _ => Some(emit)
  }

  /** The steps from step w to the end of the iteration. */
  function FenceRun(steps: seq<Step>, emit: seq<int>, w: nat, fds: nat -> int): (r: Option<seq<int>>)
    requires w <= |steps| == |emit|
    ensures r.Some? ==> |r.value| == |emit|
    decreases |steps| - w
  {
    if w == |steps| then Some(emit)
    else
      var r := FenceStep(steps, emit, w, fds(w));
      if r.None? then None else FenceRun(steps, r.value, w + 1, fds)
  }

  /** Before step w: tagged steps hold a fence from their execution on, and are at -1 until then. */
  ghost predicate Held(steps: seq<Step>, emit: seq<int>, w: nat) {
    && |emit| == |steps|
    && forall t :: 0 <= t < |steps| ==>
         if !Tagged(steps, t, |steps|) then emit[t] == 0 else if t < w then emit[t] > 0 else emit[t] == -1
  }

  predicate FenceUsed(steps: seq<Step>, w: int)
    requires 0 <= w < |steps|
  {
    steps[w].SwFence? ==> Tagged(steps, w, |steps|)
  }

  /** Every software fence is some step's fence dependency. */
  predicate FencesUsed(steps: seq<Step>) {
    forall w :: 0 <= w < |steps| ==> FenceUsed(steps, w)
  }

  lemma HeldAtStart(steps: seq<Step>, emit: seq<int>)
    requires |emit| == |steps|
    ensures Held(steps, emit, 0) <==> emit == Tags(steps)
  {
  }

  lemma TaggedEmits(steps: seq<Step>, w: nat)
    requires Accepted(steps) && w < |steps| && Tagged(steps, w, |steps|)
    ensures steps[w].Batch? || steps[w].SwFence?
  {
    var i :| 0 <= i < |steps| && Targets(steps, i, w);
    var j :| 0 <= j < |steps[i].deps| && i + steps[i].deps[j] == w;
    assert GoodStep(steps, i) && GoodDep(steps, i, steps[i].deps[j]);
  }

  /** A step passes its assertions, unless it is a software fence nobody depends on. */
  lemma StepHolds(steps: seq<Step>, emit: seq<int>, w: nat, fd: int)
    requires Accepted(steps) && Held(steps, emit, w) && w < |steps| && fd > 0
    ensures FenceStep(steps, emit, w, fd).Some? <==> FenceUsed(steps, w)
    ensures FenceUsed(steps, w) ==> Held(steps, FenceStep(steps, emit, w, fd).value, w + 1)
  {
    if Tagged(steps, w, |steps|) {
      TaggedEmits(steps, w);
    }
    assert GoodStep(steps, w);
    if steps[w].Batch? {
      forall j | 0 <= j < |steps[w].deps|
        ensures 0 <= w + steps[w].deps[j] < w && emit[w + steps[w].deps[j]] > 0
      {
        assert GoodDep(steps, w, steps[w].deps[j]);
        assert Targets(steps, w, w + steps[w].deps[j]);
      }
    }
  }

  /** In an accepted workload the assertions on fences hold throughout an iteration if and only if every
      software fence is some step's dependency; every tagged step then holds a fence at the end. */
  lemma {:induction false} IterationHolds(steps: seq<Step>, emit: seq<int>, w: nat, fds: nat -> int)
    requires Accepted(steps) && w <= |steps| && Held(steps, emit, w) && forall k :: fds(k) > 0
    requires forall k :: 0 <= k < w ==> FenceUsed(steps, k)
    ensures FenceRun(steps, emit, w, fds).Some? <==> FencesUsed(steps)
    ensures FencesUsed(steps) ==> Held(steps, FenceRun(steps, emit, w, fds).value, |steps|)
    decreases |steps| - w
  {
    hide FenceStep, Held, FenceUsed;
    if w < |steps| {
      KeepsLength(steps, emit, w);
      StepHolds(steps, emit, w, fds(w));
      if FenceUsed(steps, w) {
        IterationHolds(steps, FenceStep(steps, emit, w, fds(w)).value, w + 1, fds);
      }
    }
  }

  /** Before step w of an iteration, whatever has been let through: fences are held by batches and software
      fences in front of w only, and nothing has changed from w on. */
  ghost predicate Untouched(steps: seq<Step>, emit: seq<int>, w: nat) {
    && |emit| == |steps|
    && forall t :: 0 <= t < |steps| ==>
         if t < w then emit[t] > 0 ==> steps[t].Batch? || steps[t].SwFence? else emit[t] == Tags(steps)[t]
  }

  lemma {:induction false} PassingIsGood(steps: seq<Step>, emit: seq<int>, w: nat, fds: nat -> int)
    requires w <= |steps| && Untouched(steps, emit, w) && FenceRun(steps, emit, w, fds).Some?
    ensures forall i :: w <= i < |steps| ==> GoodStep(steps, i) && FenceUsed(steps, i)
    decreases |steps| - w
  {
    hide Tagged, Targets;
    if w < |steps| {
      PassingIsGood(steps, FenceStep(steps, emit, w, fds(w)).value, w + 1, fds);
      if steps[w].Batch? {
        forall j | 0 <= j < |steps[w].deps| ensures GoodDep(steps, w, steps[w].deps[j]) {
          assert 0 <= w + steps[w].deps[j] < w && emit[w + steps[w].deps[j]] > 0;
        }
      }
    }
  }

  /** The parser rejects just what would fail: a workload is accepted and all of its software fences are used
      if and only if an iteration from the tags passes all assertions on fences and signals. */
  lemma AcceptedIfPassing(steps: seq<Step>, fds: nat -> int)
    requires forall k :: fds(k) > 0
    ensures Accepted(steps) && FencesUsed(steps) <==> FenceRun(steps, Tags(steps), 0, fds).Some?
  {
    hide FenceRun, GoodStep, FenceUsed, Tags;
    if FenceRun(steps, Tags(steps), 0, fds).Some? {
      PassingIsGood(steps, Tags(steps), 0, fds);
    }
    if Accepted(steps) {
      HeldAtStart(steps, Tags(steps));
      IterationHolds(steps, Tags(steps), 0, fds);
    }
  }

  /** The workload of a single software fence is accepted, but its assertion fails. */
  lemma UnusedFenceFails(fds: nat -> int)
    ensures Accepted([SwFence]) && FenceRun([SwFence], Tags([SwFence]), 0, fds) == None
  {
    assert !Tagged([SwFence], 0, 1);
  }

  lemma KeepsLength(steps: seq<Step>, emit: seq<int>, w: nat)
    requires Held(steps, emit, w)
    ensures |emit| == |steps|
  {
  }

  /** Closing the fences brings back the tags. */
  lemma CleanedUp(steps: seq<Step>, emit: seq<int>)
    requires Held(steps, emit, |steps|)
    ensures seq(|emit|, t requires 0 <= t < |emit| => if emit[t] > 0 then -1 else emit[t]) == Tags(steps)
  {
  }
}
