/** The workload interpreter: fences, request queues and the queue-depth throttle over all iterations,
    with another thread free to stop the workload at any time. */
module Wsim {
  import opened Options
  import opened WsimFences
  import opened WsimQueues
  import opened WsimLedger

  const NUM_ENGINES := 7

  class Workload {
    const steps: seq<Step>
    /** The fence descriptor the kernel gives out for a step in an iteration. */
    const fds: (nat, nat) -> int
    const emitFence: array<int>
    const request: array<int>
    const queues: array<seq<nat>>
    const nrequest: array<int>
    var run: bool
    var qdThrottle: int
    var submissions: seq<nat>
    var waits: seq<nat>

    ghost predicate Valid()
      reads this, emitFence, request, queues, nrequest
    {
      && emitFence != request && emitFence != nrequest && request != nrequest
      && emitFence.Length == request.Length == |steps| && queues.Length == nrequest.Length == NUM_ENGINES
      && EnginesFit(steps, NUM_ENGINES)
      && (forall i, w :: fds(i, w) > 0)
      && (forall e :: 0 <= e < NUM_ENGINES ==> nrequest[e] == |queues[e]|)
      && QueuesFit(queues[..], request[..], submissions)
    }

    /** The books as they stand. */
    ghost function Now(): (l: Ledger)
      reads this, queues
      requires queues.Length == NUM_ENGINES
      ensures |l.queues| == NUM_ENGINES
    {
      Ledger(queues[..], qdThrottle, submissions, waits)
    }

    /** A workload that the parser has accepted; nothing has been submitted. */
    constructor (steps: seq<Step>, emit: array<int>, fds: (nat, nat) -> int)
      requires emit.Length == |steps| && emit[..] == Tags(steps)
      requires EnginesFit(steps, NUM_ENGINES)
      requires forall i, w :: fds(i, w) > 0
      ensures Valid() && run && submissions == [] && waits == [] && queues.Length == 7
      ensures this.steps == steps && emitFence == emit && fresh(request) && fresh(queues) && fresh(nrequest)
      ensures Held(steps, emitFence[..], 0)
    {
      this.steps, this.fds, emitFence := steps, fds, emit;
      request := new int[|steps|](_ => -1);
      queues := new seq<nat>[NUM_ENGINES](_ => []);
      nrequest := new int[NUM_ENGINES](_ => 0);
      run, qdThrottle, submissions, waits := true, -1, [], [];
    }

    /** Looks at the run flag; another thread may have cleared it. */
    method StillRuns() returns (r: bool)
      modifies this`run
      ensures r == run && (run ==> old(run))
    {
      if * {
        run := false;
      }
      r := run;
    }

    /** Moves a step to the end of its engine's queue. */
    method Enqueue(w: nat, e: nat)
      requires Valid() && w < |steps| && e < NUM_ENGINES
      modifies this`submissions, request, queues, nrequest
      ensures Valid() && -1 <= old(request[w]) < NUM_ENGINES
      ensures queues[..] == Requeued(old(queues[..]), old(request[w]), w, e)
      ensures request[..] == old(request[..])[w := e] && submissions == old(submissions) + [w]
    {
      hide QueuesFit, Ordered, LastAt, Without;
      RequestInRange(queues[..], request[..], submissions, w);
      RequeuedFit(queues[..], request[..], submissions, w, e);
      WithoutLength(queues[..], request[..], submissions, w);
      if request[w] != -1 {
        queues[request[w]] := Without(queues[request[w]], w);
        nrequest[request[w]] := nrequest[request[w]] - 1;
      }
      request[w] := e;
      queues[e] := queues[e] + [w];
      nrequest[e] := nrequest[e] + 1;
      submissions := submissions + [w];
    }

    /** Waits for the oldest requests of an engine until no more than the limit are left. */
    method Drain(e: nat)
      requires Valid() && e < NUM_ENGINES && qdThrottle > 0
      modifies this`waits, request, queues, nrequest
      ensures Valid()
      ensures queues[..] == old(queues[..])[e := Drained(old(queues[e]), qdThrottle)]
      ensures waits == old(waits) + old(queues[e])[..old(|queues[e]|) - |queues[e]|]
    {
      hide QueuesFit, LastAt;
      ghost var q, i := queues[e], 0;
      while nrequest[e] > qdThrottle
        invariant Valid() && 0 <= i <= |q| && queues[e] == q[i..] && (i > 0 ==> |q| - i >= qdThrottle)
        invariant queues[..] == old(queues[..])[e := q[i..]]
        invariant waits == old(waits) + q[..i]
        decreases |queues[e]|
      {
        HeadInRange(queues[..], request[..], submissions, e);
        PoppedFit(queues[..], request[..], submissions, e);
        var s := queues[e][0];
        waits := waits + [s];
        request[s] := -1;
        queues[e] := queues[e][1..];
        nrequest[e] := nrequest[e] - 1;
        i := i + 1;
      }
    }

    /** Whether the steps are accepted and every software fence is used; fixed at parse time. */
    ghost predicate FencesOk() {
      Accepted(steps) && FencesUsed(steps)
    }

    /** The fence part of a batch: the assertions on its own fence and its dependencies, and its new
        fence if it is to emit one. */
    method Execute(w: nat, iteration: nat)
      requires Valid() && FencesOk() && w < |steps| && steps[w].Batch? && Held(steps, emitFence[..], w)
      modifies emitFence
      ensures Valid() && Held(steps, emitFence[..], w + 1)
      ensures FenceStep(steps, old(emitFence[..]), w, fds(iteration, w)) == Some(emitFence[..])
    {
      hide QueuesFit, Held, FenceUsed;
      ghost var emit := emitFence[..];
      assert FenceUsed(steps, w);
      StepHolds(steps, emit, w, fds(iteration, w));
      assert emitFence[w] == emit[w] && emitFence[w] <= 0;
      var fenceOut := emitFence[w] != 0;
      var deps := steps[w].deps;
      for j := 0 to |deps| {
        var target := w + deps[j];
        assert 0 <= target < w && emitFence[target] == emit[target] && emitFence[target] > 0;
      }
      if fenceOut {
        emitFence[w] := fds(iteration, w);
        assert emitFence[w] > 0;
        assert emitFence[..] == emit[w := fds(iteration, w)];
      }
    }

    /** A batch; says whether it got as far as the throttle check. */
    method DoBatch(w: nat, iteration: nat) returns (checked: bool)
      requires Valid() && FencesOk() && w < |steps| && steps[w].Batch? && Held(steps, emitFence[..], w)
      modifies this`run, this`submissions, this`waits, emitFence, request, queues, nrequest
      ensures Valid() && (run ==> old(run)) && (!checked ==> !run) && Held(steps, emitFence[..], w + 1)
      ensures submissions == old(submissions) + [w] && -1 <= old(request[w]) < NUM_ENGINES
      ensures var e, moved := steps[w].engine, Requeued(old(queues[..]), old(request[w]), w, steps[w].engine);
              && |queues[e]| <= |moved[e]|
              && queues[..] == (if checked && qdThrottle > 0 then moved[e := Drained(moved[e], qdThrottle)] else moved)
              && waits == old(waits) + (if checked && steps[w].sync then [w] else [])
                          + moved[e][..|moved[e]| - |queues[e]|]
      ensures checked && qdThrottle > 0 ==> |queues[steps[w].engine]| <= qdThrottle
      ensures Now() == if checked then Next(steps[w], w, old(Now())) else Submitted(old(Now()), w, steps[w].engine)
    {
      hide QueuesFit, Held, FenceStep, Tagged, Requeued, Moved, Drained, Next;
      var e := steps[w].engine;
      ghost var was := Now();
      RequestInRange(queues[..], request[..], submissions, w);
      RequeuedIsMoved(queues[..], request[..], submissions, w, e);
      Execute(w, iteration);
      Enqueue(w, e);
      ghost var moved := queues[..];
      checked := StillRuns();
      if !checked {
        return;
      }
      if steps[w].sync {
        waits := waits + [w];
      }
      if qdThrottle > 0 {
        Drain(e);
      }
      CheckedBatch(steps[w], w, was, moved, Now());
    }

    /** One iteration of the steps, up to where the workload is stopped. */
    method DoSteps(iteration: nat) returns (ghost n: nat)
      requires Valid() && FencesOk() && Held(steps, emitFence[..], 0)
      modifies this`run, this`qdThrottle, this`submissions, this`waits, emitFence, request, queues, nrequest
      ensures Valid() && (run ==> old(run)) && (run ==> Held(steps, emitFence[..], |steps|))
      ensures StopsAt(steps, old(Now()), n, Now())
      ensures run ==> Now() == After(steps, old(Now()), |steps|)
    {
      hide QueuesFit, Held, FenceUsed, FenceStep, Next, Submitted;
      ghost var was := Now();
      for w := 0 to |steps|
        invariant Valid() && (run ==> old(run)) && Held(steps, emitFence[..], w)
        invariant Now() == After(steps, was, w)
      {
        var still := StillRuns();
        if !still {
          return w;
        }
        OneMore(steps, was, w);
        match steps[w] {
          case Batch(_, _, _) =>
            var checked := DoBatch(w, iteration);
            if !checked {
              return w;
            }
          case SwFence => DoSwFence(w, iteration);
          case QdThrottle(limit) =>
            qdThrottle := limit;
            NoFence(steps, emitFence[..], w);
          case SwFenceSignal(target) =>
            assert GoodStep(steps, w);
            assert 0 <= w + target < w && steps[w + target].SwFence?;
            NoFence(steps, emitFence[..], w);
          case Other => NoFence(steps, emitFence[..], w);
        }
      }
      n := |steps|;
    }

    method DoSwFence(w: nat, iteration: nat)
      requires Valid() && FencesOk() && w < |steps| && steps[w].SwFence? && Held(steps, emitFence[..], w)
      modifies emitFence
      ensures Valid() && Held(steps, emitFence[..], w + 1)
    {
      hide QueuesFit, Held, FenceUsed;
      ghost var emit := emitFence[..];
      assert FenceUsed(steps, w);
      StepHolds(steps, emit, w, fds(iteration, w));
      assert emitFence[w] == emit[w] && emitFence[w] < 0;
      emitFence[w] := fds(iteration, w);
      assert emitFence[w] > 0;
      assert emitFence[..] == emit[w := fds(iteration, w)];
    }

    lemma NoFence(steps: seq<Step>, emit: seq<int>, w: nat)
      requires Accepted(steps) && FencesUsed(steps) && Held(steps, emit, w) && w < |steps|
      requires !steps[w].Batch? && !steps[w].SwFence?
      ensures Held(steps, emit, w + 1)
    {
      hide Held, FenceUsed;
      KeepsLength(steps, emit, w);
      assert FenceUsed(steps, w);
      StepHolds(steps, emit, w, 1);
    }

    /** Closes the fences of the iteration, up to where the workload is stopped. */
    method CleanUp()
      requires Valid() && (run ==> Held(steps, emitFence[..], |steps|))
      modifies this`run, emitFence
      ensures Valid() && (run ==> old(run)) && (run ==> emitFence[..] == Tags(steps))
    {
      hide QueuesFit, Tagged;
      ghost var emit := emitFence[..];
      for w := 0 to |steps|
        invariant Valid() && (run ==> old(run))
        invariant forall t :: 0 <= t < |steps| ==> emitFence[t] == if t < w && emit[t] > 0 then -1 else emit[t]
      {
        var still := StillRuns();
        if !still {
          return;
        }
        if emitFence[w] > 0 {
          emitFence[w] := -1;
        }
      }
      if run {
        CleanedUp(steps, emit);
        assert emitFence[..] == seq(|emit|, t requires 0 <= t < |emit| => if emit[t] > 0 then -1 else emit[t]);
      }
    }

    /** Waits for the last request of every engine that has any. */
    method SyncLasts()
      requires Valid()
      modifies this`waits
      ensures Valid() && Now() == Closed(old(Now()))
    {
      hide QueuesFit;
      ghost var was := waits;
      for e := 0 to NUM_ENGINES
        invariant Valid() && waits == was + Lasts(queues[..], e)
      {
        if nrequest[e] != 0 {
          waits := waits + [queues[e][|queues[e]| - 1]];
        }
      }
    }

    /** The whole run, or any prefix of it of up to bound iterations: a background workload ends only
        when it is stopped.  Before the last requests are waited for the books are at end, behind the given
        number of whole iterations and in front of or in step n of the next. */
    method Run(background: bool, repeat: nat, bound: nat) returns (ghost rounds: nat, ghost n: nat, ghost end: Ledger)
      requires Valid() && FencesOk() && Held(steps, emitFence[..], 0)
      modifies this`run, this`qdThrottle, this`submissions, this`waits, emitFence, request, queues, nrequest
      ensures Valid() && (run ==> emitFence[..] == Tags(steps))
      ensures var start := old(Now()).(throttle := -1);
              && StopsAt(steps, AfterRounds(steps, start, rounds), n, end) && Now() == Closed(end)
              && (run ==> rounds == Limit(background, repeat, bound) && end == AfterRounds(steps, start, rounds))
      ensures submissions <= old(submissions) + Repeated(Batches(steps, |steps|), Limit(background, repeat, bound))
      ensures run ==>
                submissions == old(submissions) + Repeated(Batches(steps, |steps|), Limit(background, repeat, bound))
    {
      hide QueuesFit, Held, After, Batches, AfterRounds, StopsAt, Tagged, Repeated;
      qdThrottle := -1;
      ghost var start, limit := Now(), Limit(background, repeat, bound);
      var count := 0;
      rounds, n := 0, 0;
      RoundsStep(steps, start, 0);
      var still := StillRuns();
      HeldAtStart(steps, emitFence[..]);
      while still && (background || count < repeat) && count < bound
        invariant Valid() && (run ==> emitFence[..] == Tags(steps)) && (still ==> emitFence[..] == Tags(steps))
        invariant count <= limit && (run ==> still)
        invariant rounds <= count && StopsAt(steps, AfterRounds(steps, start, rounds), n, Now())
        invariant rounds == limit ==> Now() == AfterRounds(steps, start, rounds)
        invariant still ==> rounds == count && Now() == AfterRounds(steps, start, rounds)
        decreases bound - count
      {
        HeldAtStart(steps, emitFence[..]);
        n := DoSteps(count);
        if run {
          RoundsStep(steps, start, rounds);
          rounds, n := rounds + 1, 0;
          RoundsStep(steps, start, rounds);
        }
        CleanUp();
        count := count + 1;
        still := StillRuns();
      }
      end := Now();
      RunSubmits(steps, start, rounds, n, end, limit);
      RoundsSubmit(steps, start, limit);
      SyncLasts();
    }
  }

  /** The iterations of a workload that is not stopped. */
  function Limit(background: bool, repeat: nat, bound: nat): nat {
    if background || bound < repeat then bound else repeat
  }

  lemma OneMore(steps: seq<Step>, l: Ledger, w: nat)
    requires w < |steps| && EnginesFit(steps, |l.queues|)
    ensures After(steps, l, w + 1) == Next(steps[w], w, After(steps, l, w))
    ensures steps[w].QdThrottle? ==> Next(steps[w], w, After(steps, l, w)) ==
                                     After(steps, l, w).(throttle := steps[w].limit)
    ensures !steps[w].QdThrottle? && !steps[w].Batch? ==> Next(steps[w], w, After(steps, l, w)) == After(steps, l, w)
  {
  }

  lemma RequestInRange(queues: seq<seq<nat>>, request: seq<int>, log: seq<nat>, w: nat)
    requires QueuesFit(queues, request, log) && w < |request|
    ensures -1 <= request[w] < |queues|
  {
  }

  lemma HeadInRange(queues: seq<seq<nat>>, request: seq<int>, log: seq<nat>, e: nat)
    requires QueuesFit(queues, request, log) && e < |queues| && queues[e] != []
    ensures queues[e][0] < |request|
  {
  }

  lemma WithoutLength(queues: seq<seq<nat>>, request: seq<int>, log: seq<nat>, w: nat)
    requires QueuesFit(queues, request, log) && w < |request|
    ensures request[w] == -1 || (0 <= request[w] < |queues| &&
              |Without(queues[request[w]], w)| == |queues[request[w]]| - 1)
  {
    hide LastAt;
    if request[w] != -1 {
      WithoutKeeps(log, queues[request[w]], w);
    }
  }
}
