/** What a workload submits and waits for, step by step: the books that the interpreter keeps, as functions
    of the steps, and what they say over a whole run. */
module WsimLedger {
  import opened WsimFences
  import opened WsimQueues

  /** The requests queued on each engine, the queue-depth throttle in force, all submissions and all waits. */
  datatype Ledger = Ledger(queues: seq<seq<nat>>, throttle: int, submissions: seq<nat>, waits: seq<nat>)

  /** Step w leaves the queue it is in and goes to the end of queue e. */
  function Moved(queues: seq<seq<nat>>, w: nat, e: nat): (r: seq<seq<nat>>)
    ensures |r| == |queues|
  {
    seq(|queues|, d requires 0 <= d < |queues| => Without(queues[d], w) + if d == e then [w] else [])
  }

  /** A batch that has been submitted, but not come to the throttle check. */
  function Submitted(l: Ledger, w: nat, e: nat): Ledger {
    l.(queues := Moved(l.queues, w, e), submissions := l.submissions + [w])
  }

  /** The requests beyond the throttle. */
  function Excess(throttle: int, q: seq<nat>): (d: nat)
    ensures d <= |q|
  {
    if 0 < throttle < |q| then |q| - throttle else 0
  }

  predicate EnginesFit(steps: seq<Step>, engines: nat) {
    forall w :: 0 <= w < |steps| && steps[w].Batch? ==> steps[w].engine < engines
  }

  /** The ledger when step w has been done. */
  function Next(step: Step, w: nat, l: Ledger): (r: Ledger)
    requires step.Batch? ==> step.engine < |l.queues|
    ensures |r.queues| == |l.queues|
  {
    match step
    case Batch(e, _, sync) =>
      var s := Submitted(l, w, e);
      var d := Excess(l.throttle, s.queues[e]);
      s.(queues := s.queues[e := s.queues[e][d..]],
         waits := l.waits + (if sync then [w] else []) + s.queues[e][..d])
    case QdThrottle(limit) => l.(throttle := limit)
    case _ => l
  }

  /** The ledger when the first n steps have been done. */
  function After(steps: seq<Step>, l: Ledger, n: nat): (r: Ledger)
    requires n <= |steps| && EnginesFit(steps, |l.queues|)
    ensures |r.queues| == |l.queues|
  {
    if n == 0 then l else Next(steps[n - 1], n - 1, After(steps, l, n - 1))
  }

  lemma AfterStep(steps: seq<Step>, l: Ledger, w: nat)
    requires w < |steps| && EnginesFit(steps, |l.queues|)
    ensures After(steps, l, w + 1) == Next(steps[w], w, After(steps, l, w))
  {
  }

  /** The ledger when r iterations have been done. */
  function AfterRounds(steps: seq<Step>, l: Ledger, r: nat): (t: Ledger)
    requires EnginesFit(steps, |l.queues|)
    ensures |t.queues| == |l.queues|
  {
    if r == 0 then l else After(steps, AfterRounds(steps, l, r - 1), |steps|)
  }

  /** Where an iteration may be stopped: in front of step n, or behind the submission of a batch. */
  ghost predicate StopsAt(steps: seq<Step>, l: Ledger, n: nat, t: Ledger)
    requires EnginesFit(steps, |l.queues|)
  {
    n <= |steps| &&
    (|| t == After(steps, l, n)
     || (n < |steps| && steps[n].Batch? && t == Submitted(After(steps, l, n), n, steps[n].engine)))
  }

  lemma RoundsStep(steps: seq<Step>, l: Ledger, r: nat)
    requires EnginesFit(steps, |l.queues|)
    ensures AfterRounds(steps, l, 0) == l
    ensures AfterRounds(steps, l, r + 1) == After(steps, AfterRounds(steps, l, r), |steps|)
    ensures StopsAt(steps, AfterRounds(steps, l, r), 0, AfterRounds(steps, l, r))
  {
  }

  // ---- submissions ----

  /** The batches among the first n steps, in order. */
  function Batches(steps: seq<Step>, n: nat): seq<nat>
    requires n <= |steps|
  {
    if n == 0 then [] else Batches(steps, n - 1) + if steps[n - 1].Batch? then [n - 1] else []
  }

  lemma OneBatchMore(steps: seq<Step>, n: nat)
    requires n < |steps| && steps[n].Batch?
    ensures Batches(steps, n + 1) == Batches(steps, n) + [n]
  {
  }

  lemma {:induction false} BatchesExact(steps: seq<Step>, n: nat)
    requires n <= |steps|
    ensures forall a, b :: 0 <= a < b < |Batches(steps, n)| ==> Batches(steps, n)[a] < Batches(steps, n)[b]
    ensures forall k: nat :: k in Batches(steps, n) <==> k < n && steps[k].Batch?
  {
    if n > 0 {
      BatchesExact(steps, n - 1);
      var b := Batches(steps, n - 1);
      forall a | 0 <= a < |b| ensures b[a] < n - 1 {
        assert b[a] in b;
      }
    }
  }

  lemma {:induction false} AfterSubmits(steps: seq<Step>, l: Ledger, n: nat)
    requires n <= |steps| && EnginesFit(steps, |l.queues|)
    ensures After(steps, l, n).submissions == l.submissions + Batches(steps, n)
  {
    hide Excess, Moved;
    if n > 0 {
      AfterSubmits(steps, l, n - 1);
    }
  }

  /** An iteration submits exactly its batches, each once and in order. */
  lemma SubmitsBatchesInOrder(steps: seq<Step>, l: Ledger)
    requires EnginesFit(steps, |l.queues|)
    ensures var all := After(steps, l, |steps|).submissions;
            && l.submissions <= all
            && var new_ := all[|l.submissions|..];
               && (forall a, b :: 0 <= a < b < |new_| ==> new_[a] < new_[b])
               && (forall k: nat :: k in new_ <==> k < |steps| && steps[k].Batch?)
  {
    AfterSubmits(steps, l, |steps|);
    BatchesExact(steps, |steps|);
    assert (l.submissions + Batches(steps, |steps|))[|l.submissions|..] == Batches(steps, |steps|);
  }

  function Repeated<T>(s: seq<T>, r: nat): seq<T> {
    if r == 0 then [] else Repeated(s, r - 1) + s
  }

  lemma {:induction false} RoundsSubmit(steps: seq<Step>, l: Ledger, r: nat)
    requires EnginesFit(steps, |l.queues|)
    ensures AfterRounds(steps, l, r).submissions == l.submissions + Repeated(Batches(steps, |steps|), r)
  {
    hide After, Batches;
    if r > 0 {
      RoundsSubmit(steps, l, r - 1);
      AfterSubmits(steps, AfterRounds(steps, l, r - 1), |steps|);
    }
  }

  lemma {:induction false} BatchesGrow(steps: seq<Step>, m: nat, n: nat)
    requires m <= n <= |steps|
    ensures Batches(steps, m) <= Batches(steps, n)
  {
    if m < n {
      BatchesGrow(steps, m, n - 1);
    }
  }

  lemma PrefixBehind<T>(a: seq<T>, b: seq<T>, c: seq<T>)
    requires b <= c
    ensures a + b <= a + c
  {
  }

  /** An iteration that is stopped has submitted the first of its batches. */
  lemma StoppedSubmits(steps: seq<Step>, l: Ledger, n: nat, t: Ledger)
    requires EnginesFit(steps, |l.queues|) && StopsAt(steps, l, n, t)
    ensures t.submissions <= l.submissions + Batches(steps, |steps|)
  {
    hide After, Moved, Batches, EnginesFit;
    AfterSubmits(steps, l, n);
    if t == After(steps, l, n) {
      BatchesGrow(steps, n, |steps|);
      PrefixBehind(l.submissions, Batches(steps, n), Batches(steps, |steps|));
    } else {
      OneBatchMore(steps, n);
      assert l.submissions + Batches(steps, n) + [n] == l.submissions + Batches(steps, n + 1);
      BatchesGrow(steps, n + 1, |steps|);
      PrefixBehind(l.submissions, Batches(steps, n + 1), Batches(steps, |steps|));
    }
  }

  lemma {:induction false} RepeatedGrow<T>(s: seq<T>, a: nat, b: nat)
    requires a <= b
    ensures Repeated(s, a) <= Repeated(s, b)
  {
    if a < b {
      RepeatedGrow(s, a, b - 1);
    }
  }

  /** Wherever a run of up to limit iterations is stopped, what it has submitted are the first of these. */
  lemma RunSubmits(steps: seq<Step>, l: Ledger, r: nat, n: nat, t: Ledger, limit: nat)
    requires EnginesFit(steps, |l.queues|) && StopsAt(steps, AfterRounds(steps, l, r), n, t)
    requires r <= limit && (r == limit ==> t == AfterRounds(steps, l, r))
    ensures t.submissions <= l.submissions + Repeated(Batches(steps, |steps|), limit)
  {
    hide AfterRounds, StopsAt, Batches;
    var b := Batches(steps, |steps|);
    RoundsSubmit(steps, l, r);
    RepeatedGrow(b, r, limit);
    if r < limit {
      StoppedSubmits(steps, AfterRounds(steps, l, r), n, t);
      RepeatedGrow(b, r + 1, limit);
      PrefixOfNext(l.submissions, Repeated(b, r), b, t.submissions, Repeated(b, limit));
    }
  }

  lemma PrefixOfNext<T>(a: seq<T>, b: seq<T>, c: seq<T>, x: seq<T>, y: seq<T>)
    requires x <= a + b + c && b + c <= y
    ensures x <= a + y
  {
    assert a + b + c == a + (b + c);
  }

  // ---- the throttle ----

  /** The throttle in force is the last one set, or the one from before. */
  lemma {:induction false} LastThrottleSet(steps: seq<Step>, l: Ledger, n: nat, k: int)
    requires n <= |steps| && EnginesFit(steps, |l.queues|) && -1 <= k < n
    requires k >= 0 ==> steps[k].QdThrottle?
    requires forall i :: k < i < n ==> !steps[i].QdThrottle?
    ensures After(steps, l, n).throttle == if k >= 0 then steps[k].limit else l.throttle
  {
    hide Excess, Moved;
    if n > 0 && k < n - 1 {
      LastThrottleSet(steps, l, n - 1, k);
    }
  }

  /** What batch w does to the requests: it is the newest on its engine and in no other queue; if the throttle
      in force is positive at most that many are left there, and no more than needed have been waited for,
      the oldest first, behind the batch itself if it is to be waited for at once. */
  lemma BatchThrottled(steps: seq<Step>, l: Ledger, w: nat)
    requires w < |steps| && EnginesFit(steps, |l.queues|) && steps[w].Batch?
    ensures var was, now, e := After(steps, l, w), After(steps, l, w + 1), steps[w].engine;
            && now.submissions == was.submissions + [w] && now.throttle == was.throttle
            && (forall d :: 0 <= d < |l.queues| && d != e ==> now.queues[d] == Without(was.queues[d], w))
            && var own := was.waits + if steps[w].sync then [w] else [];
               && own <= now.waits
               && now.waits[|own|..] + now.queues[e] == Without(was.queues[e], w) + [w]
               && (was.throttle > 0 ==> |now.queues[e]| <= was.throttle)
               && (now.waits != own ==> 0 < was.throttle == |now.queues[e]|)
  {
    hide After;
    var was, e := After(steps, l, w), steps[w].engine;
    AfterStep(steps, l, w);
    var q := Moved(was.queues, w, e)[e];
    var d := Excess(was.throttle, q);
    assert q[..d] + q[d..] == q;
    var own := was.waits + if steps[w].sync then [w] else [];
    assert (own + q[..d])[|own|..] == q[..d];
  }

  /** A batch leaves no more requests on its engine than the last throttle in front of it says. */
  lemma ThrottleLeaves(steps: seq<Step>, l: Ledger, w: nat, k: nat)
    requires k < w < |steps| && EnginesFit(steps, |l.queues|) && steps[w].Batch?
    requires steps[k].QdThrottle? && forall i :: k < i < w ==> !steps[i].QdThrottle?
    ensures steps[k].limit > 0 ==> |After(steps, l, w + 1).queues[steps[w].engine]| <= steps[k].limit
  {
    hide After;
    LastThrottleSet(steps, l, w, k);
    BatchThrottled(steps, l, w);
  }

  /** No other step changes a queue or waits. */
  lemma OthersKeepRequests(steps: seq<Step>, l: Ledger, w: nat)
    requires w < |steps| && EnginesFit(steps, |l.queues|) && !steps[w].Batch?
    ensures var was, now := After(steps, l, w), After(steps, l, w + 1);
            now.queues == was.queues && now.submissions == was.submissions && now.waits == was.waits
  {
    hide Excess, Moved;
  }

  // ---- after the last iteration ----

  /** The last request of each of the first n engines that have any. */
  function Lasts(queues: seq<seq<nat>>, n: nat): seq<nat>
    requires n <= |queues|
  {
    if n == 0 then []
    else Lasts(queues, n - 1) + var q := queues[n - 1]; if q == [] then [] else [q[|q| - 1]]
  }

  /** The ledger when the last requests have been waited for. */
  function Closed(l: Ledger): Ledger {
    l.(waits := l.waits + Lasts(l.queues, |l.queues|))
  }

  lemma {:induction false} LastWaitedFor(queues: seq<seq<nat>>, n: nat, e: nat)
    requires e < n <= |queues| && queues[e] != []
    ensures queues[e][|queues[e]| - 1] in Lasts(queues, n)
  {
    if e < n - 1 {
      LastWaitedFor(queues, n - 1, e);
    }
  }

  /** In the end, no request is later than the one waited for on its engine. */
  lemma NothingLaterThanWaited(l: Ledger, request: seq<int>, i: nat)
    requires QueuesFit(l.queues, request, l.submissions) && i < |request| && 0 <= request[i] < |l.queues|
    ensures var c := Closed(l);
            && l.waits <= c.waits
            && exists x: nat :: x in c.waits[|l.waits|..] && x in l.queues[request[i]]
                                && LastAt(l.submissions, i) <= LastAt(l.submissions, x)
  {
    hide QueuesFit, LastAt;
    var e := request[i];
    LastIsLatest(l.queues, request, l.submissions, e, i);
    LastWaitedFor(l.queues, |l.queues|, e);
    var c := Closed(l);
    assert c.waits[|l.waits|..] == Lasts(l.queues, |l.queues|);
    assert l.queues[e][|l.queues[e]| - 1] in l.queues[e];
  }

  // ---- the books and the queues of the interpreter ----

  lemma {:induction false} WithoutAbsent(q: seq<nat>, w: nat)
    requires w !in q
    ensures Without(q, w) == q
  {
    if q != [] {
      WithoutAbsent(q[1..], w);
    }
  }

  /** Taking a step out of the one queue its request says, is taking it out of all. */
  lemma RequeuedIsMoved(queues: seq<seq<nat>>, request: seq<int>, log: seq<nat>, w: nat, e: nat)
    requires QueuesFit(queues, request, log) && w < |request| && e < |queues| && -1 <= request[w] < |queues|
    ensures Requeued(queues, request[w], w, e) == Moved(queues, w, e)
  {
    hide Ordered, Without;
    var r, m := Requeued(queues, request[w], w, e), Moved(queues, w, e);
    forall d | 0 <= d < |queues| ensures r[d] == m[d] {
      if d != request[w] {
        assert w !in queues[d];
        WithoutAbsent(queues[d], w);
      }
    }
  }

  /** A batch that reaches the check, as the interpreter's queues show it. */
  lemma CheckedBatch(step: Step, w: nat, l: Ledger, moved: seq<seq<nat>>, t: Ledger)
    requires step.Batch? && step.engine < |l.queues| && moved == Moved(l.queues, w, step.engine)
    requires t.throttle == l.throttle && t.submissions == l.submissions + [w]
    requires var e := step.engine;
             && t.queues == (if l.throttle > 0 then moved[e := Drained(moved[e], l.throttle)] else moved)
             && t.waits == l.waits + (if step.sync then [w] else []) + moved[e][..|moved[e]| - |t.queues[e]|]
    ensures t == Next(step, w, l)
  {
    hide Moved;
    var e := step.engine;
    var d := Excess(l.throttle, moved[e]);
    assert t.queues[e] == moved[e][d..];
    assert moved[e := moved[e][0..]] == moved;
  }
}
