/** The request queues of a simulated workload: for every engine the steps submitted to it and not yet
    waited for, the latest submission last. */
module WsimQueues {

  /** When a step was last submitted, going by the log of all submissions; -1 if it never was. */
  function LastAt(log: seq<nat>, i: nat): (r: int)
    ensures -1 <= r < |log|
  {
    if log == [] then -1
    else if log[|log| - 1] == i then |log| - 1
    else LastAt(log[..|log| - 1], i)
  }

  /** The last place in the log that holds the step. */
  lemma {:induction false} LastAtIs(log: seq<nat>, i: nat)
    ensures if i in log then LastAt(log, i) >= 0 && log[LastAt(log, i)] == i else LastAt(log, i) == -1
    ensures forall k :: LastAt(log, i) < k < |log| ==> log[k] != i
  {
    if log != [] && log[|log| - 1] != i {
      LastAtIs(log[..|log| - 1], i);
      assert log == log[..|log| - 1] + [log[|log| - 1]];
    }
  }

  ghost predicate Ordered(log: seq<nat>, q: seq<nat>) {
    && (forall a :: 0 <= a < |q| ==> q[a] in log)
    && forall a, b :: 0 <= a < b < |q| ==> LastAt(log, q[a]) < LastAt(log, q[b])
  }

  /** Queue e holds exactly the steps whose request is e, each once, ordered by latest submission. */
  ghost predicate QueuesFit(queues: seq<seq<nat>>, request: seq<int>, log: seq<nat>) {
    && (forall e, a :: 0 <= e < |queues| && 0 <= a < |queues[e]| ==>
          queues[e][a] < |request| && request[queues[e][a]] == e)
    && (forall i :: 0 <= i < |request| && request[i] != -1 ==>
          0 <= request[i] < |queues| && i in queues[request[i]])
    && (forall e :: 0 <= e < |queues| ==> Ordered(log, queues[e]))
  }

  function Without(q: seq<nat>, w: nat): (r: seq<nat>) {
    if q == [] then [] else if q[0] == w then q[1..] else [q[0]] + Without(q[1..], w)
  }

  lemma {:induction false} WithoutKeeps(log: seq<nat>, q: seq<nat>, w: nat)
    requires Ordered(log, q)
    ensures Ordered(log, Without(q, w))
    ensures forall x :: x in Without(q, w) <==> x in q && x != w
    ensures |Without(q, w)| == |q| - if w in q then 1 else 0
  {
    hide LastAt;
    if q != [] {
      var t := q[1..];
      assert q == [q[0]] + t;
      assert Ordered(log, t);
      forall x | x in t
        ensures x != q[0] && LastAt(log, q[0]) < LastAt(log, x)
      {
        var a :| 0 <= a < |t| && t[a] == x;
        assert q[a + 1] == x;
      }
      if q[0] != w {
        WithoutKeeps(log, t, w);
        assert forall a :: 0 <= a < |Without(t, w)| ==> Without(t, w)[a] in t;
        OrderedCons(log, q[0], Without(t, w));
      }
    }
  }

  lemma OrderedCons(log: seq<nat>, x: nat, r: seq<nat>)
    requires Ordered(log, r) && x in log && forall a :: 0 <= a < |r| ==> LastAt(log, x) < LastAt(log, r[a])
    ensures Ordered(log, [x] + r)
  {
    hide LastAt;
    var s := [x] + r;
    forall a | 0 <= a < |s|
      ensures s[a] in log
    {
      assert s[a] == if a == 0 then x else r[a - 1];
    }
    forall a, b | 0 <= a < b < |s|
      ensures LastAt(log, s[a]) < LastAt(log, s[b])
    {
      assert s[b] == r[b - 1];
      if a > 0 {
        assert s[a] == r[a - 1];
      }
    }
  }

  /** A submission makes a step the latest, and leaves the order of the others. */
  lemma SubmittedLast(log: seq<nat>, w: nat, x: nat)
    ensures LastAt(log + [w], x) == if x == w then |log| else LastAt(log, x)
  {
    assert (log + [w])[..|log|] == log;
  }

  lemma OrderedAppend(log: seq<nat>, q: seq<nat>, w: nat)
    requires Ordered(log, q) && w !in q
    ensures Ordered(log + [w], q) && Ordered(log + [w], q + [w])
  {
    hide LastAt;
    var r := q + [w];
    forall a | 0 <= a < |q|
      ensures LastAt(log + [w], q[a]) == LastAt(log, q[a]) < |log|
    {
      SubmittedLast(log, w, q[a]);
      LastBound(log, q[a]);
    }
    SubmittedLast(log, w, w);
  }

  lemma LastBound(log: seq<nat>, x: nat)
    ensures LastAt(log, x) < |log|
  {
  }

  /** Step w moves to the end of queue e. */
  function Requeued(queues: seq<seq<nat>>, request: int, w: nat, e: nat): seq<seq<nat>>
    requires e < |queues| && -1 <= request < |queues|
  {
    var out := if request == -1 then queues else queues[request := Without(queues[request], w)];
    out[e := out[e] + [w]]
  }

  lemma RequeuedFit(queues: seq<seq<nat>>, request: seq<int>, log: seq<nat>, w: nat, e: nat)
    requires QueuesFit(queues, request, log) && w < |request| && e < |queues| && -1 <= request[w] < |queues|
    ensures QueuesFit(Requeued(queues, request[w], w, e), request[w := e], log + [w])
  {
    hide LastAt;
    var out := if request[w] == -1 then queues else queues[request[w] := Without(queues[request[w]], w)];
    forall d | 0 <= d < |queues|
      ensures Ordered(log, out[d]) && forall x :: x in out[d] <==> x in queues[d] && x != w
    {
      if d == request[w] {
        WithoutKeeps(log, queues[d], w);
      } else {
        assert forall a :: 0 <= a < |queues[d]| ==> request[queues[d][a]] == d;
      }
    }
    var r, request' := out[e := out[e] + [w]], request[w := e];
    forall d | 0 <= d < |queues|
      ensures Ordered(log + [w], r[d])
    {
      OrderedAppend(log, out[d], w);
    }
    forall d, a | 0 <= d < |r| && 0 <= a < |r[d]|
      ensures r[d][a] < |request'| && request'[r[d][a]] == d
    {
      InQueue(queues, request, log, out, w, e, d, a);
    }
    forall i | 0 <= i < |request'| && request'[i] != -1
      ensures 0 <= request'[i] < |r| && i in r[request'[i]]
    {
    }
  }

  lemma InQueue(queues: seq<seq<nat>>, request: seq<int>, log: seq<nat>, out: seq<seq<nat>>,
                w: nat, e: nat, d: nat, a: nat)
    requires QueuesFit(queues, request, log) && w < |request| && e < |queues| == |out| && d < |out|
    requires forall x :: x in out[d] <==> x in queues[d] && x != w
    requires a < |out[e := out[e] + [w]][d]|
    ensures var x := out[e := out[e] + [w]][d][a];
            x < |request| && if x == w then d == e else request[x] == d
  {
    hide Ordered;
    var x := out[e := out[e] + [w]][d][a];
    if a < |out[d]| {
      assert x in out[d];
    }
  }

  /** The oldest requests of a queue are gone, so that at most limit are left. */
  function Drained(q: seq<nat>, limit: nat): (r: seq<nat>)
    ensures |r| <= limit && |r| <= |q| && r == q[|q| - |r|..]
    ensures |q| <= limit ==> r == q
  {
    if |q| <= limit then q else q[|q| - limit..]
  }

  /** Taking the oldest request off a queue. */
  lemma PoppedFit(queues: seq<seq<nat>>, request: seq<int>, log: seq<nat>, e: nat)
    requires QueuesFit(queues, request, log) && e < |queues| && queues[e] != []
    requires queues[e][0] < |request|
    ensures QueuesFit(queues[e := queues[e][1..]], request[queues[e][0] := -1], log)
  {
    hide LastAt;
    var q, s := queues[e], queues[e][0];
    var r, request' := queues[e := q[1..]], request[s := -1];
    forall a | 0 < a < |q|
      ensures q[a] != s
    {
      assert LastAt(log, q[0]) < LastAt(log, q[a]);
    }
    forall i | 0 <= i < |request'| && request'[i] != -1
      ensures 0 <= request'[i] < |r| && i in r[request'[i]]
    {
      assert i in queues[request[i]];
    }
    assert Ordered(log, q[1..]);
    forall d, a | 0 <= d < |r| && 0 <= a < |r[d]|
      ensures r[d][a] < |request'| && request'[r[d][a]] == d
    {
      if d == e {
        assert r[d][a] == q[a + 1];
      } else {
        assert request[r[d][a]] == d;
      }
    }
  }

  /** The last of a queue is the latest submission of all steps with a request on the engine. */
  lemma LastIsLatest(queues: seq<seq<nat>>, request: seq<int>, log: seq<nat>, e: nat, i: nat)
    requires QueuesFit(queues, request, log) && e < |queues| && i < |request| && request[i] == e
    ensures queues[e] != [] && LastAt(log, i) <= LastAt(log, queues[e][|queues[e]| - 1])
  {
    hide LastAt;
    var a :| 0 <= a < |queues[e]| && queues[e][a] == i;
  }

  /** A step is in at most one queue, and there at most once. */
  lemma QueuedOnce(queues: seq<seq<nat>>, request: seq<int>, log: seq<nat>, d: nat, a: nat, e: nat, b: nat)
    requires QueuesFit(queues, request, log) && d < |queues| && e < |queues| && a < |queues[d]| && b < |queues[e]|
    ensures queues[d][a] == queues[e][b] ==> d == e && a == b
  {
    hide LastAt;
    assert request[queues[d][a]] == d && request[queues[e][b]] == e;
    if d == e {
      assert a < b ==> LastAt(log, queues[d][a]) < LastAt(log, queues[d][b]);
      assert b < a ==> LastAt(log, queues[d][b]) < LastAt(log, queues[d][a]);
    }
  }
}
