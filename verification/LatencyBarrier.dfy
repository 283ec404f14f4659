/** The barrier between a producer of batches and any number of consumers that wait for each batch:
    a counter, a go flag for every consumer, one lock and two condition variables.  Every read and
    write of shared memory is a step of its own; waiting threads may wake at any time. */
module LatencyBarrier {
  import opened Options

  /** Where a consumer is; Write holds the value of the counter it has read. */
  datatype ConsumerPc = Lock | Read | Write(tmp: int) | Test | Sleep | Take | Unlock | Check | Measure | Exit

  datatype Consumer = Consumer(pc: ConsumerPc, go: bool, measured: nat)

  /** Where the producer is: the start-up handshake, the rounds, and the end.  Go and FinGo are about
      to release consumer n. */
  datatype ProducerPc =
    | StartLock | StartTest | StartSleep | StartUnlock
    | Loop | Submit | SetWait | Go(n: nat) | Broadcast | Measuring | BackLock | BackTest | BackSleep | BackUnlock
    | Complete
    | FinLock | FinWait | FinDone | FinGo(n: nat) | FinBroadcast | FinUnlock | Finished

  datatype Holder = Free | ByProducer | ByConsumer(i: nat)

  /** stop is the global flag that ends the rounds; done is the producer's. */
  datatype State = State(consumers: seq<Consumer>, pc: ProducerPc, wait: int, complete: nat, submitted: nat,
                         done: bool, stop: bool, lock: Holder)

  function Start(n: nat): State {
    State(seq(n, _ => Consumer(Lock, false, 0)), StartLock, n, 0, 0, false, false, Free)
  }

  // ---- steps ----

  function With(s: State, i: nat, c: Consumer): State
    requires i < |s.consumers|
  {
    s.(consumers := s.consumers[i := c])
  }

  /** The next step of consumer i, unless it is blocked or has returned. */
  function ConsumerStep(s: State, i: nat): Option<State>
    requires i < |s.consumers|
  {
    var c := s.consumers[i];
    match c.pc
    case Lock => if s.lock.Free? then Some(With(s, i, c.(pc := Read)).(lock := ByConsumer(i))) else None
    case Read => Some(With(s, i, c.(pc := Write(s.wait))))
    case Write(tmp) => Some(With(s, i, c.(pc := Test)).(wait := tmp - 1))
    case Test =>
      if c.go then Some(With(s, i, c.(pc := Take))) else Some(With(s, i, c.(pc := Sleep)).(lock := Free))
    case Sleep => if s.lock.Free? then Some(With(s, i, c.(pc := Test)).(lock := ByConsumer(i))) else None
    case Take => Some(With(s, i, c.(pc := Unlock, go := false)))
    case Unlock => Some(With(s, i, c.(pc := Check)).(lock := Free))
    case Check => Some(With(s, i, c.(pc := if s.done then Exit else Measure)))
    case Measure => Some(With(s, i, c.(pc := Lock, measured := c.measured + 1)))
    case Exit => None
  }

  /** Takes the lock, if it is free. */
  function Acquire(s: State, next: ProducerPc): Option<State> {
    if s.lock.Free? then Some(s.(lock := ByProducer, pc := next)) else None
  }

  /** Releases consumer n, or goes on behind the last one. */
  function Release(s: State, n: nat, next: ProducerPc, after: ProducerPc): State {
    if n < |s.consumers| then With(s, n, s.consumers[n].(go := true)).(pc := next) else s.(pc := after)
  }

  function ProducerStep(s: State): Option<State> {
    match s.pc
    case StartLock => Acquire(s, StartTest)
    case StartTest => Some(if s.wait != 0 then s.(lock := Free, pc := StartSleep) else s.(pc := StartUnlock))
    case StartSleep => Acquire(s, StartTest)
    case StartUnlock => Some(s.(lock := Free, pc := Loop))
    case Loop => Some(s.(pc := if s.stop then FinLock else Submit))
    case Submit => Some(s.(submitted := s.submitted + 1, pc := SetWait))
    case SetWait => Some(s.(wait := |s.consumers|, pc := Go(0)))
    case Go(n) => Some(Release(s, n, Go(n + 1), Broadcast))
    case Broadcast => Some(s.(pc := Measuring))
    case Measuring => Some(s.(pc := BackLock))
    case BackLock => Acquire(s, BackTest)
    case BackTest => Some(if s.wait != 0 then s.(lock := Free, pc := BackSleep) else s.(pc := BackUnlock))
    case BackSleep => Acquire(s, BackTest)
    case BackUnlock => Some(s.(lock := Free, pc := Complete))
    case Complete => Some(s.(complete := s.complete + 1, pc := Loop))
    case FinLock => Acquire(s, FinWait)
    case FinWait => Some(s.(wait := |s.consumers|, pc := FinDone))
    case FinDone => Some(s.(done := true, pc := FinGo(0)))
    case FinGo(n) => Some(Release(s, n, FinGo(n + 1), FinBroadcast))
    case FinBroadcast => Some(s.(pc := FinUnlock))
    case FinUnlock => Some(s.(lock := Free, pc := Finished))
    case Finished => None
  }

  ghost predicate Step(s: State, t: State) {
    || ProducerStep(s) == Some(t)
    || (exists i :: 0 <= i < |s.consumers| && ConsumerStep(s, i) == Some(t))
    || t == s.(stop := true)
  }

  /** A run with n consumers: any interleaving of their steps and the producer's. */
  ghost predicate IsRun(run: seq<State>, n: nat) {
    && run != [] && run[0] == Start(n)
    && forall k :: 0 <= k < |run| - 1 ==> Step(run[k], run[k + 1])
  }

  // ---- what always holds ----

  predicate Waiting(c: Consumer) {
    c.pc.Test? || c.pc.Sleep?
  }

  /** The counter has been set, but consumer i not released yet. */
  predicate Pending(pc: ProducerPc, i: nat) {
    match pc
    case Go(n) => n <= i
    case FinDone => true
    case FinGo(n) => n <= i
    case _ => false
  }

  /** Consumer i is still to be released, or released but not yet back: it has yet to take its one off
      the counter. */
  function Owed(s: State, i: nat): nat
    requires i < |s.consumers|
  {
    var c := s.consumers[i];
    if Waiting(c) && !c.go && !Pending(s.pc, i) then 0 else 1
  }

  function TotalOwed(s: State, n: nat): nat
    requires n <= |s.consumers|
  {
    if n == 0 then 0 else TotalOwed(s, n - 1) + Owed(s, n - 1)
  }

  predicate ConsumerHolds(pc: ConsumerPc) {
    pc.Read? || pc.Write? || pc.Test? || pc.Take? || pc.Unlock?
  }

  predicate ProducerHolds(pc: ProducerPc) {
    || pc.StartTest? || pc.StartUnlock? || pc.BackTest? || pc.BackUnlock?
    || pc.FinWait? || pc.FinDone? || pc.FinGo? || pc.FinBroadcast? || pc.FinUnlock?
  }

  /** Between seeing the counter at zero and setting it again. */
  predicate Quiet(pc: ProducerPc) {
    || pc.StartUnlock? || pc.Loop? || pc.Submit? || pc.SetWait? || pc.BackUnlock? || pc.Complete?
    || pc.FinLock? || pc.FinWait?
  }

  /** In a round, with the batch submitted. */
  predicate InRound(pc: ProducerPc) {
    || pc.SetWait? || pc.Go? || pc.Broadcast? || pc.Measuring? || pc.BackLock? || pc.BackTest? || pc.BackSleep?
    || pc.BackUnlock? || pc.Complete?
  }

  predicate Starting(pc: ProducerPc) {
    pc.StartLock? || pc.StartTest? || pc.StartSleep? || pc.StartUnlock?
  }

  predicate Ending(pc: ProducerPc) {
    pc.FinGo? || pc.FinBroadcast? || pc.FinUnlock? || pc.Finished?
  }

  /** Consumer i has been released in this round. */
  function Released(pc: ProducerPc, i: nat): nat {
    if InRound(pc) && !pc.SetWait? && !Pending(pc, i) then 1 else 0
  }

  /** Consumer i has been released but not measured yet. */
  function InFlight(s: State, i: nat): nat
    requires i < |s.consumers|
  {
    var c := s.consumers[i];
    if !s.done && (c.go || c.pc.Unlock? || c.pc.Check? || c.pc.Measure?) then 1 else 0
  }

  ghost predicate LockInv(s: State) {
    && (forall i :: 0 <= i < |s.consumers| ==> (ConsumerHolds(s.consumers[i].pc) <==> s.lock == ByConsumer(i)))
    && (ProducerHolds(s.pc) <==> s.lock == ByProducer)
  }

  ghost predicate ConsumerInv(s: State, i: nat)
    requires i < |s.consumers|
  {
    var c := s.consumers[i];
    && (c.go ==> Waiting(c) || c.pc.Take?) && (c.pc.Take? ==> c.go)
    && (Pending(s.pc, i) ==> Waiting(c) && !c.go)
    && (c.pc.Write? ==> c.pc.tmp == s.wait)
    && (c.pc.Exit? ==> s.done)
    && (s.done ==> !c.pc.Measure? && !c.pc.Lock? && !c.pc.Read? && !c.pc.Write?)
    && c.measured + InFlight(s, i) == s.complete + Released(s.pc, i)
  }

  ghost predicate Inv(s: State) {
    && LockInv(s)
    && (forall i :: 0 <= i < |s.consumers| ==> ConsumerInv(s, i))
    && s.wait == TotalOwed(s, |s.consumers|)
    && (Quiet(s.pc) ==> s.wait == 0)
    && (s.done <==> Ending(s.pc))
    && s.submitted == s.complete + (if InRound(s.pc) then 1 else 0)
    && (Starting(s.pc) ==> s.complete == 0)
  }

  // ---- sums ----

  lemma {:induction false} TotalSame(s: State, t: State, n: nat)
    requires n <= |s.consumers| == |t.consumers| && forall i :: 0 <= i < n ==> Owed(t, i) == Owed(s, i)
    ensures TotalOwed(t, n) == TotalOwed(s, n)
  {
    if n != 0 {
      TotalSame(s, t, n - 1);
    }
  }

  lemma {:induction false} TotalChange(s: State, t: State, n: nat, i: nat)
    requires i < n <= |s.consumers| == |t.consumers|
    requires forall j :: 0 <= j < n && j != i ==> Owed(t, j) == Owed(s, j)
    ensures TotalOwed(t, n) == TotalOwed(s, n) - Owed(s, i) + Owed(t, i)
  {
    if i == n - 1 {
      TotalSame(s, t, n - 1);
    } else {
      TotalChange(s, t, n - 1, i);
    }
  }

  lemma {:induction false} NoneOwed(s: State, n: nat, i: nat)
    requires i < n <= |s.consumers| && TotalOwed(s, n) == 0
    ensures Owed(s, i) == 0
  {
    if i != n - 1 {
      NoneOwed(s, n - 1, i);
    }
  }

  lemma {:induction false} AllOwed(s: State, n: nat)
    requires n <= |s.consumers| && forall i :: 0 <= i < n ==> Owed(s, i) == 1
    ensures TotalOwed(s, n) == n
  {
    if n != 0 {
      AllOwed(s, n - 1);
    }
  }

  // ---- every step keeps it ----

  lemma StartInv(n: nat)
    ensures Inv(Start(n))
  {
    AllOwed(Start(n), n);
  }

  /** What a step of a consumer can change. */
  lemma ConsumerStepShape(s: State, i: nat, t: State)
    requires Inv(s) && i < |s.consumers| && ConsumerStep(s, i) == Some(t)
    ensures |t.consumers| == |s.consumers| && t == s.(consumers := t.consumers, wait := t.wait, lock := t.lock)
    ensures forall j :: 0 <= j < |s.consumers| && j != i ==> t.consumers[j] == s.consumers[j]
    ensures if s.consumers[i].pc.Write? then t.wait == s.wait - 1 && s.lock == ByConsumer(i) else t.wait == s.wait
    ensures t.lock != s.lock ==>
              (s.lock == Free && t.lock == ByConsumer(i)) || (s.lock == ByConsumer(i) && t.lock == Free)
    ensures ConsumerHolds(t.consumers[i].pc) <==> t.lock == ByConsumer(i)
  {
    hide TotalOwed;
    assert ConsumerInv(s, i);
  }

  lemma ConsumerStepSelf(s: State, i: nat, t: State)
    requires Inv(s) && i < |s.consumers| && ConsumerStep(s, i) == Some(t)
    ensures |t.consumers| == |s.consumers| && ConsumerInv(t, i)
    ensures Owed(t, i) == Owed(s, i) - if s.consumers[i].pc.Write? then 1 else 0
  {
    hide TotalOwed, LockInv, Quiet, Ending, InRound, Pending, Released, ProducerHolds, ConsumerHolds;
    assert ConsumerInv(s, i);
  }

  lemma ConsumerStepInv(s: State, i: nat, t: State)
    requires Inv(s) && i < |s.consumers| && ConsumerStep(s, i) == Some(t)
    ensures Inv(t)
  {
    hide TotalOwed, ConsumerStep;
    ConsumerStepShape(s, i, t);
    ConsumerStepSelf(s, i, t);
    TotalChange(s, t, |s.consumers|, i);
    if Quiet(s.pc) {
      NoneOwed(s, |s.consumers|, i);
    }
    forall j | 0 <= j < |t.consumers|
      ensures ConsumerInv(t, j)
    {
      assert ConsumerInv(s, j);
    }
  }

  /** The consumer released by the next step of the producer. */
  predicate Releases(s: State, i: nat) {
    match s.pc
    case Go(n) => n == i
    case FinGo(n) => n == i
    case _ => false
  }

  predicate SetsWait(pc: ProducerPc) {
    pc.SetWait? || pc.FinWait?
  }

  /** What a step of the producer does to the consumers, the counter and the flags. */
  lemma ProducerStepShape(s: State, t: State)
    requires ProducerStep(s) == Some(t)
    ensures |t.consumers| == |s.consumers|
    ensures forall i :: 0 <= i < |s.consumers| ==>
              t.consumers[i] == if Releases(s, i) then s.consumers[i].(go := true) else s.consumers[i]
    ensures t.wait == if SetsWait(s.pc) then |s.consumers| else s.wait
    ensures t.done == (s.done || s.pc.FinDone?)
  {
    hide Pending, Released, ProducerHolds, Quiet, InRound, Ending;
  }

  lemma ProducerStepHolder(s: State, t: State)
    requires ProducerStep(s) == Some(t) && (ProducerHolds(s.pc) <==> s.lock == ByProducer)
    ensures ProducerHolds(t.pc) <==> t.lock == ByProducer
    ensures t.lock == s.lock || (s.lock == Free && t.lock == ByProducer) || (s.lock == ByProducer && t.lock == Free)
  {
    hide Pending, Released, Quiet, InRound, Ending;
  }

  lemma ProducerStepPending(s: State, t: State, i: nat)
    requires ProducerStep(s) == Some(t) && i < |s.consumers|
    ensures Pending(t.pc, i) <==> SetsWait(s.pc) || (Pending(s.pc, i) && !Releases(s, i))
    ensures Releases(s, i) ==> Pending(s.pc, i)
  {
    hide Released, Quiet, InRound, Ending, ProducerHolds;
  }

  lemma ProducerStepCounts(s: State, t: State)
    requires ProducerStep(s) == Some(t)
    ensures s.submitted == s.complete + (if InRound(s.pc) then 1 else 0) ==>
              t.submitted == t.complete + if InRound(t.pc) then 1 else 0
    ensures s.done == Ending(s.pc) ==> t.done == Ending(t.pc)
    ensures s.pc.Complete? <==> t.complete != s.complete
    ensures s.pc.Complete? ==> t.complete == s.complete + 1 && !InRound(t.pc)
  {
    hide Released, Pending, ProducerHolds, Quiet, Starting, SetsWait;
  }

  lemma ProducerStepRound(s: State, t: State)
    requires ProducerStep(s) == Some(t)
    ensures !s.pc.Complete? ==> InRound(t.pc) == (InRound(s.pc) || s.pc.Submit?)
    ensures t.pc.SetWait? <==> s.pc.Submit?
    ensures Starting(t.pc) ==> Starting(s.pc) && t.complete == s.complete
  {
    hide Released, Pending, ProducerHolds, Ending, Quiet, SetsWait;
  }

  lemma ProducerStepQuiet(s: State, t: State)
    requires ProducerStep(s) == Some(t)
    ensures Quiet(t.pc) ==> Quiet(s.pc) || ((s.pc.StartTest? || s.pc.BackTest?) && s.wait == 0)
    ensures Quiet(t.pc) ==> !SetsWait(s.pc)
  {
    hide Released, Pending, ProducerHolds, Ending, InRound, Starting;
  }

  lemma ProducerStepLock(s: State, t: State)
    requires LockInv(s) && ProducerStep(s) == Some(t)
    ensures LockInv(t)
  {
    hide ProducerStep;
    ProducerStepShape(s, t);
    ProducerStepHolder(s, t);
  }

  lemma ProducerStepConsumer(s: State, t: State, i: nat)
    requires Inv(s) && ProducerStep(s) == Some(t) && i < |s.consumers|
    ensures |t.consumers| == |s.consumers| && ConsumerInv(t, i)
  {
    hide TotalOwed, LockInv, ProducerStep, Pending, InRound, Ending;
    assert ConsumerInv(s, i);
    ProducerStepShape(s, t);
    ProducerStepPending(s, t, i);
    ProducerStepCounts(s, t);
    ProducerStepRound(s, t);
    ProducerStepQuiet(s, t);
    if Quiet(s.pc) {
      NoneOwed(s, |s.consumers|, i);
    }
    Places(s.pc);
    NotPendingOutside(s.pc, i);
  }

  lemma Places(pc: ProducerPc)
    ensures pc.Go? ==> InRound(pc) && !Ending(pc)
    ensures pc.FinGo? ==> Ending(pc)
    ensures Quiet(pc) && InRound(pc) ==> pc.SetWait? || pc.BackUnlock? || pc.Complete?
    ensures pc.SetWait? || pc.Complete? ==> InRound(pc)
    ensures pc.FinDone? || pc.FinWait? || pc.FinGo? ==> !InRound(pc)
  {
  }

  lemma NotPendingOutside(pc: ProducerPc, i: nat)
    ensures Pending(pc, i) ==> pc.Go? || pc.FinGo? || pc.FinDone?
    ensures pc.FinDone? ==> Pending(pc, i)
  {
  }

  lemma ProducerStepOwed(s: State, t: State)
    requires Inv(s) && ProducerStep(s) == Some(t)
    ensures |t.consumers| == |s.consumers| && t.wait == TotalOwed(t, |t.consumers|)
  {
    hide TotalOwed, LockInv, InFlight, Released, ProducerStep, Pending;
    ProducerStepShape(s, t);
    forall i | 0 <= i < |s.consumers|
      ensures Owed(t, i) == if SetsWait(s.pc) then 1 else Owed(s, i)
    {
      assert ConsumerInv(s, i);
      ProducerStepPending(s, t, i);
      if SetsWait(s.pc) {
        NoneOwed(s, |s.consumers|, i);
      }
    }
    if SetsWait(s.pc) {
      AllOwed(t, |t.consumers|);
    } else {
      TotalSame(s, t, |s.consumers|);
    }
  }

  lemma ProducerStepInv(s: State, t: State)
    requires Inv(s) && ProducerStep(s) == Some(t)
    ensures Inv(t)
  {
    hide TotalOwed, LockInv, ConsumerInv, ProducerStep, Quiet, InRound, Ending, Starting;
    ProducerStepLock(s, t);
    ProducerStepOwed(s, t);
    ProducerStepShape(s, t);
    ProducerStepCounts(s, t);
    ProducerStepRound(s, t);
    ProducerStepQuiet(s, t);
    forall i | 0 <= i < |t.consumers|
      ensures ConsumerInv(t, i)
    {
      ProducerStepConsumer(s, t, i);
    }
  }

  lemma StopInv(s: State)
    requires Inv(s)
    ensures Inv(s.(stop := true))
  {
    var t := s.(stop := true);
    TotalSame(s, t, |s.consumers|);
    forall i | 0 <= i < |s.consumers|
      ensures ConsumerInv(t, i)
    {
      assert ConsumerInv(s, i);
    }
  }

  lemma {:induction false} Always(run: seq<State>, n: nat, k: nat)
    requires IsRun(run, n) && k < |run|
    ensures Inv(run[k]) && |run[k].consumers| == n
  {
    hide Inv, ConsumerStep, ProducerStep;
    if k == 0 {
      StartInv(n);
    } else {
      Always(run, n, k - 1);
      var s, t := run[k - 1], run[k];
      assert Step(run[k - 1], run[k - 1 + 1]);
      if i :| 0 <= i < |s.consumers| && ConsumerStep(s, i) == Some(t) {
        ConsumerStepInv(s, i, t);
        SameConsumers(s, t);
      } else if ProducerStep(s) == Some(t) {
        ProducerStepInv(s, t);
        SameConsumers(s, t);
      } else {
        StopInv(s);
      }
    }
  }

  lemma SameConsumers(s: State, t: State)
    requires ProducerStep(s) == Some(t) || exists i :: 0 <= i < |s.consumers| && ConsumerStep(s, i) == Some(t)
    ensures |t.consumers| == |s.consumers|
  {
  }

  // ---- what follows ----

  /** The counter is the number of consumers still to be released plus those released but not yet back. */
  lemma CounterCounts(run: seq<State>, n: nat, k: nat)
    requires IsRun(run, n) && k < |run|
    ensures |run[k].consumers| == n && run[k].wait == TotalOwed(run[k], n)
  {
    hide IsRun, TotalOwed;
    Always(run, n, k);
  }

  /** When the next latency batch is about to be submitted, every consumer is back and waits unreleased;
      in particular none is still to measure. */
  lemma NobodyMeasuresAtSubmit(run: seq<State>, n: nat, k: nat, i: nat)
    requires IsRun(run, n) && k < |run| && i < n && run[k].pc.Submit?
    ensures |run[k].consumers| == n
    ensures var c := run[k].consumers[i];
            Waiting(c) && !c.go && c.measured == run[k].complete == run[k].submitted
  {
    hide IsRun, TotalOwed;
    Always(run, n, k);
    NoneOwed(run[k], n, i);
    assert ConsumerInv(run[k], i);
  }

  /** A consumer that measures has measured every batch but the newest, which it measures now. */
  lemma MeasuresNewest(run: seq<State>, n: nat, k: nat, i: nat)
    requires IsRun(run, n) && k < |run| && i < n && |run[k].consumers| == n && run[k].consumers[i].pc.Measure?
    ensures run[k].consumers[i].measured == run[k].complete == run[k].submitted - 1
  {
    hide IsRun, TotalOwed;
    Always(run, n, k);
    if Quiet(run[k].pc) {
      NoneOwed(run[k], n, i);
    }
    assert ConsumerInv(run[k], i);
  }

  /** A consumer that has returned has measured every batch exactly once. */
  lemma ExitsAfterAll(run: seq<State>, n: nat, k: nat, i: nat)
    requires IsRun(run, n) && k < |run| && i < n && |run[k].consumers| == n
    requires run[k].consumers[i].pc.Exit? || run[k].pc.Finished?
    ensures run[k].consumers[i].measured == run[k].complete == run[k].submitted
  {
    hide IsRun, TotalOwed;
    Always(run, n, k);
    assert ConsumerInv(run[k], i);
  }

  /** At most one thread is between locking and unlocking. */
  lemma MutualExclusion(run: seq<State>, n: nat, k: nat, i: nat, j: nat)
    requires IsRun(run, n) && k < |run| && i < n && j < n && |run[k].consumers| == n
    ensures var s := run[k];
            && (ConsumerHolds(s.consumers[i].pc) && ConsumerHolds(s.consumers[j].pc) ==> i == j)
            && !(ConsumerHolds(s.consumers[i].pc) && ProducerHolds(s.pc))
  {
    hide IsRun, TotalOwed, ConsumerHolds, ProducerHolds;
    Always(run, n, k);
  }
}
