/** What the barrier gets done: rounds are run for as long as the producer is not stopped, and from wherever
    the threads are they can come to an end. */
module LatencyProgress {
  import opened Options
  import opened LatencyBarrier

  // ---- rounds until stopped ----

  predicate Closing(pc: ProducerPc) {
    || pc.FinLock? || pc.FinWait? || pc.FinDone? || pc.FinGo? || pc.FinBroadcast? || pc.FinUnlock? || pc.Finished?
  }

  /** A step into the closing comes from a look at the flag that finds it set, a step to the submission from
      one that does not. */
  lemma FlagDecides(s: State, t: State)
    requires Step(s, t)
    ensures s.stop ==> t.stop
    ensures Closing(t.pc) && !Closing(s.pc) ==> s.pc.Loop? && s.stop
    ensures t.pc.Submit? && !s.pc.Submit? ==> s.pc.Loop? && !s.stop
  {
    hide ProducerStep, ConsumerStep;
    if ProducerStep(s) == Some(t) {
      if s.pc.Loop? {
        LookDecides(s, t);
      } else {
        ProducerKeepsFlag(s, t);
      }
    } else if i :| 0 <= i < |s.consumers| && ConsumerStep(s, i) == Some(t) {
      ConsumerKeepsFlag(s, i, t);
    }
  }

  lemma LookDecides(s: State, t: State)
    requires ProducerStep(s) == Some(t) && s.pc.Loop?
    ensures t == s.(pc := if s.stop then FinLock else Submit)
  {
  }

  lemma ConsumerKeepsFlag(s: State, i: nat, t: State)
    requires i < |s.consumers| && ConsumerStep(s, i) == Some(t)
    ensures t.stop == s.stop && t.pc == s.pc
  {
  }

  lemma ProducerKeepsFlag(s: State, t: State)
    requires ProducerStep(s) == Some(t) && !s.pc.Loop?
    ensures t.stop == s.stop && !t.pc.Submit? && Closing(t.pc) == Closing(s.pc)
  {
    match s.pc
    case Go(k) =>
    case FinGo(k) =>
    case _ =>
  }

  /** The producer does not close the barrier before it is stopped. */
  lemma {:induction false} ClosesOnlyIfStopped(run: seq<State>, n: nat, k: nat)
    requires IsRun(run, n) && k < |run| && Closing(run[k].pc)
    ensures run[k].stop
  {
    hide Step;
    if k > 0 {
      assert Step(run[k - 1], run[k - 1 + 1]);
      FlagDecides(run[k - 1], run[k]);
      if Closing(run[k - 1].pc) {
        ClosesOnlyIfStopped(run, n, k - 1);
      }
    }
  }

  /** It submits only if it has not been stopped when it last looked. */
  lemma {:induction false} SubmitsUnlessStopped(run: seq<State>, n: nat, k: nat) returns (j: nat)
    requires IsRun(run, n) && k < |run| && run[k].pc.Submit?
    ensures j < k && run[j].pc.Loop? && !run[j].stop && forall i :: j < i <= k ==> run[i].pc.Submit?
  {
    hide Step;
    assert k > 0;
    assert Step(run[k - 1], run[k - 1 + 1]);
    FlagDecides(run[k - 1], run[k]);
    if run[k - 1].pc.Submit? {
      j := SubmitsUnlessStopped(run, n, k - 1);
    } else {
      j := k - 1;
    }
  }

  // ---- steps that get somewhere ----

  /** A thread that is woken before what it waits for has happened. */
  predicate IdleConsumer(c: Consumer) {
    c.pc.Sleep? && !c.go
  }

  predicate IdleProducer(s: State) {
    (s.pc.StartSleep? || s.pc.BackSleep?) && s.wait != 0
  }

  /** A step of a thread that is not woken too early. */
  ghost predicate UsefulStep(s: State, t: State) {
    || (ProducerStep(s) == Some(t) && !IdleProducer(s))
    || (exists i :: 0 <= i < |s.consumers| && ConsumerStep(s, i) == Some(t) && !IdleConsumer(s.consumers[i]))
  }

  /** Steps of the producer up to the next look at the flag, or up to the end. */
  function PlaceRank(pc: ProducerPc, n: nat): nat {
    match pc
    case StartLock => 3
    case StartTest => 2
    case StartSleep => 2
    case StartUnlock => 1
    case Loop => 0
    case Submit => n + 9
    case SetWait => n + 8
    case Go(k) => 7 + if k < n then n - k else 0
    case Broadcast => 6
    case Measuring => 5
    case BackLock => 4
    case BackTest => 3
    case BackSleep => 3
    case BackUnlock => 2
    case Complete => 1
    case FinLock => n + 6
    case FinWait => n + 5
    case FinDone => n + 4
    case FinGo(k) => 3 + if k < n then n - k else 0
    case FinBroadcast => 2
    case FinUnlock => 1
    case Finished => 0
  }

  function ProducerRank(s: State): nat {
    PlaceRank(s.pc, |s.consumers|)
  }

  /** Steps of a consumer up to waiting unreleased. */
  function ConsumerRank(c: Consumer): nat {
    match c.pc
    case Sleep => if c.go then 10 else 0
    case Test => if c.go then 9 else 1
    case Take => 8
    case Unlock => 7
    case Check => 6
    case Measure => 5
    case Lock => 4
    case Read => 3
    case Write(_) => 2
    case Exit => 0
  }

  function TotalRank(cs: seq<Consumer>): nat {
    if cs == [] then 0 else TotalRank(cs[..|cs| - 1]) + ConsumerRank(cs[|cs| - 1])
  }

  /** Going to sleep, and waking when there is nothing to wait for. */
  function SleepRank(s: State): nat {
    if s.pc.StartTest? || s.pc.BackTest? then 1
    else if (s.pc.StartSleep? || s.pc.BackSleep?) && s.wait == 0 then 2 else 0
  }

  /** t is further on than s. */
  predicate Closer(t: State, s: State) {
    || ProducerRank(t) < ProducerRank(s)
    || (ProducerRank(t) == ProducerRank(s)
        && (|| TotalRank(t.consumers) < TotalRank(s.consumers)
            || (TotalRank(t.consumers) == TotalRank(s.consumers) && SleepRank(t) < SleepRank(s))))
  }

  lemma {:induction false} TotalRankChange(cs: seq<Consumer>, i: nat, c: Consumer)
    requires i < |cs|
    ensures TotalRank(cs[i := c]) == TotalRank(cs) - ConsumerRank(cs[i]) + ConsumerRank(c)
  {
    var n := |cs| - 1;
    if i == n {
      assert cs[i := c][..n] == cs[..n];
    } else {
      assert cs[i := c][..n] == cs[..n][i := c];
      TotalRankChange(cs[..n], i, c);
    }
  }

  /** Every useful step gets closer, whatever the others do, to the next look at the flag or to the end. */
  lemma UsefulStepsGetCloser(s: State, t: State)
    requires Inv(s) && UsefulStep(s, t) && !s.pc.Loop?
    ensures Closer(t, s)
  {
    hide TotalRank, ConsumerStep, ProducerStep, ConsumerInv;
    if i :| 0 <= i < |s.consumers| && ConsumerStep(s, i) == Some(t) && !IdleConsumer(s.consumers[i]) {
      ConsumerCloser(s, i, t);
    } else {
      ProducerCloser(s, t);
    }
  }

  lemma ConsumerRankDrops(s: State, i: nat, t: State)
    requires i < |s.consumers| && ConsumerInv(s, i)
    requires ConsumerStep(s, i) == Some(t) && !IdleConsumer(s.consumers[i])
    ensures t == s.(consumers := t.consumers, wait := t.wait, lock := t.lock)
    ensures |t.consumers| == |s.consumers| && t.consumers == s.consumers[i := t.consumers[i]]
    ensures ConsumerRank(t.consumers[i]) < ConsumerRank(s.consumers[i])
  {
  }

  lemma ConsumerCloser(s: State, i: nat, t: State)
    requires i < |s.consumers| && ConsumerInv(s, i)
    requires ConsumerStep(s, i) == Some(t) && !IdleConsumer(s.consumers[i])
    ensures ProducerRank(t) == ProducerRank(s) && TotalRank(t.consumers) < TotalRank(s.consumers)
    ensures t.pc == s.pc && t.complete == s.complete && t.stop == s.stop
  {
    hide TotalRank, ConsumerStep, ConsumerRank;
    ConsumerRankDrops(s, i, t);
    TotalRankChange(s.consumers, i, t.consumers[i]);
  }

  predicate WaitsForZero(pc: ProducerPc) {
    pc.StartTest? || pc.StartSleep? || pc.BackTest? || pc.BackSleep?
  }

  lemma ProducerRankDrops(s: State, t: State)
    requires ProducerStep(s) == Some(t) && !s.pc.Loop? && !WaitsForZero(s.pc)
    ensures ProducerRank(t) < ProducerRank(s)
  {
    ProducerStepShape(s, t);
    match s.pc
    case Go(k) =>
    case FinGo(k) =>
    case _ =>
  }

  lemma SleepRankDrops(s: State, t: State)
    requires ProducerStep(s) == Some(t) && !IdleProducer(s) && WaitsForZero(s.pc)
    ensures t.consumers == s.consumers
    ensures ProducerRank(t) < ProducerRank(s) || (ProducerRank(t) == ProducerRank(s) && SleepRank(t) < SleepRank(s))
  {
  }

  lemma ProducerCloser(s: State, t: State)
    requires ProducerStep(s) == Some(t) && !IdleProducer(s) && !s.pc.Loop?
    ensures Closer(t, s)
  {
    hide TotalRank, ProducerRank, SleepRank, ProducerStep;
    if WaitsForZero(s.pc) {
      SleepRankDrops(s, t);
    } else {
      ProducerRankDrops(s, t);
    }
  }

  // ---- some useful step is always possible ----

  /** Who has the lock exists, and once the barrier is closed the counter stays set. */
  predicate Settled(s: State) {
    && (s.lock.ByConsumer? ==> s.lock.i < |s.consumers|)
    && (s.done || s.pc.FinDone? ==> s.wait == |s.consumers|)
  }

  lemma SettledStep(s: State, t: State)
    requires Inv(s) && Settled(s) && Step(s, t)
    ensures Settled(t)
  {
    hide TotalOwed;
    if i :| 0 <= i < |s.consumers| && ConsumerStep(s, i) == Some(t) {
      ConsumerStepShape(s, i, t);
      assert ConsumerInv(s, i);
    }
  }

  lemma StartSettled(n: nat)
    ensures Settled(Start(n))
  {
  }

  lemma {:induction false} AlwaysSettled(run: seq<State>, n: nat, k: nat)
    requires IsRun(run, n) && k < |run|
    ensures Settled(run[k])
  {
    hide Settled, Inv, Step;
    if k == 0 {
      StartSettled(n);
    } else {
      AlwaysSettled(run, n, k - 1);
      Always(run, n, k - 1);
      assert Step(run[k - 1], run[k - 1 + 1]);
      SettledStep(run[k - 1], run[k]);
    }
  }

  ghost predicate AllOut(s: State) {
    s.pc.Finished? && forall i :: 0 <= i < |s.consumers| ==> s.consumers[i].pc.Exit?
  }

  lemma {:induction false} SomeOwed(s: State, n: nat) returns (i: nat)
    requires n <= |s.consumers| && TotalOwed(s, n) != 0
    ensures i < n && Owed(s, i) == 1
  {
    if Owed(s, n - 1) == 1 {
      i := n - 1;
    } else {
      i := SomeOwed(s, n - 1);
    }
  }

  lemma {:induction false} EachOwed(s: State, n: nat, i: nat)
    requires i < n <= |s.consumers| && TotalOwed(s, n) >= n
    ensures Owed(s, i) == 1
  {
    AtMostOwed(s, n - 1);
    if i != n - 1 {
      EachOwed(s, n - 1, i);
    }
  }

  lemma {:induction false} AtMostOwed(s: State, n: nat)
    requires n <= |s.consumers|
    ensures TotalOwed(s, n) <= n
  {
    if n > 0 {
      AtMostOwed(s, n - 1);
    }
  }

  /** With the lock free, a consumer that owes its one and has not returned can go on. */
  lemma OwingConsumerGoesOn(s: State, i: nat)
    requires Inv(s) && s.lock.Free? && i < |s.consumers| && Owed(s, i) == 1
    requires !Pending(s.pc, i) && !s.consumers[i].pc.Exit?
    ensures ConsumerStep(s, i).Some? && !IdleConsumer(s.consumers[i])
  {
    hide TotalOwed, Pending;
    assert ConsumerInv(s, i);
  }

  /** Nobody is ever stuck: short of the end, some thread can take a step and is not woken too early. */
  lemma SomeUsefulStep(s: State) returns (t: State)
    requires Inv(s) && Settled(s) && !AllOut(s)
    ensures UsefulStep(s, t)
  {
    hide TotalOwed, ConsumerStep, ProducerStep, Owed;
    match s.lock
    case ByConsumer(i) =>
      HolderGoesOn(s, i);
      t := ConsumerStep(s, i).value;
    case ByProducer =>
      ProducerGoesOn(s);
      t := ProducerStep(s).value;
    case Free =>
      if s.pc.Finished? {
        var i: nat :| i < |s.consumers| && !s.consumers[i].pc.Exit?;
        EachOwed(s, |s.consumers|, i);
        OwingConsumerGoesOn(s, i);
        t := ConsumerStep(s, i).value;
      } else if IdleProducer(s) {
        var i := SomeOwed(s, |s.consumers|);
        assert ConsumerInv(s, i);
        OwingConsumerGoesOn(s, i);
        t := ConsumerStep(s, i).value;
      } else {
        ProducerGoesOn(s);
        t := ProducerStep(s).value;
      }
  }

  lemma HolderGoesOn(s: State, i: nat)
    requires i < |s.consumers| && ConsumerHolds(s.consumers[i].pc)
    ensures ConsumerStep(s, i).Some? && !IdleConsumer(s.consumers[i])
  {
  }

  lemma ProducerGoesOn(s: State)
    requires !s.pc.Finished? && (s.lock.Free? || ProducerHolds(s.pc)) && !IdleProducer(s)
    ensures ProducerStep(s).Some?
  {
  }

  // ---- going on to the next look at the flag, and to the end ----

  function Last(run: seq<State>): State
    requires run != []
  {
    run[|run| - 1]
  }

  lemma Extended(run: seq<State>, n: nat, t: State)
    requires IsRun(run, n) && Step(Last(run), t)
    ensures IsRun(run + [t], n) && Last(run + [t]) == t
  {
    hide Step;
  }

  lemma UsefulIsStep(s: State, t: State)
    requires UsefulStep(s, t)
    ensures Step(s, t)
  {
  }

  /** One useful step more. */
  lemma GoOn(run: seq<State>, n: nat) returns (t: State)
    requires IsRun(run, n) && !AllOut(Last(run))
    ensures UsefulStep(Last(run), t) && IsRun(run + [t], n) && Last(run + [t]) == t
    ensures Inv(Last(run))
  {
    hide Inv, Settled, Step, UsefulStep, AllOut;
    Always(run, n, |run| - 1);
    AlwaysSettled(run, n, |run| - 1);
    t := SomeUsefulStep(Last(run));
    UsefulIsStep(Last(run), t);
    Extended(run, n, t);
  }

  /** The rounds completed when this one is. */
  function Rounds(s: State): nat {
    s.complete + if InRound(s.pc) || s.pc.Submit? then 1 else 0
  }

  lemma UsefulStepStays(s: State, t: State)
    requires Inv(s) && UsefulStep(s, t) && !s.pc.Loop?
    ensures t.stop == s.stop && Rounds(t) == Rounds(s) && Closing(t.pc) == Closing(s.pc)
  {
    hide ConsumerStep, ProducerStep, ConsumerInv, TotalOwed, LockInv;
    if i :| 0 <= i < |s.consumers| && ConsumerStep(s, i) == Some(t) && !IdleConsumer(s.consumers[i]) {
      assert ConsumerInv(s, i);
      ConsumerCloser(s, i, t);
    } else {
      ProducerStays(s, t);
    }
  }

  lemma ProducerStays(s: State, t: State)
    requires ProducerStep(s) == Some(t) && !s.pc.Loop?
    ensures t.stop == s.stop && Rounds(t) == Rounds(s) && Closing(t.pc) == Closing(s.pc)
  {
    hide ProducerStep, Closing, InRound, Ending;
    ProducerStepCounts(s, t);
    ProducerStepRound(s, t);
    ProducerKeepsFlag(s, t);
    Places(s.pc);
    NotYetSubmitted(s.pc);
  }

  lemma NotYetSubmitted(pc: ProducerPc)
    ensures pc.Submit? || pc.Loop? ==> !InRound(pc)
  {
  }

  /** From wherever it is, the producer can come to its next look at the flag, and has then completed the
      round it was in. */
  lemma {:induction false} ToNextLook(run: seq<State>, n: nat) returns (run': seq<State>)
    requires IsRun(run, n) && !Closing(Last(run).pc)
    ensures run <= run' && IsRun(run', n) && Last(run').pc.Loop?
    ensures Last(run').stop == Last(run).stop && Last(run').complete == Rounds(Last(run))
    decreases ProducerRank(Last(run)), TotalRank(Last(run).consumers), SleepRank(Last(run))
  {
    hide Inv, Step, UsefulStep, ProducerRank, TotalRank, SleepRank, InRound;
    if Last(run).pc.Loop? {
      run' := run;
      NotYetSubmitted(Last(run).pc);
    } else {
      var t := GoOn(run, n);
      UsefulStepsGetCloser(Last(run), t);
      UsefulStepStays(Last(run), t);
      run' := ToNextLook(run + [t], n);
    }
  }

  /** Once the barrier is being closed, everybody can come to the end, without another round. */
  lemma {:induction false} ToEnd(run: seq<State>, n: nat) returns (run': seq<State>)
    requires IsRun(run, n) && Closing(Last(run).pc)
    ensures run <= run' && IsRun(run', n) && AllOut(Last(run'))
    ensures Last(run').complete == Last(run).complete
    decreases ProducerRank(Last(run)), TotalRank(Last(run).consumers), SleepRank(Last(run))
  {
    hide Inv, Step, UsefulStep, ProducerRank, TotalRank, SleepRank, AllOut;
    if AllOut(Last(run)) {
      run' := run;
    } else {
      var t := GoOn(run, n);
      UsefulStepsGetCloser(Last(run), t);
      UsefulStepStays(Last(run), t);
      run' := ToEnd(run + [t], n);
    }
  }

  /** A producer that is stopped at its look at the flag can come to the end with the rounds it has. */
  lemma StoppedAtLook(run: seq<State>, n: nat) returns (run': seq<State>)
    requires IsRun(run, n) && Last(run).pc.Loop?
    ensures run <= run' && IsRun(run', n) && AllOut(Last(run')) && Last(run').complete == Last(run).complete
  {
    hide AllOut, ConsumerStep;
    var s := Last(run).(stop := true);
    Extended(run, n, s);
    Extended(run + [s], n, s.(pc := FinLock));
    run' := ToEnd(run + [s] + [s.(pc := FinLock)], n);
  }

  /** From every state of every run, all threads can come to their end. */
  lemma CanAlwaysFinish(run: seq<State>, n: nat) returns (run': seq<State>)
    requires IsRun(run, n)
    ensures run <= run' && IsRun(run', n) && AllOut(Last(run'))
    ensures Last(run').complete == Rounds(Last(run))
  {
    hide AllOut, Step;
    if Closing(Last(run).pc) {
      run' := ToEnd(run, n);
    } else {
      run' := ToNextLook(run, n);
      run' := StoppedAtLook(run', n);
    }
  }

  /** Unless it is stopped, the producer can do any number of rounds. */
  lemma {:induction false} DoRounds(n: nat, r: nat) returns (run: seq<State>)
    ensures IsRun(run, n) && Last(run).pc.Loop? && !Last(run).stop && Last(run).complete == r
  {
    hide ConsumerStep;
    if r == 0 {
      run := [Start(n)];
    } else {
      run := DoRounds(n, r - 1);
      Extended(run, n, Last(run).(pc := Submit));
      run := run + [Last(run).(pc := Submit)];
    }
    run := ToNextLook(run, n);
  }

  /** For any number of consumers and rounds there is a run in which the producer completes just these rounds,
      every consumer measures each of them, and all threads end. */
  lemma AnyNumberOfRounds(n: nat, r: nat) returns (run: seq<State>)
    ensures IsRun(run, n) && AllOut(Last(run)) && |Last(run).consumers| == n
    ensures Last(run).complete == Last(run).submitted == r
    ensures forall i :: 0 <= i < n ==> Last(run).consumers[i].measured == r
  {
    hide Step;
    run := DoRounds(n, r);
    run := StoppedAtLook(run, n);
    Always(run, n, |run| - 1);
    forall i | 0 <= i < n ensures Last(run).consumers[i].measured == r {
      ExitsAfterAll(run, n, |run| - 1, i);
    }
  }
}
