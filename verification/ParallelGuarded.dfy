/** The parallel engine against the serial engine with the same stop guards. */
module ParallelGuarded {
  import opened Wrappers
  import opened Trials
  import opened ParallelEngine
  import opened ParallelCorrectness
  import opened ParallelTheorems
  import opened ParallelStops
  import SerialEngine

  // ---------------------------------------------------------------- any concurrency

  /** The serial engine with its guards on, given these trials. */
  function Guarded(cfg: Config, ctl: Control, iter: nat, ts: seq<Trial>): SerialEngine.Loop {
    SerialEngine.Run(cfg, SerialEngine.Off, SerialStart(ctl, iter), TurnsOf(ts))
  }

  /** A reason for the serial engine to stop. */
  predicate Stopping(cfg: Config, e: SerialEngine.Loop) {
    || !GuardsDown(cfg, e.ctl)
    || (cfg.maxIterations.Some? && e.done >= cfg.maxIterations.value)
    || (cfg.maxWallTime.Some? && 0.0 >= cfg.maxWallTime.value)
  }

  lemma {:induction false} HaltedIsStopping(cfg: Config, ctl: Control, iter: nat, ts: seq<Trial>)
    ensures Guarded(cfg, ctl, iter, ts).halted ==> Stopping(cfg, Guarded(cfg, ctl, iter, ts))
    ensures Guarded(cfg, ctl, iter, ts).offset == 0.0
    decreases |ts|
  {
    if ts != [] {
      HaltedIsStopping(cfg, ctl, iter, ts[..|ts| - 1]);
      assert TurnsOf(ts)[..|ts| - 1] == TurnsOf(ts[..|ts| - 1]);
    }
  }

  /** For any interleaving and any concurrency, the serial engine with its guards on, given the trials that the parallel
      engine committed, commits the first of them: all, or up to a state at which one of its guards holds. */
  lemma GuardedCommitsPrefix(u: Setup, result: int -> Outcome, start: State, ticks: seq<Tick>)
    requires Start(start) && AllWellFormed(ticks)
    ensures var s := Run(u, result, start, ticks).state;
            && start.iterIdx <= s.nextToProcess <= start.iterIdx + |s.proposed|
            && var ts := CommittedTrials(result, start.iterIdx, s);
               var e := Guarded(u.cfg, start.ctl, start.iterIdx, ts);
               && start.iterIdx <= e.iterIdx <= s.nextToProcess && e.done == e.iterIdx
               && e.ctl == Fold(u.cfg, start.ctl, start.iterIdx, ts[..e.iterIdx - start.iterIdx])
               && (e.iterIdx == s.nextToProcess ==> e.ctl == s.ctl)
               && (e.iterIdx < s.nextToProcess ==> Stopping(u.cfg, e))
  {
    RunInv(u, result, start, ticks);
    var s := Run(u, result, start, ticks).state;
    InvFold(u, result, start, s);
    PrefixOf(u.cfg, start.ctl, start.iterIdx, CommittedTrials(result, start.iterIdx, s));
  }

  lemma PrefixOf(cfg: Config, ctl: Control, iter: nat, ts: seq<Trial>)
    ensures var e := Guarded(cfg, ctl, iter, ts);
            && iter <= e.iterIdx <= iter + |ts| && e.done == e.iterIdx
            && e.ctl == Fold(cfg, ctl, iter, ts[..e.iterIdx - iter])
            && (e.iterIdx == iter + |ts| ==> e.ctl == Fold(cfg, ctl, iter, ts))
            && (e.iterIdx < iter + |ts| ==> Stopping(cfg, e))
  {
    var e := Guarded(cfg, ctl, iter, ts);
    SerialEngine.RunIsFold(cfg, SerialEngine.Off, SerialStart(ctl, iter), TurnsOf(ts));
    HaltedIsStopping(cfg, ctl, iter, ts);
    assert SerialEngine.TrialsOf(TurnsOf(ts)[..e.iterIdx - iter]) == ts[..e.iterIdx - iter];
    assert ts[..|ts|] == ts;
  }

  // ---------------------------------------------------------------- one trial at a time

  /** All trials submitted so far. */
  function AllTrials(result: int -> Outcome, base: nat, s: State): (ts: seq<Trial>)
    ensures |ts| == |s.proposed|
  {
    seq(|s.proposed|, k requires 0 <= k < |s.proposed| => Trial(s.proposed[k].params, result(base + k)))
  }

  /** The serial engine would run trial number `k` in this control state. */
  predicate Allowed(cfg: Config, c: Control, k: nat) {
    GuardsDown(cfg, c) && (cfg.maxIterations.Some? ==> k < cfg.maxIterations.value)
  }

  predicate AllAllowed(cfg: Config, ctl: Control, iter: nat, ts: seq<Trial>) {
    forall m :: 0 <= m < |ts| ==> Allowed(cfg, Fold(cfg, ctl, iter, ts[..m]), iter + m)
  }

  /** What one trial at a time keeps: nothing waits, at most one trial runs, and each was submitted in a state in which the
      serial engine would have run it. */
  predicate OneByOne(u: Setup, result: int -> Outcome, start: State, s: State) {
    && s.completed == map[] && s.iterIdx - s.nextToProcess <= 1
    && AllAllowed(u.cfg, start.ctl, start.iterIdx, AllTrials(result, start.iterIdx, s))
  }

  lemma AllowedMore(u: Setup, result: int -> Outcome, start: State, s: State, s': State)
    requires AllAllowed(u.cfg, start.ctl, start.iterIdx, AllTrials(result, start.iterIdx, s))
    requires s.proposed <= s'.proposed && |s'.proposed| <= |s.proposed| + 1
    requires |s'.proposed| > |s.proposed| ==>
               Allowed(u.cfg, Fold(u.cfg, start.ctl, start.iterIdx, AllTrials(result, start.iterIdx, s)),
                       start.iterIdx + |s.proposed|)
    ensures AllAllowed(u.cfg, start.ctl, start.iterIdx, AllTrials(result, start.iterIdx, s'))
  {
    var ts, ts' := AllTrials(result, start.iterIdx, s), AllTrials(result, start.iterIdx, s');
    forall m | 0 <= m < |ts'|
      ensures Allowed(u.cfg, Fold(u.cfg, start.ctl, start.iterIdx, ts'[..m]), start.iterIdx + m)
    {
      if m < |ts| {
        assert ts'[..m] == ts[..m];
      } else {
        assert ts'[..m] == ts;
      }
    }
  }

  /** A submit phase with at most one proposal. */
  lemma SubmitOneByOne(u: Setup, result: int -> Outcome, start: State, s: State, t: Tick)
    requires Inv(u, result, start, s) && OneByOne(u, result, start, s) && u.maxConcurrency == 1
    requires |t.requests| <= Max(0, Slots(u, s))
    ensures var s1 := Submit(u, s, t);
            && s1.iterIdx - s1.nextToProcess <= 1
            && AllAllowed(u.cfg, start.ctl, start.iterIdx, AllTrials(result, start.iterIdx, s1))
  {
    var s1 := Submit(u, s, t);
    InvFold(u, result, start, s);
    PartitionSize(s);
    SubmitFrame(u, s, t);
    SubmitAllPrefix(u, s, t.requests);
    NoSubmissionWhileStopped(u, s, t);
    if s1.iterIdx > s.iterIdx {
      assert s.iterIdx == s.nextToProcess;
      assert AllTrials(result, start.iterIdx, s) == CommittedTrials(result, start.iterIdx, s);
    }
    AllowedMore(u, result, start, s, s1);
  }

  lemma TurnOneByOne(u: Setup, result: int -> Outcome, start: State, s: State, t: Tick)
    requires Inv(u, result, start, s) && OneByOne(u, result, start, s) && u.maxConcurrency == 1
    requires WellFormed(t.requests) && |t.requests| <= Max(0, Slots(u, s))
    ensures OneByOne(u, result, start, Turn(u, result, s, t).0)
  {
    SubmitOneByOne(u, result, start, s, t);
    PhasesHold(u, result, start, s, t);
    var s1 := Submit(u, s, t);
    var s2 := Drain(s1, t.finished, result);
    DrainBelowFrame(s1, t.finished, result, s1.iterIdx);
    TurnEnds(u, result, s, t, s2);
    OnlyNextCompleted(s2);
    if s2.nextToProcess in s2.completed {
      CommitLeavesFlight(u, s2);
      CommitNextFrame(u, s2);
      assert s2.completed.Keys - {s2.nextToProcess as int} == {};
      assert CommitNext(u, s2).completed.Keys == {};
    }
  }

  lemma OnlyNextCompleted(s: State)
    requires Partition(s) && s.iterIdx - s.nextToProcess <= 1
    ensures s.completed.Keys <= {s.nextToProcess as int}
    ensures s.nextToProcess !in s.completed ==> s.completed == map[]
  {
    forall i | i in s.completed.Keys
      ensures i == s.nextToProcess
    {
      assert s.nextToProcess <= i < s.iterIdx;
    }
    if s.nextToProcess !in s.completed {
      assert s.completed.Keys == {};
    }
  }

  lemma {:induction false} RunOneByOne(u: Setup, result: int -> Outcome, start: State, ticks: seq<Tick>)
    requires Start(start) && AllWellFormed(ticks) && u.maxConcurrency == 1 && AnswersInBounds(u, result, start, ticks)
    ensures OneByOne(u, result, start, Run(u, result, start, ticks).state)
    decreases |ticks|
  {
    if ticks != [] {
      SplitLast(ticks);
      BoundsOfPrefix(u, result, start, ticks);
      var init := ticks[..|ticks| - 1];
      RunOneByOne(u, result, start, init);
      RunInv(u, result, start, init);
      RunStep(u, result, start, ticks);
      TurnOneByOne(u, result, start, Run(u, result, start, init).state, ticks[|ticks| - 1]);
    }
  }

  /** Where every trial is allowed, the serial engine commits all, and has stopped exactly if a guard holds at the end. */
  lemma {:induction false} GuardedCommitsAll(cfg: Config, ctl: Control, iter: nat, ts: seq<Trial>)
    requires cfg.maxWallTime == None && AllAllowed(cfg, ctl, iter, ts)
    ensures var e := Guarded(cfg, ctl, iter, ts);
            && e.ctl == Fold(cfg, ctl, iter, ts) && e.iterIdx == e.done == iter + |ts|
            && (e.halted <==> ts != [] && !GuardsDown(cfg, e.ctl))
    decreases |ts|
  {
    if ts != [] {
      var init := ts[..|ts| - 1];
      AllowedBefore(cfg, ctl, iter, ts);
      GuardedCommitsAll(cfg, ctl, iter, init);
      GuardedOneMore(cfg, ctl, iter, ts);
    }
  }

  lemma AllowedBefore(cfg: Config, ctl: Control, iter: nat, ts: seq<Trial>)
    requires ts != [] && AllAllowed(cfg, ctl, iter, ts)
    ensures AllAllowed(cfg, ctl, iter, ts[..|ts| - 1])
    ensures Allowed(cfg, Fold(cfg, ctl, iter, ts[..|ts| - 1]), iter + |ts| - 1)
  {
    var init := ts[..|ts| - 1];
    forall m | 0 <= m < |init|
      ensures Allowed(cfg, Fold(cfg, ctl, iter, init[..m]), iter + m)
    {
      assert init[..m] == ts[..m];
    }
  }

  lemma GuardedOneMore(cfg: Config, ctl: Control, iter: nat, ts: seq<Trial>)
    requires ts != []
    ensures Guarded(cfg, ctl, iter, ts)
         == SerialEngine.Step(cfg, SerialEngine.Off, Guarded(cfg, ctl, iter, ts[..|ts| - 1]), TurnsOf(ts)[|ts| - 1])
  {
    assert TurnsOf(ts)[..|ts| - 1] == TurnsOf(ts[..|ts| - 1]);
  }

  /** With one trial at a time, the parallel engine is always in the state in which the serial engine with the same guards
      is that ran the same trials, and that engine has stopped exactly if a guard holds. */
  lemma OneAtATimeIsSerial(u: Setup, result: int -> Outcome, start: State, ticks: seq<Tick>)
    requires Start(start) && AllWellFormed(ticks) && u.maxConcurrency == 1 && AnswersInBounds(u, result, start, ticks)
    requires u.cfg.maxWallTime == None
    ensures var s := Run(u, result, start, ticks).state;
            && start.iterIdx <= s.nextToProcess <= start.iterIdx + |s.proposed|
            && var ts := CommittedTrials(result, start.iterIdx, s);
               var e := Guarded(u.cfg, start.ctl, start.iterIdx, ts);
               && e.ctl == s.ctl && e.done == s.done && e.iterIdx == s.nextToProcess
               && (e.halted <==> ts != [] && !GuardsDown(u.cfg, s.ctl))
  {
    var s := Run(u, result, start, ticks).state;
    RunOneByOne(u, result, start, ticks);
    RunInv(u, result, start, ticks);
    RunPartition(u, result, start, ticks);
    InvFold(u, result, start, s);
    CommittedAllowed(u, result, start, s);
    GuardedCommitsAll(u.cfg, start.ctl, start.iterIdx, CommittedTrials(result, start.iterIdx, s));
  }

  lemma CommittedAllowed(u: Setup, result: int -> Outcome, start: State, s: State)
    requires Counted(start.iterIdx, s) && OneByOne(u, result, start, s)
    ensures AllAllowed(u.cfg, start.ctl, start.iterIdx, CommittedTrials(result, start.iterIdx, s))
  {
    var ts, all := CommittedTrials(result, start.iterIdx, s), AllTrials(result, start.iterIdx, s);
    forall m | 0 <= m < |ts|
      ensures Allowed(u.cfg, Fold(u.cfg, start.ctl, start.iterIdx, ts[..m]), start.iterIdx + m)
    {
      assert ts[..m] == all[..m];
      assert Allowed(u.cfg, Fold(u.cfg, start.ctl, start.iterIdx, all[..m]), start.iterIdx + m);
    }
  }

  /** No interruption, and whenever the policy is asked it proposes a trial that the pool can admit. */
  predicate Offers(u: Setup, result: int -> Outcome, start: State, ticks: seq<Tick>) {
    forall i :: 0 <= i < |ticks| ==> OffersAt(u, start.pool.capacity, Run(u, result, start, ticks[..i]).state, ticks[i])
  }

  predicate OffersAt(u: Setup, capacity: map<string, int>, s: State, t: Tick) {
    && !t.interruptLoop && !t.interruptSubmit
    && if Slots(u, s) > 0 then |t.requests| == 1 && FitsEmpty(capacity, t.requests[0]) else t.requests == []
  }

  /** A turn that does not stop would submit the trial, and so not leave. */
  lemma OfferIsSubmitted(u: Setup, start: State, s: State, t: Tick)
    requires Partition(s) && Admitted(start.pool.capacity, s) && s.inFlight == map[] && s.completed == map[]
    requires u.maxConcurrency == 1 && OffersAt(u, start.pool.capacity, s, t) && !Stop(u, s, false)
    ensures Submit(u, s, t).iterIdx > s.iterIdx
  {
    PartitionSize(s);
    EmptyPoolAdmits(start, s, t.requests[0]);
    SubmitsFitting(u, s, t.requests[0], t);
    SubmitAllFrame(u, s, t.requests);
  }

  lemma LeavesUnchanged(u: Setup, result: int -> Outcome, s: State, t: Tick)
    requires Phases(u, result, s, t) && Turn(u, result, s, t).1 == Left
    ensures s.inFlight == map[] && s.completed == map[]
    ensures Turn(u, result, s, t).0.ctl == s.ctl && Turn(u, result, s, t).0.done == s.done
    ensures Stop(u, s, t.interruptLoop) || Submit(u, s, t).iterIdx == s.iterIdx
  {
    SleepOrLeave(u, result, s, t);
    SubmitFrame(u, s, t);
    var s1 := Submit(u, s, t);
    DrainBelowFrame(s1, t.finished, result, s1.iterIdx);
    EmptyWhenCaughtUp(s);
  }

  /** The loop is left only when a guard holds or the budget is committed. */
  lemma LeftMeansStop(u: Setup, result: int -> Outcome, start: State, s: State, t: Tick)
    requires Inv(u, result, start, s) && u.maxConcurrency == 1 && OffersAt(u, start.pool.capacity, s, t)
    requires WellFormed(t.requests) && Turn(u, result, s, t).1 == Left
    ensures Stop(u, s, false) && Turn(u, result, s, t).0.ctl == s.ctl && Turn(u, result, s, t).0.done == s.done
  {
    PhasesHold(u, result, start, s, t);
    LeavesUnchanged(u, result, s, t);
    if !Stop(u, s, false) {
      OfferIsSubmitted(u, start, s, t);
    }
  }

  lemma OffersPrefix(u: Setup, result: int -> Outcome, start: State, ticks: seq<Tick>)
    requires ticks != [] && Offers(u, result, start, ticks)
    ensures Offers(u, result, start, ticks[..|ticks| - 1])
    ensures OffersAt(u, start.pool.capacity, Run(u, result, start, ticks[..|ticks| - 1]).state, ticks[|ticks| - 1])
  {
    var init := ticks[..|ticks| - 1];
    forall i | 0 <= i < |init|
      ensures OffersAt(u, start.pool.capacity, Run(u, result, start, init[..i]).state, init[i])
    {
      assert init[..i] == ticks[..i];
    }
  }

  lemma {:induction false} LeftStops(u: Setup, result: int -> Outcome, start: State, ticks: seq<Tick>)
    requires Start(start) && AllWellFormed(ticks) && u.maxConcurrency == 1 && Offers(u, result, start, ticks)
    requires Run(u, result, start, ticks).left
    ensures Stop(u, Run(u, result, start, ticks).state, false)
    decreases |ticks|
  {
    SplitLast(ticks);
    OffersPrefix(u, result, start, ticks);
    var init := ticks[..|ticks| - 1];
    if Run(u, result, start, init).left {
      LeftStops(u, result, start, init);
    } else {
      RunInv(u, result, start, init);
      LeftMeansStop(u, result, start, Run(u, result, start, init).state, ticks[|ticks| - 1]);
    }
  }

  lemma OfferInBounds(u: Setup, capacity: map<string, int>, s: State, t: Tick)
    requires u.maxConcurrency == 1 && OffersAt(u, capacity, s, t)
    ensures WellFormed(t.requests) && |t.requests| <= Max(0, Slots(u, s))
  {
  }

  lemma OffersAreWellFormed(u: Setup, result: int -> Outcome, start: State, ticks: seq<Tick>)
    requires u.maxConcurrency == 1 && Offers(u, result, start, ticks)
    ensures AllWellFormed(ticks)
  {
    forall i | 0 <= i < |ticks|
      ensures WellFormed(ticks[i].requests)
    {
      OfferInBounds(u, start.pool.capacity, Run(u, result, start, ticks[..i]).state, ticks[i]);
    }
  }

  lemma OffersAreInBounds(u: Setup, result: int -> Outcome, start: State, ticks: seq<Tick>)
    requires u.maxConcurrency == 1 && Offers(u, result, start, ticks)
    ensures AnswersInBounds(u, result, start, ticks)
  {
    forall i | 0 <= i < |ticks|
      ensures |ticks[i].requests| <= Max(0, Slots(u, Run(u, result, start, ticks[..i]).state))
    {
      OfferInBounds(u, start.pool.capacity, Run(u, result, start, ticks[..i]).state, ticks[i]);
    }
  }

  /** One trial at a time, from a state in which no guard holds, with proposals that fit and no interruption: when the
      parallel engine leaves its loop, the serial engine stops too, on the same trials and in the same control state. */
  lemma OneAtATimeStops(u: Setup, result: int -> Outcome, start: State, ticks: seq<Tick>, next: SerialEngine.Turn)
    requires Start(start) && u.maxConcurrency == 1 && Offers(u, result, start, ticks)
    requires u.cfg.maxWallTime == None && GuardsDown(u.cfg, start.ctl)
    requires Run(u, result, start, ticks).left
    ensures var s := Run(u, result, start, ticks).state;
            && start.iterIdx <= s.nextToProcess == start.iterIdx + |s.proposed|
            && var ts := CommittedTrials(result, start.iterIdx, s);
               var e := SerialEngine.Step(u.cfg, SerialEngine.Off, Guarded(u.cfg, start.ctl, start.iterIdx, ts), next);
               e.halted && e.ctl == s.ctl && e.done == s.done
  {
    OffersAreWellFormed(u, result, start, ticks);
    OffersAreInBounds(u, result, start, ticks);
    OneAtATimeIsSerial(u, result, start, ticks);
    LeftStops(u, result, start, ticks);
    LeavesNothingBehind(u, result, start, ticks);
    RunInv(u, result, start, ticks);
    InvFold(u, result, start, Run(u, result, start, ticks).state);
  }
}
