/** The guarantees of the parallel engine over whole runs. */
module ParallelTheorems {
  import opened Wrappers
  import opened Trials
  import opened ParallelEngine
  import opened ParallelCorrectness
  import Resources
  import SerialEngine

  // ---------------------------------------------------------------- the serial engine is the specification

  /** The same objective and status window with every stop guard off. */
  function Unguarded(cfg: Config): Config {
    Config(cfg.objective, None, None, None, None, cfg.failureWindow)
  }

  function TurnsOf(ts: seq<Trial>): (turns: seq<SerialEngine.Turn>)
    ensures |turns| == |ts|
  {
    seq(|ts|, i requires 0 <= i < |ts| => SerialEngine.Turn(false, 0.0, ts[i]))
  }

  /** A serial engine that starts from a control state and a counter. */
  function SerialStart(ctl: Control, iter: nat): SerialEngine.Loop {
    SerialEngine.Loop(ctl, iter, iter, [], [], 0.0, false)
  }

  lemma {:induction false} FoldIgnoresGuards(cfg: Config, ctl: Control, iter: nat, ts: seq<Trial>)
    ensures Fold(Unguarded(cfg), ctl, iter, ts) == Fold(cfg, ctl, iter, ts)
    ensures Rewards(Unguarded(cfg), ctl, iter, ts, false) == Rewards(cfg, ctl, iter, ts, false)
    decreases |ts|
  {
    if ts != [] {
      FoldIgnoresGuards(cfg, ctl, iter, ts[..|ts| - 1]);
    }
  }

  lemma {:induction false} UnguardedNeverHalts(cfg: Config, s: SerialEngine.Loop, turns: seq<SerialEngine.Turn>)
    requires !s.halted && forall i :: 0 <= i < |turns| ==> !turns[i].shutdown
    ensures !SerialEngine.Run(Unguarded(cfg), SerialEngine.Off, s, turns).halted
    decreases |turns|
  {
    if turns != [] {
      UnguardedNeverHalts(cfg, s, turns[..|turns| - 1]);
    }
  }

  /** Without guards the serial engine commits every trial it is given. */
  lemma SerialCommitsAll(cfg: Config, ctl: Control, iter: nat, ts: seq<Trial>)
    ensures var e := SerialEngine.Run(Unguarded(cfg), SerialEngine.Off, SerialStart(ctl, iter), TurnsOf(ts));
            && !e.halted && e.iterIdx == iter + |ts|
            && e.ctl == Fold(cfg, ctl, iter, ts)
            && e.rewards == Rewards(cfg, ctl, iter, ts, false)
  {
    var start, turns := SerialStart(ctl, iter), TurnsOf(ts);
    UnguardedNeverHalts(cfg, start, turns);
    SerialEngine.RunIsFold(Unguarded(cfg), SerialEngine.Off, start, turns);
    assert SerialEngine.TrialsOf(turns) == ts;
    CommitsWhole(Unguarded(cfg), start, SerialEngine.Run(Unguarded(cfg), SerialEngine.Off, start, turns), turns, ts);
    FoldIgnoresGuards(cfg, ctl, iter, ts);
  }

  lemma CommitsWhole(cfg: Config, s: SerialEngine.Loop, e: SerialEngine.Loop, turns: seq<SerialEngine.Turn>, ts: seq<Trial>)
    requires SerialEngine.CommitsPrefix(cfg, s, e, turns)
    requires e.iterIdx == s.iterIdx + |turns| && SerialEngine.TrialsOf(turns) == ts
    ensures e.ctl == Fold(cfg, s.ctl, s.iterIdx, ts)
    ensures e.rewards == s.rewards + Rewards(cfg, s.ctl, s.iterIdx, ts, false)
  {
    assert turns[..|turns|] == turns;
  }

  /** Whatever the order in which trials finish: the parallel engine is always in the state in which a serial
      engine is that ran the same trials, in index order, with the outcomes they returned. The policy has been
      paid the same rewards if and only if no discarded trial reported the objective under the status "failed". */
  lemma ParallelRefinesSerial(u: Setup, result: int -> Outcome, start: State, ticks: seq<Tick>)
    requires Start(start) && AllWellFormed(ticks)
    ensures var s := Run(u, result, start, ticks).state;
            && start.iterIdx <= s.nextToProcess <= start.iterIdx + |s.proposed|
            && var ts := CommittedTrials(result, start.iterIdx, s);
               var serial := SerialEngine.Run(Unguarded(u.cfg), SerialEngine.Off, SerialStart(start.ctl, start.iterIdx), TurnsOf(ts));
               && s.ctl == serial.ctl
               && s.done == serial.done == start.iterIdx + |ts|
               && s.published == serial.ctl.bestValue
               && (u.learnable ==>
                     (s.rewards == serial.rewards <==>
                        forall i :: 0 <= i < |ts| && FailedWithMetric(ts[i].outcome, u.cfg.objective) ==>
                          Improves(Fold(u.cfg, start.ctl, start.iterIdx, ts[..i]).bestScore, ts[i].outcome, u.cfg.objective)))
  {
    RunInv(u, result, start, ticks);
    var s := Run(u, result, start, ticks).state;
    var ts := CommittedTrials(result, start.iterIdx, s);
    SerialCommitsAll(u.cfg, start.ctl, start.iterIdx, ts);
    SerialEngine.RunIsFold(Unguarded(u.cfg), SerialEngine.Off, SerialStart(start.ctl, start.iterIdx), TurnsOf(ts));
    RewardStreamsAgree(u.cfg, start.ctl, start.iterIdx, ts);
  }

  /** The rewards do differ: a trial that reports 1.0, and then one that crashed after it had reported 2.0. */
  lemma RewardsCanDiffer(params: Params)
    ensures var cfg := Config(Objective("loss", Minimize), None, None, None, None, 10);
            var ts := [Trial(params, Outcome("ok", map["loss" := 1.0])), Trial(params, Outcome("failed", map["loss" := 2.0]))];
            Rewards(cfg, FRESH, 0, ts, false) == [1.0, -0.1] && Rewards(cfg, FRESH, 0, ts, true) == [1.0, 0.0]
  {
    var cfg := Config(Objective("loss", Minimize), None, None, None, None, 10);
    var a := Trial(params, Outcome("ok", map["loss" := 1.0]));
    var b := Trial(params, Outcome("failed", map["loss" := 2.0]));
    assert Value(a.outcome, cfg.objective) == Some(1.0) && Value(b.outcome, cfg.objective) == Some(2.0);
    assert [a][..0] == [] && [a, b][..1] == [a];
    assert Fold(cfg, FRESH, 0, [a]).bestScore == Some(1.0);
    assert Rewards(cfg, FRESH, 0, [a], false) == [1.0] && Rewards(cfg, FRESH, 0, [a], true) == [1.0];
  }

  // ---------------------------------------------------------------- the phases of a turn

  /** The facts about the phases of a turn that do not speak of outcomes. */
  ghost predicate Phases(u: Setup, result: int -> Outcome, s: State, t: Tick) {
    var s1 := Submit(u, s, t);
    var s2 := Drain(s1, t.finished, result);
    && Partition(s) && Partition(s2)
    && s1.completed == s.completed && s2.nextToProcess == s.nextToProcess
    && s2.inFlight.Keys == s1.inFlight.Keys - t.finished
    && s2.completed.Keys == s.completed.Keys + s1.inFlight.Keys * t.finished
    && s.completed.Keys !! s1.inFlight.Keys
    && s2.ctl == s.ctl && s2.done == s.done
  }

  lemma PhasesHold(u: Setup, result: int -> Outcome, start: State, s: State, t: Tick)
    requires Inv(u, result, start, s) && WellFormed(t.requests)
    ensures Phases(u, result, s, t)
  {
    SubmitInv(u, result, start, s, t);
    PartitionPhases(u, result, s, t);
  }

  lemma PartitionPhases(u: Setup, result: int -> Outcome, s: State, t: Tick)
    requires Partition(s) && Partition(Submit(u, s, t))
    ensures Phases(u, result, s, t)
  {
    var s1 := Submit(u, s, t);
    SubmitFrame(u, s, t);
    DrainPartition(s1, t.finished, result, s1.iterIdx);
    DrainMoves(s1, t.finished, result);
    DrainBelowFrame(s1, t.finished, result, s1.iterIdx);
    if s1.completed.Keys * s1.inFlight.Keys != {} {
      var i := Resources.Pick(s1.completed.Keys * s1.inFlight.Keys);
      assert false;
    }
  }

  lemma RunPhases(u: Setup, result: int -> Outcome, start: State, ticks: seq<Tick>, t: Tick)
    requires Start(start) && AllWellFormed(ticks + [t])
    ensures Phases(u, result, Run(u, result, start, ticks).state, t)
  {
    assert forall i :: 0 <= i < |ticks| ==> ticks[i] == (ticks + [t])[i];
    assert t == (ticks + [t])[|ticks|];
    RunInv(u, result, start, ticks);
    PhasesHold(u, result, start, Run(u, result, start, ticks).state, t);
  }

  lemma RunPartition(u: Setup, result: int -> Outcome, start: State, ticks: seq<Tick>)
    requires Start(start) && AllWellFormed(ticks)
    ensures Partition(Run(u, result, start, ticks).state)
  {
    RunInv(u, result, start, ticks);
  }

  /** The last turn of a run, and what precedes it. */
  lemma SplitLast(ticks: seq<Tick>)
    requires ticks != [] && AllWellFormed(ticks)
    ensures ticks == ticks[..|ticks| - 1] + [ticks[|ticks| - 1]]
    ensures AllWellFormed(ticks[..|ticks| - 1])
    ensures forall i :: 0 <= i < |ticks| - 1 ==> ticks[..|ticks| - 1][..i] == ticks[..i]
  {
  }

  // ---------------------------------------------------------------- sleeping and leaving

  /** The loop sleeps only while the trial it waits for is running, and it leaves only when nothing is left. */
  lemma SleepOrLeave(u: Setup, result: int -> Outcome, s: State, t: Tick)
    requires Phases(u, result, s, t)
    ensures var (s', ending) := Turn(u, result, s, t);
            && (ending == Slept ==> s'.nextToProcess in s'.inFlight)
            && (ending == Left ==> s'.inFlight == map[] && s'.completed == map[] && s'.nextToProcess == s'.iterIdx)
            && (ending == Committed ==> s'.done == s.done + 1)
            && (ending != Committed ==> s'.done == s.done && s'.ctl == s.ctl)
  {
    var s1 := Submit(u, s, t);
    var s2 := Drain(s1, t.finished, result);
    EmptyWhenCaughtUp(s);
    EmptyWhenCaughtUp(s2);
  }

  /** Nothing is in flight or waiting exactly when every submitted trial was committed. */
  lemma EmptyWhenCaughtUp(s: State)
    requires Partition(s)
    ensures s.inFlight == map[] && s.completed == map[] <==> s.nextToProcess == s.iterIdx
    ensures s.nextToProcess < s.iterIdx ==> s.nextToProcess in s.inFlight || s.nextToProcess in s.completed
  {
    if s.nextToProcess == s.iterIdx {
      if s.inFlight.Keys + s.completed.Keys != {} {
        var i := Resources.Pick(s.inFlight.Keys + s.completed.Keys);
        assert false;
      }
    } else {
      assert s.nextToProcess in s.inFlight || s.nextToProcess in s.completed;
    }
  }

  lemma {:induction false} SubmitAllFrame(u: Setup, s: State, requests: seq<Request>)
    ensures var s' := SubmitAll(u, s, requests);
            s' == s.(iterIdx := s'.iterIdx, inFlight := s'.inFlight, pool := s'.pool, proposed := s'.proposed)
            && s'.iterIdx >= s.iterIdx && |s'.proposed| - |s.proposed| == s'.iterIdx - s.iterIdx
    decreases |requests|
  {
    if requests != [] && !Stop(u, s, requests[0].interrupt) && !BudgetSpent(u, s) {
      var (pool, answer) := Resources.Acquired(s.pool, s.iterIdx, requests[0].cost);
      SubmitAllFrame(u, Admit(s, requests[0], pool), requests[1..]);
    }
  }

  lemma SubmitFrame(u: Setup, s: State, t: Tick)
    ensures var s' := Submit(u, s, t);
            s' == s.(iterIdx := s'.iterIdx, inFlight := s'.inFlight, pool := s'.pool, proposed := s'.proposed)
            && s'.iterIdx >= s.iterIdx
  {
    SubmitAllFrame(u, s, t.requests);
  }

  lemma {:induction false} LeavesEmpty(u: Setup, result: int -> Outcome, start: State, ticks: seq<Tick>)
    requires Start(start) && AllWellFormed(ticks)
    requires Run(u, result, start, ticks).left
    ensures Run(u, result, start, ticks).state.inFlight == map[] && Run(u, result, start, ticks).state.completed == map[]
    decreases |ticks|
  {
    SplitLast(ticks);
    var init, t := ticks[..|ticks| - 1], ticks[|ticks| - 1];
    if Run(u, result, start, init).left {
      LeavesEmpty(u, result, start, init);
    } else {
      RunPhases(u, result, start, init, t);
      SleepOrLeave(u, result, Run(u, result, start, init).state, t);
    }
  }

  /** When the loop has left, every submitted trial was committed exactly once, in submission order, and nothing
      is in flight, waiting or reserved; the counters that the checkpoint stores agree. */
  lemma LeavesNothingBehind(u: Setup, result: int -> Outcome, start: State, ticks: seq<Tick>)
    requires Start(start) && AllWellFormed(ticks)
    requires Run(u, result, start, ticks).left
    ensures var s := Run(u, result, start, ticks).state;
            && s.inFlight == map[] && s.completed == map[] && s.pending == map[] && s.pool.reservations == map[]
            && s.iterIdx == s.done == s.nextToProcess == start.iterIdx + |s.proposed|
            && |s.ctl.history| == |start.ctl.history| + |s.proposed|
            && (u.learnable ==> |s.rewards| == |s.proposed|)
  {
    LeavesEmpty(u, result, start, ticks);
    RunInv(u, result, start, ticks);
    var s := Run(u, result, start, ticks).state;
    EmptyWhenCaughtUp(s);
    BestNeverWorsens(u.cfg, start.ctl, start.iterIdx, CommittedTrials(result, start.iterIdx, s));
  }

  /** The checkpoint the engine writes when it leaves: its iteration number counts submissions, which by then are commits. */
  function SaveOnExit(s: State, elapsed: real): Option<SerialEngine.Checkpoint> {
    if s.done > 0 then Some(SerialEngine.Checkpoint(s.iterIdx - 1, s.ctl, elapsed)) else None
  }

  /** A campaign of the parallel engine can be continued by the serial engine: what it loads is the state a serial
      engine without stop guards would have reached on the committed trials, from the same start. For a campaign started
      afresh that is the state the trials describe. */
  lemma CheckpointIsSerial(u: Setup, result: int -> Outcome, start: State, ticks: seq<Tick>, elapsed: real)
    requires Start(start) && AllWellFormed(ticks)
    requires Run(u, result, start, ticks).left
    requires Run(u, result, start, ticks).state.done > 0 || (start.iterIdx == 0 && start.ctl == FRESH)
    ensures var s := Run(u, result, start, ticks).state;
            var disk := SaveOnExit(s, elapsed);
            && SerialEngine.Loadable(disk)
            && start.iterIdx <= s.nextToProcess == start.iterIdx + |s.proposed|
            && var ts := CommittedTrials(result, start.iterIdx, s);
               && SerialEngine.Agree(
                    SerialEngine.Resume(disk),
                    SerialEngine.Run(Unguarded(u.cfg), SerialEngine.Off, SerialStart(start.ctl, start.iterIdx), TurnsOf(ts)))
               && (start.iterIdx == 0 && start.ctl == FRESH ==> Describes(u.cfg, SerialEngine.Resume(disk).ctl, ts))
  {
    LeavesNothingBehind(u, result, start, ticks);
    ParallelRefinesSerial(u, result, start, ticks);
    var ts := CommittedTrials(result, start.iterIdx, Run(u, result, start, ticks).state);
    SerialCommitsAll(u.cfg, start.ctl, start.iterIdx, ts);
    FoldMeaning(u.cfg, ts);
  }

  // ---------------------------------------------------------------- budget, concurrency, resources

  lemma {:induction false} RangeSize(s: set<int>, a: int, b: int)
    requires a <= b && forall i :: i in s <==> a <= i < b
    ensures |s| == b - a
    decreases b - a
  {
    if a < b {
      RangeSize(s - {b - 1}, a, b - 1);
    } else if s != {} {
      var x := Resources.Pick(s);
      assert false;
    }
  }

  lemma DisjointSize(a: set<int>, b: set<int>)
    requires a !! b
    ensures |a + b| == |a| + |b|
  {
  }

  /** The trials in flight and completed number exactly those submitted and not yet committed. */
  lemma PartitionSize(s: State)
    requires Partition(s)
    ensures |s.inFlight| + |s.completed| == s.iterIdx - s.nextToProcess
  {
    assert |s.inFlight| == |s.inFlight.Keys| && |s.completed| == |s.completed.Keys|;
    if s.inFlight.Keys * s.completed.Keys != {} {
      var i := Resources.Pick(s.inFlight.Keys * s.completed.Keys);
      assert false;
    }
    DisjointSize(s.inFlight.Keys, s.completed.Keys);
    RangeSize(s.inFlight.Keys + s.completed.Keys, s.nextToProcess, s.iterIdx);
  }

  lemma {:induction false} SubmitAllBudget(u: Setup, s: State, requests: seq<Request>, bound: int)
    requires Partition(s) && u.cfg.maxIterations.Some? && u.cfg.maxIterations.value <= bound && s.iterIdx <= bound
    ensures SubmitAll(u, s, requests).iterIdx <= bound
    decreases |requests|
  {
    if requests != [] && !Stop(u, s, requests[0].interrupt) && !BudgetSpent(u, s) {
      var (pool, answer) := Resources.Acquired(s.pool, s.iterIdx, requests[0].cost);
      PartitionSize(s);
      AdmitPartition(s, requests[0], pool);
      SubmitAllBudget(u, Admit(s, requests[0], pool), requests[1..], bound);
    }
  }

  lemma TurnBudget(u: Setup, result: int -> Outcome, s: State, t: Tick, bound: int)
    requires Partition(s) && u.cfg.maxIterations.Some? && u.cfg.maxIterations.value <= bound && s.iterIdx <= bound
    ensures Turn(u, result, s, t).0.iterIdx <= bound
  {
    SubmitAllBudget(u, s, t.requests, bound);
    DrainBelowFrame(Submit(u, s, t), t.finished, result, Submit(u, s, t).iterIdx);
  }

  /** Committed, completed and running trials together never exceed the iteration budget, or the number of
      iterations the loop started with if that was already larger. */
  lemma {:induction false} BudgetHolds(u: Setup, result: int -> Outcome, start: State, ticks: seq<Tick>)
    requires Start(start) && AllWellFormed(ticks) && u.cfg.maxIterations.Some?
    ensures var s := Run(u, result, start, ticks).state;
            && s.done + |s.inFlight| + |s.completed| == s.iterIdx
            && s.iterIdx <= Max(u.cfg.maxIterations.value, start.iterIdx)
    decreases |ticks|
  {
    RunPartition(u, result, start, ticks);
    PartitionSize(Run(u, result, start, ticks).state);
    if ticks != [] {
      SplitLast(ticks);
      var init, t := ticks[..|ticks| - 1], ticks[|ticks| - 1];
      BudgetHolds(u, result, start, init);
      RunPartition(u, result, start, init);
      TurnBudget(u, result, Run(u, result, start, init).state, t, Max(u.cfg.maxIterations.value, start.iterIdx));
    }
  }

  lemma MapGrows(m: map<int, Submitted>, i: int, v: Submitted)
    ensures |m[i := v]| <= |m| + 1
  {
    assert m[i := v].Keys == m.Keys + {i};
  }

  lemma {:induction false} SubmitAllCount(u: Setup, s: State, requests: seq<Request>)
    ensures |SubmitAll(u, s, requests).inFlight| <= |s.inFlight| + |requests|
    decreases |requests|
  {
    if requests != [] && !Stop(u, s, requests[0].interrupt) && !BudgetSpent(u, s) {
      var (pool, answer) := Resources.Acquired(s.pool, s.iterIdx, requests[0].cost);
      var s' := Admit(s, requests[0], pool);
      MapGrows(s.inFlight, s.iterIdx, Submitted(s.iterIdx, requests[0].params, requests[0].cost));
      SubmitAllCount(u, s', requests[1..]);
    }
  }

  /** A policy that returns at most as many proposals as it was asked for. */
  predicate AnswersInBounds(u: Setup, result: int -> Outcome, start: State, ticks: seq<Tick>) {
    forall i :: 0 <= i < |ticks| ==> |ticks[i].requests| <= Max(0, Slots(u, Run(u, result, start, ticks[..i]).state))
  }

  lemma SubmitConcurrency(u: Setup, s: State, t: Tick)
    requires |s.inFlight| <= u.maxConcurrency && |t.requests| <= Max(0, Slots(u, s))
    ensures |Submit(u, s, t).inFlight| <= u.maxConcurrency
  {
    SubmitAllCount(u, s, t.requests);
  }

  lemma TurnConcurrency(u: Setup, result: int -> Outcome, s: State, t: Tick)
    requires Phases(u, result, s, t)
    requires |s.inFlight| <= u.maxConcurrency && |t.requests| <= Max(0, Slots(u, s))
    ensures |Turn(u, result, s, t).0.inFlight| <= u.maxConcurrency
  {
    var s1 := Submit(u, s, t);
    var s2 := Drain(s1, t.finished, result);
    SubmitConcurrency(u, s, t);
    SmallerMap(s2.inFlight, s1.inFlight);
    CommitLeavesFlight(u, s2);
    TurnEnds(u, result, s, t, s2);
  }

  lemma SmallerMap(a: map<int, Submitted>, b: map<int, Submitted>)
    requires a.Keys <= b.Keys
    ensures |a| <= |b|
  {
    SubsetSize(a.Keys, b.Keys);
  }

  lemma CommitLeavesFlight(u: Setup, s: State)
    ensures s.nextToProcess in s.completed ==> CommitNext(u, s).inFlight == s.inFlight
    ensures s.nextToProcess in s.completed ==> CommitNext(u, s).completed == s.completed - {s.nextToProcess}
  {
  }

  lemma BoundsOfPrefix(u: Setup, result: int -> Outcome, start: State, ticks: seq<Tick>)
    requires ticks != [] && AnswersInBounds(u, result, start, ticks)
    ensures AnswersInBounds(u, result, start, ticks[..|ticks| - 1])
    ensures var before := Run(u, result, start, ticks[..|ticks| - 1]).state;
            |ticks[|ticks| - 1].requests| <= Max(0, Slots(u, before))
  {
    var init := ticks[..|ticks| - 1];
    forall i | 0 <= i < |init|
      ensures |init[i].requests| <= Max(0, Slots(u, Run(u, result, start, init[..i]).state))
    {
      assert init[..i] == ticks[..i];
    }
  }

  lemma ConcurrencyStep(u: Setup, result: int -> Outcome, p: Progress, ticks: seq<Tick>, after: Progress)
    requires !p.left && ticks != [] && Phases(u, result, p.state, ticks[|ticks| - 1])
    requires |p.state.inFlight| <= u.maxConcurrency && |ticks[|ticks| - 1].requests| <= Max(0, Slots(u, p.state))
    requires after.state == Turn(u, result, p.state, ticks[|ticks| - 1]).0
    ensures |after.state.inFlight| <= u.maxConcurrency
  {
    TurnConcurrency(u, result, p.state, ticks[|ticks| - 1]);
  }

  lemma RunStep(u: Setup, result: int -> Outcome, start: State, ticks: seq<Tick>)
    requires ticks != []
    ensures var p := Run(u, result, start, ticks[..|ticks| - 1]);
            Run(u, result, start, ticks).state
            == if p.left then p.state else Turn(u, result, p.state, ticks[|ticks| - 1]).0
  {
  }

  /** No more than `maxConcurrency` trials ever run at once, if the policy answers in bounds. */
  lemma {:induction false} ConcurrencyHolds(u: Setup, result: int -> Outcome, start: State, ticks: seq<Tick>)
    requires Start(start) && AllWellFormed(ticks) && AnswersInBounds(u, result, start, ticks)
    ensures |Run(u, result, start, ticks).state.inFlight| <= u.maxConcurrency
    decreases |ticks|
  {
    if ticks != [] {
      SplitLast(ticks);
      BoundsOfPrefix(u, result, start, ticks);
      var init := ticks[..|ticks| - 1];
      ConcurrencyHolds(u, result, start, init);
      RunPhases(u, result, start, init, ticks[|ticks| - 1]);
      RunStep(u, result, start, ticks);
      if !Run(u, result, start, init).left {
        ConcurrencyStep(u, result, Run(u, result, start, init), ticks, Run(u, result, start, ticks));
      }
    }
  }

  lemma {:induction false} SubsetSize(a: set<int>, b: set<int>)
    requires a <= b
    ensures |a| <= |b|
    decreases |b|
  {
    if b != {} {
      var x := Resources.Pick(b);
      SubsetSize(a - {x}, b - {x});
    }
  }

  /** In every reachable state the running trials together cost no more than the pool has, and exactly what it
      has booked. A resource that the pool does not know is not used at all. */
  lemma RunningCostFits(u: Setup, result: int -> Outcome, start: State, ticks: seq<Tick>, k: string)
    requires Start(start) && AllWellFormed(ticks)
    ensures var s := Run(u, result, start, ticks).state;
            && Resources.Total(Costs(s.inFlight), k) == Resources.Get(s.pool.inUse, k)
            && 0 <= Resources.Get(s.pool.inUse, k) <= Resources.Get(start.pool.capacity, k)
  {
    RunInv(u, result, start, ticks);
  }

  /** Of the proposals, the first ones are submitted, in order, up to the first one at which a stop condition holds, the
      budget is spent, or the pool refuses: each submitted one was submitted while no stop condition held. */
  ghost predicate SubmitsPrefix(u: Setup, s: State, requests: seq<Request>, s': State) {
    && s.iterIdx <= s'.iterIdx <= s.iterIdx + |requests|
    && |s'.proposed| == |s.proposed| + (s'.iterIdx - s.iterIdx) && s.proposed <= s'.proposed
    && (forall k :: 0 <= k < s'.iterIdx - s.iterIdx ==>
          && !Stop(u, s, requests[k].interrupt)
          && s'.proposed[|s.proposed| + k] == Submitted(s.iterIdx + k, requests[k].params, requests[k].cost))
    && (s'.iterIdx < s.iterIdx + |requests| ==> !SubmitOne(u, s', requests[s'.iterIdx - s.iterIdx]).1)
  }

  lemma {:induction false} SubmitAllPrefix(u: Setup, s: State, requests: seq<Request>)
    ensures SubmitsPrefix(u, s, requests, SubmitAll(u, s, requests))
    decreases |requests|
  {
    if requests != [] && SubmitOne(u, s, requests[0]).1 {
      var next := SubmitOne(u, s, requests[0]).0;
      SubmitAllPrefix(u, next, requests[1..]);
      PrefixGrows(u, s, requests, next, SubmitAll(u, next, requests[1..]));
    }
  }

  /** Submitting changes nothing that a stop condition looks at. */
  lemma StopUnchanged(u: Setup, s: State, r: Request, next: State, interrupt: bool)
    requires SubmitOne(u, s, r) == (next, true)
    ensures Stop(u, next, interrupt) == Stop(u, s, interrupt)
    ensures next.iterIdx == s.iterIdx + 1 && next.proposed == s.proposed + [Submitted(s.iterIdx, r.params, r.cost)]
    ensures !Stop(u, s, r.interrupt)
  {
  }

  lemma PrefixGrows(u: Setup, s: State, requests: seq<Request>, next: State, s': State)
    requires requests != [] && SubmitOne(u, s, requests[0]) == (next, true)
    requires SubmitsPrefix(u, next, requests[1..], s')
    ensures SubmitsPrefix(u, s, requests, s')
  {
    StopUnchanged(u, s, requests[0], next, false);
    forall k | 0 <= k < s'.iterIdx - s.iterIdx
      ensures !Stop(u, s, requests[k].interrupt)
      ensures s'.proposed[|s.proposed| + k] == Submitted(s.iterIdx + k, requests[k].params, requests[k].cost)
    {
      StopUnchanged(u, s, requests[0], next, requests[k].interrupt);
      if k > 0 {
        assert requests[k] == requests[1..][k - 1];
        assert !Stop(u, next, requests[1..][k - 1].interrupt);
      } else {
        assert s'.proposed[|s.proposed|] == next.proposed[|s.proposed|];
      }
    }
  }

  /** No trial is submitted while a stop condition holds: not at the start of the submit phase, and not later in it. */
  lemma NoSubmissionWhileStopped(u: Setup, s: State, t: Tick)
    ensures SubmitsPrefix(u, s, t.requests, Submit(u, s, t)) || Submit(u, s, t) == s
    ensures Submit(u, s, t).iterIdx > s.iterIdx ==> !Stop(u, s, t.interruptSubmit)
    ensures forall k :: 0 <= k < Submit(u, s, t).iterIdx - s.iterIdx && k < |t.requests| ==> !Stop(u, s, t.requests[k].interrupt)
    ensures Stop(u, s, t.interruptSubmit) || (t.requests != [] && Stop(u, s, t.requests[0].interrupt)) ==> Submit(u, s, t) == s
  {
    SubmitAllPrefix(u, s, t.requests);
  }

  // ---------------------------------------------------------------- termination

  /** What is left to do: each trial of the budget must complete and must be committed. */
  function Remaining(max: int, s: State): int {
    (max - s.done) + (max - s.done - |s.completed|)
  }

  /** If the loop sleeps after this turn, some future finished during it. */
  predicate Productive(u: Setup, result: int -> Outcome, s: State, t: Tick) {
    Turn(u, result, s, t).1 == Slept ==> Submit(u, s, t).inFlight.Keys * t.finished != {}
  }

  lemma DrainSize(u: Setup, result: int -> Outcome, s: State, t: Tick)
    requires Phases(u, result, s, t)
    ensures var s1 := Submit(u, s, t);
            |Drain(s1, t.finished, result).completed| == |s.completed| + |s1.inFlight.Keys * t.finished|
  {
    var s1 := Submit(u, s, t);
    DisjointSize(s.completed.Keys, s1.inFlight.Keys * t.finished);
    assert |s.completed| == |s.completed.Keys|;
    assert |Drain(s1, t.finished, result).completed| == |Drain(s1, t.finished, result).completed.Keys|;
  }

  lemma CommitSize(u: Setup, s: State)
    requires s.nextToProcess in s.completed
    ensures |CommitNext(u, s).completed| == |s.completed| - 1
    ensures CommitNext(u, s).done == s.done + 1
  {
    var s' := CommitNext(u, s);
    assert s.completed.Keys == s'.completed.Keys + {s.nextToProcess as int};
    DisjointSize(s'.completed.Keys, {s.nextToProcess as int});
    assert |s'.completed| == |s'.completed.Keys| && |s.completed| == |s.completed.Keys|;
  }

  /** No turn that does not leave the loop moves the end away, and every productive one brings it nearer. */
  lemma TurnMakesProgress(u: Setup, result: int -> Outcome, s: State, t: Tick, max: int)
    requires Phases(u, result, s, t) && Turn(u, result, s, t).1 != Left
    ensures Remaining(max, Turn(u, result, s, t).0) <= Remaining(max, s)
    ensures Productive(u, result, s, t) ==> Remaining(max, Turn(u, result, s, t).0) < Remaining(max, s)
  {
    DrainSize(u, result, s, t);
    var s2 := Drain(Submit(u, s, t), t.finished, result);
    TurnEnds(u, result, s, t, s2);
    if s2.nextToProcess in s2.completed {
      CommitSize(u, s2);
    }
  }

  /** The number of productive turns; the others are idle polls, at which no future is done. */
  function ProductiveTurns(u: Setup, result: int -> Outcome, start: State, ticks: seq<Tick>): nat
    decreases |ticks|
  {
    if ticks == [] then 0
    else
      var init := ticks[..|ticks| - 1];
      ProductiveTurns(u, result, start, init)
      + if Productive(u, result, Run(u, result, start, init).state, ticks[|ticks| - 1]) then 1 else 0
  }

  lemma {:induction false} RemainingShrinks(u: Setup, result: int -> Outcome, start: State, ticks: seq<Tick>, max: int)
    requires Start(start) && AllWellFormed(ticks)
    ensures var p := Run(u, result, start, ticks);
            !p.left ==> Remaining(max, p.state) <= Remaining(max, start) - ProductiveTurns(u, result, start, ticks)
    decreases |ticks|
  {
    if ticks != [] {
      SplitLast(ticks);
      var init, t := ticks[..|ticks| - 1], ticks[|ticks| - 1];
      RemainingShrinks(u, result, start, init, max);
      RunPhases(u, result, start, init, t);
      var p := Run(u, result, start, init);
      if !p.left && Turn(u, result, p.state, t).1 != Left {
        TurnMakesProgress(u, result, p.state, t, max);
      }
    }
  }

  /** With an iteration budget the loop ends: after more than twice the remaining iterations in productive turns, with
      any number of idle ones between them, it has left; also when a proposal costs more than the pool can ever give. */
  lemma LoopTerminates(u: Setup, result: int -> Outcome, start: State, ticks: seq<Tick>)
    requires Start(start) && AllWellFormed(ticks) && u.cfg.maxIterations.Some?
    requires ProductiveTurns(u, result, start, ticks) > 2 * Max(0, u.cfg.maxIterations.value - start.iterIdx)
    ensures Run(u, result, start, ticks).left
  {
    var max := Max(u.cfg.maxIterations.value, start.iterIdx);
    RemainingShrinks(u, result, start, ticks, max);
    BudgetHolds(u, result, start, ticks);
  }
}
