/** When the parallel engine submits trials after a stop condition has held, and what it has to do with the guards of the
    serial engine. */
module ParallelStops {
  import opened Wrappers
  import opened Trials
  import opened ParallelEngine
  import opened ParallelCorrectness
  import opened ParallelTheorems
  import Resources

  // ---------------------------------------------------------------- stops for good

  lemma TurnFrame(u: Setup, result: int -> Outcome, s: State, t: Tick)
    ensures Turn(u, result, s, t).0.done >= s.done && Turn(u, result, s, t).0.nextToProcess >= s.nextToProcess
    ensures Turn(u, result, s, t).0.proposed == s.proposed || Turn(u, result, s, t).0.proposed == Submit(u, s, t).proposed
    ensures !Stop(u, s, t.interruptLoop) ==> Turn(u, result, s, t).0.proposed == Submit(u, s, t).proposed
    ensures s.proposed <= Submit(u, s, t).proposed
  {
    SubmitFrame(u, s, t);
    var s1 := Submit(u, s, t);
    DrainBelowFrame(s1, t.finished, result, s1.iterIdx);
    TurnEnds(u, result, s, t, Drain(s1, t.finished, result));
    SubmitAllPrefix(u, s, t.requests);
  }

  /** A stop for good: once the budget is committed, or as long as the shutdown flag or the clock stop the submit phase,
      nothing is submitted any more. */
  lemma {:induction false} StoppedForGood(u: Setup, result: int -> Outcome, s: State, ticks: seq<Tick>)
    requires (u.cfg.maxIterations.Some? && s.done >= u.cfg.maxIterations.value)
          || forall i :: 0 <= i < |ticks| ==> ticks[i].interruptSubmit
    ensures Run(u, result, s, ticks).state.proposed == s.proposed
    ensures Run(u, result, s, ticks).state.done >= s.done
    decreases |ticks|
  {
    if ticks != [] {
      var init, t := ticks[..|ticks| - 1], ticks[|ticks| - 1];
      StoppedForGood(u, result, s, init);
      var m := Run(u, result, s, init).state;
      TurnFrame(u, result, m, t);
      NoSubmissionWhileStopped(u, m, t);
    }
  }

  // ---------------------------------------------------------------- stops that a draining trial can lift

  /** The trials submitted and not yet committed, with the outcomes they will return. */
  function Pending(result: int -> Outcome, base: nat, s: State): (ts: seq<Trial>)
    requires Counted(base, s)
    ensures |ts| == s.iterIdx - s.nextToProcess
  {
    seq(s.iterIdx - s.nextToProcess, k requires 0 <= k < s.iterIdx - s.nextToProcess =>
      Trial(s.proposed[s.nextToProcess - base + k].params, result(s.nextToProcess + k)))
  }

  predicate Counted(base: nat, s: State) {
    base <= s.nextToProcess <= s.iterIdx && |s.proposed| == s.iterIdx - base
  }

  predicate GuardsDown(cfg: Config, c: Control) {
    !NoImproveGuard(cfg, c.streak) && !FailureRateGuard(cfg, c.recent)
  }

  /** The control state after the first `n` pending trials are committed. */
  function After(u: Setup, result: int -> Outcome, base: nat, s: State, n: nat): Control
    requires Counted(base, s) && n <= s.iterIdx - s.nextToProcess
  {
    Fold(u.cfg, s.ctl, s.nextToProcess, Pending(result, base, s)[..n])
  }

  /** Some of the pending trials, committed in order, bring the guards down. */
  ghost predicate PendingLift(u: Setup, result: int -> Outcome, base: nat, s: State)
    requires Counted(base, s)
  {
    exists n: nat :: n <= s.iterIdx - s.nextToProcess && GuardsDown(u.cfg, After(u, result, base, s, n))
  }

  lemma CommittedSplit(result: int -> Outcome, base: nat, s: State, e: State)
    requires Counted(base, s) && Counted(base, e)
    requires e.proposed == s.proposed && s.nextToProcess <= e.nextToProcess
    ensures e.iterIdx == s.iterIdx
    ensures CommittedTrials(result, base, e)
         == CommittedTrials(result, base, s) + Pending(result, base, s)[..e.nextToProcess - s.nextToProcess]
  {
  }

  lemma InvFold(u: Setup, result: int -> Outcome, start: State, s: State)
    requires Inv(u, result, start, s)
    ensures Counted(start.iterIdx, s)
    ensures s.ctl == Fold(u.cfg, start.ctl, start.iterIdx, CommittedTrials(result, start.iterIdx, s))
  {
  }

  /** As long as nothing new is submitted, the control state is that after the pending trials committed so far. */
  lemma CtlAfter(u: Setup, result: int -> Outcome, start: State, s: State, e: State)
    requires Inv(u, result, start, s) && Inv(u, result, start, e)
    requires e.proposed == s.proposed && s.nextToProcess <= e.nextToProcess
    ensures Counted(start.iterIdx, s) && e.iterIdx == s.iterIdx && e.nextToProcess <= s.iterIdx
    ensures e.ctl == After(u, result, start.iterIdx, s, e.nextToProcess - s.nextToProcess)
  {
    InvFold(u, result, start, s);
    InvFold(u, result, start, e);
    FoldSplit(u, result, start, s, e);
  }

  lemma FoldSplit(u: Setup, result: int -> Outcome, start: State, s: State, e: State)
    requires Counted(start.iterIdx, s) && Counted(start.iterIdx, e)
    requires s.ctl == Fold(u.cfg, start.ctl, start.iterIdx, CommittedTrials(result, start.iterIdx, s))
    requires e.ctl == Fold(u.cfg, start.ctl, start.iterIdx, CommittedTrials(result, start.iterIdx, e))
    requires e.proposed == s.proposed && s.nextToProcess <= e.nextToProcess
    ensures e.iterIdx == s.iterIdx
    ensures e.ctl == After(u, result, start.iterIdx, s, e.nextToProcess - s.nextToProcess)
  {
    var base, more := start.iterIdx, Pending(result, start.iterIdx, s)[..e.nextToProcess - s.nextToProcess];
    CommittedSplit(result, base, s, e);
    FoldAppend(u.cfg, start.ctl, base, CommittedTrials(result, base, s), more);
  }

  lemma {:induction false} RunsOn(u: Setup, result: int -> Outcome, start: State, s: State, ticks: seq<Tick>)
    requires Inv(u, result, start, s) && AllWellFormed(ticks)
    ensures var e := Run(u, result, s, ticks).state;
            Inv(u, result, start, e) && e.nextToProcess >= s.nextToProcess && s.proposed <= e.proposed
    decreases |ticks|
  {
    if ticks != [] {
      SplitLast(ticks);
      var init, t := ticks[..|ticks| - 1], ticks[|ticks| - 1];
      RunsOn(u, result, start, s, init);
      TurnInv(u, result, start, Run(u, result, s, init).state, t);
      TurnFrame(u, result, Run(u, result, s, init).state, t);
      RunStep(u, result, s, ticks);
    }
  }

  /** If the guards are up and the pending trials do not bring them down, or the budget is submitted, then nothing is ever
      submitted again, whatever happens. */
  lemma {:induction false} NeverLifted(u: Setup, result: int -> Outcome, start: State, s: State, ticks: seq<Tick>)
    requires Inv(u, result, start, s) && AllWellFormed(ticks) && Counted(start.iterIdx, s)
    requires !PendingLift(u, result, start.iterIdx, s) || (u.cfg.maxIterations.Some? && s.iterIdx >= u.cfg.maxIterations.value)
    ensures Run(u, result, s, ticks).state.proposed == s.proposed
    decreases |ticks|
  {
    if ticks != [] {
      SplitLast(ticks);
      var init, t := ticks[..|ticks| - 1], ticks[|ticks| - 1];
      NeverLifted(u, result, start, s, init);
      RunsOn(u, result, start, s, init);
      RunStep(u, result, s, ticks);
      var m := Run(u, result, s, init).state;
      CtlAfter(u, result, start, s, m);
      NothingSubmitted(u, result, start, s, m, t);
    }
  }

  lemma NothingSubmitted(u: Setup, result: int -> Outcome, start: State, s: State, m: State, t: Tick)
    requires Counted(start.iterIdx, s) && Partition(m) && m.iterIdx == s.iterIdx
    requires s.nextToProcess <= m.nextToProcess <= s.iterIdx
    requires m.ctl == After(u, result, start.iterIdx, s, m.nextToProcess - s.nextToProcess)
    requires !PendingLift(u, result, start.iterIdx, s) || (u.cfg.maxIterations.Some? && s.iterIdx >= u.cfg.maxIterations.value)
    ensures Turn(u, result, m, t).0.proposed == m.proposed
  {
    TurnFrame(u, result, m, t);
    NoSubmissionWhileStopped(u, m, t);
    SubmitFrame(u, m, t);
    if u.cfg.maxIterations.Some? && s.iterIdx >= u.cfg.maxIterations.value {
      SubmitAllBudget(u, m, t.requests, m.iterIdx);
    } else {
      assert !GuardsDown(u.cfg, m.ctl);
    }
    SubmitAllPrefix(u, m, t.requests);
  }

  // ---------------------------------------------------------------- lifting a stop

  /** No interruption, and a policy that proposes nothing but `r`. */
  predicate Calm(ticks: seq<Tick>, r: Request) {
    forall i :: 0 <= i < |ticks| ==>
      && !ticks[i].interruptLoop && !ticks[i].interruptSubmit
      && forall k :: 0 <= k < |ticks[i].requests| ==> ticks[i].requests[k] == r
  }

  /** A proposal that the pool admits when nothing is running. */
  predicate FitsEmpty(capacity: map<string, int>, r: Request) {
    && !r.interrupt && Resources.Distinct(r.cost)
    && forall i :: 0 <= i < |r.cost| ==> 0 <= r.cost[i].1 <= Resources.Get(capacity, r.cost[i].0)
  }

  /** A turn in which everything running finishes and nothing is proposed. */
  function Finish(s: State): Tick {
    Tick(false, false, [], s.inFlight.Keys)
  }

  lemma FinishTurn(u: Setup, result: int -> Outcome, start: State, s: State, e: State)
    requires Inv(u, result, start, e) && e.nextToProcess < e.iterIdx && e.inFlight.Keys <= s.inFlight.Keys
    ensures var (e', ending) := Turn(u, result, e, Finish(s));
            && ending == Committed && e'.proposed == e.proposed && e'.iterIdx == e.iterIdx
            && e'.nextToProcess == e.nextToProcess + 1 && e'.inFlight == map[]
  {
    EmptyWhenCaughtUp(e);
    assert Submit(u, e, Finish(s)) == e;
    DrainInv(u, result, start, e, Finish(s).finished);
    var e2 := Drain(e, Finish(s).finished, result);
    assert e2.inFlight.Keys == {};
    EmptyWhenCaughtUp(e2);
    CommitLeavesFlight(u, e2);
    CommitNextFrame(u, e2);
  }

  lemma CommitNextFrame(u: Setup, s: State)
    requires s.nextToProcess in s.completed
    ensures var s' := CommitNext(u, s);
            s'.proposed == s.proposed && s'.iterIdx == s.iterIdx && s'.nextToProcess == s.nextToProcess + 1
  {
  }

  function Repeat(t: Tick, n: nat): (ticks: seq<Tick>)
    ensures |ticks| == n
  {
    seq(n, i => t)
  }

  /** Turn after turn, the pending trials are committed, and nothing is left running. */
  lemma {:induction false} FinishTurns(u: Setup, result: int -> Outcome, start: State, s: State, n: nat)
    requires Inv(u, result, start, s) && 1 <= n <= s.iterIdx - s.nextToProcess
    ensures var p := Run(u, result, s, Repeat(Finish(s), n));
            && !p.left && p.state.proposed == s.proposed && p.state.iterIdx == s.iterIdx
            && p.state.nextToProcess == s.nextToProcess + n && p.state.inFlight == map[]
  {
    var ticks := Repeat(Finish(s), n);
    var init := Repeat(Finish(s), n - 1);
    assert ticks[..n - 1] == init;
    if n > 1 {
      FinishTurns(u, result, start, s, n - 1);
    } else {
      assert init == [];
    }
    RunsOn(u, result, start, s, init);
    FinishTurn(u, result, start, s, Run(u, result, s, init).state);
  }

  lemma SubmitsFitting(u: Setup, e: State, r: Request, t: Tick)
    requires Partition(e) && e.inFlight == map[] && GuardsDown(u.cfg, e.ctl) && u.maxConcurrency >= 1
    requires u.cfg.maxIterations.Some? ==> e.iterIdx < u.cfg.maxIterations.value
    requires t.requests == [r] && !t.interruptSubmit && !r.interrupt
    requires Resources.Acquired(e.pool, e.iterIdx, r.cost).1 == Resources.Granted
    ensures !Stop(u, e, false) && |Submit(u, e, t).proposed| == |e.proposed| + 1
  {
    PartitionSize(e);
    assert [r][1..] == [];
    var next := SubmitOne(u, e, r).0;
    assert SubmitAll(u, e, [r]) == SubmitAll(u, next, []);
  }

  /** With nothing running, the guards down and budget left, a proposal that fits is submitted. */
  lemma Resubmits(u: Setup, result: int -> Outcome, start: State, e: State, r: Request)
    requires Inv(u, result, start, e) && e.inFlight == map[] && GuardsDown(u.cfg, e.ctl)
    requires u.maxConcurrency >= 1 && FitsEmpty(start.pool.capacity, r)
    requires u.cfg.maxIterations.Some? ==> e.iterIdx < u.cfg.maxIterations.value
    ensures |Turn(u, result, e, Tick(false, false, [r], {})).0.proposed| == |e.proposed| + 1
  {
    var t := Tick(false, false, [r], {});
    EmptyPoolAdmits(start, e, r);
    SubmitsFitting(u, e, r, t);
    TurnFrame(u, result, e, t);
  }

  lemma EmptyPoolAdmits(start: State, e: State, r: Request)
    requires Admitted(start.pool.capacity, e) && e.inFlight == map[] && FitsEmpty(start.pool.capacity, r)
    ensures Resources.Acquired(e.pool, e.iterIdx, r.cost).1 == Resources.Granted
  {
    Resources.AcquireConserves(e.pool, e.iterIdx, r.cost);
    assert e.pool.reservations == map[];
    forall k
      ensures Resources.Get(e.pool.inUse, k) == 0
    {
      assert Resources.Total(map[], k) == 0;
    }
  }

  /** Exactly when a stop can be lifted. The guards are up. Without interruption, and with a policy that proposes what the
      pool can admit, some later trial can be submitted if and only if budget is left and some of the trials that were
      pending when the guards were up bring them down. That set of trials does not grow in the meantime. */
  lemma LaterSubmissionIff(u: Setup, result: int -> Outcome, start: State, s: State, r: Request)
    requires Inv(u, result, start, s) && Counted(start.iterIdx, s) && !GuardsDown(u.cfg, s.ctl)
    requires u.maxConcurrency >= 1 && FitsEmpty(start.pool.capacity, r)
    ensures (exists ticks: seq<Tick> :: Calm(ticks, r) && Run(u, result, s, ticks).state.proposed != s.proposed)
       <==> (u.cfg.maxIterations.Some? ==> s.iterIdx < u.cfg.maxIterations.value)
            && PendingLift(u, result, start.iterIdx, s)
  {
    if ticks: seq<Tick> :| Calm(ticks, r) && Run(u, result, s, ticks).state.proposed != s.proposed {
      CalmIsWellFormed(start.pool.capacity, ticks, r);
      if !PendingLift(u, result, start.iterIdx, s)
         || (u.cfg.maxIterations.Some? && s.iterIdx >= u.cfg.maxIterations.value) {
        NeverLifted(u, result, start, s, ticks);
        assert false;
      }
    }
    if (u.cfg.maxIterations.Some? ==> s.iterIdx < u.cfg.maxIterations.value) && PendingLift(u, result, start.iterIdx, s) {
      var ticks := Lift(u, result, start, s, r);
    }
  }

  lemma CalmIsWellFormed(capacity: map<string, int>, ticks: seq<Tick>, r: Request)
    requires Calm(ticks, r) && FitsEmpty(capacity, r)
    ensures AllWellFormed(ticks)
  {
  }

  /** Commit `n` pending trials, then propose. */
  function LiftTicks(s: State, r: Request, n: nat): seq<Tick> {
    Repeat(Finish(s), n) + [Tick(false, false, [r], {})]
  }

  lemma LiftTicksCalm(s: State, r: Request, n: nat)
    ensures Calm(LiftTicks(s, r, n), r)
  {
  }

  lemma FirstLift(u: Setup, result: int -> Outcome, base: nat, s: State) returns (n: nat)
    requires Counted(base, s) && !GuardsDown(u.cfg, s.ctl) && PendingLift(u, result, base, s)
    ensures 1 <= n <= s.iterIdx - s.nextToProcess && GuardsDown(u.cfg, After(u, result, base, s, n))
  {
    n :| n <= s.iterIdx - s.nextToProcess && GuardsDown(u.cfg, After(u, result, base, s, n));
    assert Pending(result, base, s)[..0] == [];
  }

  lemma Lift(u: Setup, result: int -> Outcome, start: State, s: State, r: Request) returns (ticks: seq<Tick>)
    requires Inv(u, result, start, s) && Counted(start.iterIdx, s) && !GuardsDown(u.cfg, s.ctl)
    requires u.maxConcurrency >= 1 && FitsEmpty(start.pool.capacity, r)
    requires u.cfg.maxIterations.Some? ==> s.iterIdx < u.cfg.maxIterations.value
    requires PendingLift(u, result, start.iterIdx, s)
    ensures Calm(ticks, r) && Run(u, result, s, ticks).state.proposed != s.proposed
  {
    var n := FirstLift(u, result, start.iterIdx, s);
    LiftAfter(u, result, start, s, r, n);
    LiftTicksCalm(s, r, n);
    ticks := LiftTicks(s, r, n);
  }

  /** Once the first `n` pending trials are committed. */
  lemma LiftAfter(u: Setup, result: int -> Outcome, start: State, s: State, r: Request, n: nat)
    requires Inv(u, result, start, s) && Counted(start.iterIdx, s) && 1 <= n <= s.iterIdx - s.nextToProcess
    requires u.maxConcurrency >= 1 && FitsEmpty(start.pool.capacity, r)
    requires u.cfg.maxIterations.Some? ==> s.iterIdx < u.cfg.maxIterations.value
    requires GuardsDown(u.cfg, After(u, result, start.iterIdx, s, n))
    ensures |Run(u, result, s, LiftTicks(s, r, n)).state.proposed| == |s.proposed| + 1
  {
    var drain, last := Repeat(Finish(s), n), Tick(false, false, [r], {});
    FinishTurns(u, result, start, s, n);
    RunsOn(u, result, start, s, drain);
    CtlAfter(u, result, start, s, Run(u, result, s, drain).state);
    Resubmits(u, result, start, Run(u, result, s, drain).state, r);
    assert (drain + [last])[..n] == drain;
    RunStep(u, result, s, drain + [last]);
  }

  // ---------------------------------------------------------------- what lifts each guard

  /** The first pending trial that improves on everything committed before it. */
  ghost predicate PendingImproves(u: Setup, result: int -> Outcome, base: nat, s: State, j: nat)
    requires Counted(base, s) && j < s.iterIdx - s.nextToProcess
  {
    Improves(After(u, result, base, s, j).bestScore, Pending(result, base, s)[j].outcome, u.cfg.objective)
  }

  lemma AfterStep(u: Setup, result: int -> Outcome, base: nat, s: State, n: nat)
    requires Counted(base, s) && n < s.iterIdx - s.nextToProcess
    ensures After(u, result, base, s, n + 1)
         == Commit(u.cfg, After(u, result, base, s, n), s.nextToProcess + n, Pending(result, base, s)[n])
  {
    var ts := Pending(result, base, s);
    assert ts[..n + 1][..n] == ts[..n];
  }

  lemma {:induction false} StreakGrows(u: Setup, result: int -> Outcome, base: nat, s: State, n: nat)
    requires Counted(base, s) && n <= s.iterIdx - s.nextToProcess
    requires forall j: nat :: j < n ==> !PendingImproves(u, result, base, s, j)
    ensures After(u, result, base, s, n).streak == s.ctl.streak + n
  {
    if n == 0 {
      assert Pending(result, base, s)[..0] == [];
    } else {
      StreakGrows(u, result, base, s, n - 1);
      AfterStep(u, result, base, s, n - 1);
      assert !PendingImproves(u, result, base, s, n - 1);
    }
  }

  /** The streak guard, alone, is lifted by the pending trials exactly if its limit is positive and one of them improves
      on the best score that it will find. */
  lemma StreakLiftedIff(u: Setup, result: int -> Outcome, base: nat, s: State)
    requires Counted(base, s) && u.cfg.failureRateLimit == None
    requires u.cfg.noImproveLimit.Some? && s.ctl.streak >= u.cfg.noImproveLimit.value
    ensures PendingLift(u, result, base, s)
       <==> u.cfg.noImproveLimit.value >= 1
            && exists j: nat :: j < s.iterIdx - s.nextToProcess && PendingImproves(u, result, base, s, j)
  {
    if u.cfg.noImproveLimit.value >= 1 {
      if j: nat :| j < s.iterIdx - s.nextToProcess && PendingImproves(u, result, base, s, j) {
        AfterStep(u, result, base, s, j);
        assert GuardsDown(u.cfg, After(u, result, base, s, j + 1));
      } else {
        forall n: nat | n <= s.iterIdx - s.nextToProcess
          ensures !GuardsDown(u.cfg, After(u, result, base, s, n))
        {
          StreakGrows(u, result, base, s, n);
        }
      }
    }
  }

  /** The statuses that the trials will be recorded with. */
  function Finals(ts: seq<Trial>, obj: Objective): (ss: seq<string>)
    ensures |ss| == |ts|
  {
    seq(|ts|, i requires 0 <= i < |ts| => FinalStatus(ts[i].outcome, obj))
  }

  lemma {:induction false} WindowSlides(cfg: Config, c: Control, iter: nat, ts: seq<Trial>)
    requires |c.recent| >= Window(cfg)
    ensures Fold(cfg, c, iter, ts).recent == (c.recent + Finals(ts, cfg.objective))[|ts|..]
    decreases |ts|
  {
    if ts != [] {
      var n := |ts| - 1;
      WindowSlides(cfg, c, iter, ts[..n]);
      assert Finals(ts, cfg.objective) == Finals(ts[..n], cfg.objective) + [FinalStatus(ts[n].outcome, cfg.objective)];
    }
  }

  /** The window of statuses that ends with the `n`th pending trial. */
  function WindowAfter(u: Setup, result: int -> Outcome, base: nat, s: State, n: nat): seq<string>
    requires Counted(base, s) && n <= s.iterIdx - s.nextToProcess
  {
    (s.ctl.recent + Finals(Pending(result, base, s)[..n], u.cfg.objective))[n..]
  }

  /** The failure guard, alone, is lifted exactly if the window that ends with one of the pending trials has a share of
      failures below the limit. */
  lemma FailuresLiftedIff(u: Setup, result: int -> Outcome, base: nat, s: State)
    requires Counted(base, s) && u.cfg.noImproveLimit == None
    requires u.cfg.failureRateLimit.Some? && |s.ctl.recent| >= Window(u.cfg)
    ensures PendingLift(u, result, base, s)
       <==> exists n: nat :: n <= s.iterIdx - s.nextToProcess
              && ShareBelow(WindowAfter(u, result, base, s, n), u.cfg.failureRateLimit.value)
  {
    forall n: nat | n <= s.iterIdx - s.nextToProcess
      ensures GuardsDown(u.cfg, After(u, result, base, s, n))
         <==> ShareBelow(WindowAfter(u, result, base, s, n), u.cfg.failureRateLimit.value)
    {
      WindowSlides(u.cfg, s.ctl, s.nextToProcess, Pending(result, base, s)[..n]);
    }
  }

  predicate ShareBelow(statuses: seq<string>, limit: real) {
    statuses != [] && Failures(statuses) as real / |statuses| as real < limit
  }

  // ---------------------------------------------------------------- from the start of a campaign

  lemma {:induction false} RunOn(u: Setup, result: int -> Outcome, s: State, a: seq<Tick>, b: seq<Tick>)
    ensures var p := Run(u, result, s, a);
            Run(u, result, s, a + b) == if p.left then p else Run(u, result, p.state, b)
    decreases |b|
  {
    if b == [] {
      assert a + b == a;
    } else {
      RunOn(u, result, s, a, b[..|b| - 1]);
      assert (a + b)[..|a + b| - 1] == a + b[..|b| - 1];
    }
  }

  /** Some continuation of a campaign, without interruption, submits a later trial. */
  ghost predicate MaySubmitAgain(u: Setup, result: int -> Outcome, start: State, before: seq<Tick>, r: Request) {
    exists more: seq<Tick> :: Calm(more, r)
      && Run(u, result, start, before + more).state.proposed != Run(u, result, start, before).state.proposed
  }

  ghost predicate BudgetLeft(u: Setup, s: State) { u.cfg.maxIterations.Some? ==> s.iterIdx < u.cfg.maxIterations.value }

  lemma MaySubmitAgainIff(u: Setup, result: int -> Outcome, start: State, before: seq<Tick>, r: Request)
    requires Start(start) && AllWellFormed(before)
    requires u.maxConcurrency >= 1 && FitsEmpty(start.pool.capacity, r)
    requires !GuardsDown(u.cfg, Run(u, result, start, before).state.ctl)
    ensures var s := Run(u, result, start, before).state;
            && Counted(start.iterIdx, s)
            && (MaySubmitAgain(u, result, start, before, r) <==> BudgetLeft(u, s) && PendingLift(u, result, start.iterIdx, s))
  {
    var p := Run(u, result, start, before);
    RunInv(u, result, start, before);
    InvFold(u, result, start, p.state);
    if p.left {
      LeavesEmpty(u, result, start, before);
      RunPartition(u, result, start, before);
      EmptyWhenCaughtUp(p.state);
      NoPendingLift(u, result, start.iterIdx, p.state);
      forall more: seq<Tick>
        ensures Run(u, result, start, before + more) == p
      {
        RunOn(u, result, start, before, more);
      }
    } else {
      LaterSubmissionIff(u, result, start, p.state, r);
      forall more: seq<Tick>
        ensures Run(u, result, start, before + more) == Run(u, result, p.state, more)
      {
        RunOn(u, result, start, before, more);
      }
    }
  }

  lemma NoPendingLift(u: Setup, result: int -> Outcome, base: nat, s: State)
    requires Counted(base, s) && s.iterIdx == s.nextToProcess && !GuardsDown(u.cfg, s.ctl)
    ensures !PendingLift(u, result, base, s)
  {
    assert Pending(result, base, s)[..0] == [];
  }

  /** From the start of any campaign: when the streak guard, alone, is up, a later trial may still be submitted if and only
      if budget is left, the limit is positive, and a trial that was submitted before improves on the best it will find. */
  lemma StreakStopIff(u: Setup, result: int -> Outcome, start: State, before: seq<Tick>, r: Request)
    requires Start(start) && AllWellFormed(before)
    requires u.maxConcurrency >= 1 && FitsEmpty(start.pool.capacity, r)
    requires u.cfg.failureRateLimit == None && NoImproveGuard(u.cfg, Run(u, result, start, before).state.ctl.streak)
    ensures var s := Run(u, result, start, before).state;
            && Counted(start.iterIdx, s)
            && (MaySubmitAgain(u, result, start, before, r) <==>
                  && BudgetLeft(u, s) && u.cfg.noImproveLimit.value >= 1
                  && exists j: nat :: j < s.iterIdx - s.nextToProcess && PendingImproves(u, result, start.iterIdx, s, j))
  {
    MaySubmitAgainIff(u, result, start, before, r);
    StreakLiftedIff(u, result, start.iterIdx, Run(u, result, start, before).state);
  }

  /** The same for the failure guard alone: some window of statuses that ends with a trial submitted before must have a
      share of failures below the limit. */
  lemma FailureStopIff(u: Setup, result: int -> Outcome, start: State, before: seq<Tick>, r: Request)
    requires Start(start) && AllWellFormed(before)
    requires u.maxConcurrency >= 1 && FitsEmpty(start.pool.capacity, r)
    requires u.cfg.noImproveLimit == None && FailureRateGuard(u.cfg, Run(u, result, start, before).state.ctl.recent)
    ensures var s := Run(u, result, start, before).state;
            && Counted(start.iterIdx, s)
            && (MaySubmitAgain(u, result, start, before, r) <==>
                  && BudgetLeft(u, s)
                  && exists n: nat :: n <= s.iterIdx - s.nextToProcess
                       && ShareBelow(WindowAfter(u, result, start.iterIdx, s, n), u.cfg.failureRateLimit.value))
  {
    MaySubmitAgainIff(u, result, start, before, r);
    FailuresLiftedIff(u, result, start.iterIdx, Run(u, result, start, before).state);
  }

  /** Two trials run at once and one trial without improvement is the limit. Trial 0 fails, trial 1 improves. */
  const PAIR := Setup(Config(Objective("loss", Minimize), None, None, Some(1), None, 10), 2, false)
  const EMPTY := State(FRESH, 0, 0, 0, map[], map[], map[], 0, Resources.Pool(map["gpu" := 2], map[], map[]), None, [], [])
  const IDLE := Request(map[], [], false)

  function FailThenImprove(i: int): Outcome {
    if i == 0 then Outcome("failed", map[]) else Outcome("ok", map["loss" := 1.0])
  }

  /** Trial 0 comes back at once, while trial 1 is still running. */
  function FirstTick(): Tick { Tick(false, false, [IDLE, IDLE], {0}) }

  /** Both trials submitted, and then the first one drained. */
  const TWO := EMPTY.(
    iterIdx := 2,
    inFlight := map[0 := Submitted(0, map[], []), 1 := Submitted(1, map[], [])],
    pool := Resources.Pool(map["gpu" := 2], map[], map[0 := [], 1 := []]),
    proposed := [Submitted(0, map[], []), Submitted(1, map[], [])])

  lemma SubmitsTwo()
    ensures Submit(PAIR, EMPTY, FirstTick()) == TWO
  {
    var one := SubmitOne(PAIR, EMPTY, IDLE).0;
    assert SubmitOne(PAIR, EMPTY, IDLE).1;
    var (two, submitted) := SubmitOne(PAIR, one, IDLE);
    assert submitted && two.inFlight == TWO.inFlight && two.pool.reservations == TWO.pool.reservations;
    assert two == TWO;
    assert [IDLE, IDLE][1..] == [IDLE] && [IDLE][1..] == [];
    assert SubmitAll(PAIR, TWO, []) == TWO;
    assert SubmitAll(PAIR, one, [IDLE]) == TWO;
  }

  lemma DrainsFirst()
    ensures var d := Drain(TWO, {0}, FailThenImprove);
            && d.inFlight.Keys == {1} && d.completed == map[0 := (FailThenImprove(0), Submitted(0, map[], []))]
            && d == TWO.(inFlight := d.inFlight, pool := d.pool, completed := d.completed)
  {
    assert DrainBelow(TWO, {0}, FailThenImprove, 0) == TWO;
    var d := DrainOne(TWO, {0}, FailThenImprove, 0);
    assert DrainBelow(TWO, {0}, FailThenImprove, 1) == d;
    assert DrainBelow(TWO, {0}, FailThenImprove, 2) == d;
  }

  lemma CommitsFirst(d: State)
    requires d.completed == map[0 := (FailThenImprove(0), Submitted(0, map[], []))]
    requires d == TWO.(inFlight := d.inFlight, pool := d.pool, completed := d.completed)
    ensures var s := CommitNext(PAIR, d);
            && s.iterIdx == 2 && s.nextToProcess == 1 && |s.proposed| == 2
            && s.ctl.streak == 1 && s.ctl.bestScore == None && s.inFlight == d.inFlight
  {
    CommitNextFrame(PAIR, d);
    CommitLeavesFlight(PAIR, d);
  }

  lemma AfterFirstTick()
    ensures var (s, ending) := Turn(PAIR, FailThenImprove, EMPTY, FirstTick());
            && ending == Committed
            && s.iterIdx == 2 && s.nextToProcess == 1 && |s.proposed| == 2
            && s.ctl.streak == 1 && s.ctl.bestScore == None && s.inFlight.Keys == {1}
  {
    SubmitsTwo();
    DrainsFirst();
    CommitsFirst(Drain(TWO, {0}, FailThenImprove));
  }

  /** A stop that is lifted. After the first turn the streak guard is up; the second turn submits nothing and commits trial
      1, which improves; the third submits trial 2. */
  lemma StopIsLifted()
    ensures var ticks := [FirstTick(), Tick(false, false, [], {1}), Tick(false, false, [IDLE], {})];
            && Start(EMPTY)
            && Stop(PAIR, Run(PAIR, FailThenImprove, EMPTY, ticks[..1]).state, false)
            && |Run(PAIR, FailThenImprove, EMPTY, ticks[..1]).state.proposed| == 2
            && |Run(PAIR, FailThenImprove, EMPTY, ticks).state.proposed| == 3
  {
    var first, rest := [FirstTick()], [Tick(false, false, [], {1}), Tick(false, false, [IDLE], {})];
    EmptyStarts();
    FirstRun();
    SecondRun();
    SecondTicks(Run(PAIR, FailThenImprove, EMPTY, first).state);
    RunOn(PAIR, FailThenImprove, EMPTY, first, rest);
    assert first + rest == [FirstTick(), Tick(false, false, [], {1}), Tick(false, false, [IDLE], {})];
    assert (first + rest)[..1] == first;
  }

  lemma FirstRun()
    ensures var p := Run(PAIR, FailThenImprove, EMPTY, [FirstTick()]);
            && !p.left && p.state.iterIdx == 2 && p.state.nextToProcess == 1 && |p.state.proposed| == 2
            && p.state.ctl.streak == 1 && p.state.ctl.bestScore == None && p.state.inFlight.Keys == {1}
  {
    AfterFirstTick();
    assert [FirstTick()][..0] == [];
  }

  lemma SecondRun()
    ensures var s := Run(PAIR, FailThenImprove, EMPTY, [FirstTick()]).state;
            |Run(PAIR, FailThenImprove, s, LiftTicks(s, IDLE, 1)).state.proposed| == 3
  {
    var s := Run(PAIR, FailThenImprove, EMPTY, [FirstTick()]).state;
    EmptyStarts();
    FirstRun();
    RunInv(PAIR, FailThenImprove, EMPTY, [FirstTick()]);
    InvFold(PAIR, FailThenImprove, EMPTY, s);
    LiftsSecond(s);
  }

  lemma LiftsSecond(s: State)
    requires Inv(PAIR, FailThenImprove, EMPTY, s) && Counted(0, s)
    requires s.iterIdx == 2 && s.nextToProcess == 1 && |s.proposed| == 2 && s.ctl.bestScore == None
    ensures |Run(PAIR, FailThenImprove, s, LiftTicks(s, IDLE, 1)).state.proposed| == 3
  {
    SecondImproves(s);
    LiftAfter(PAIR, FailThenImprove, EMPTY, s, IDLE, 1);
  }

  lemma SecondTicks(s: State)
    requires s.inFlight.Keys == {1}
    ensures LiftTicks(s, IDLE, 1) == [Tick(false, false, [], {1}), Tick(false, false, [IDLE], {})]
  {
  }

  lemma EmptyStarts()
    ensures Start(EMPTY)
  {
    Resources.AlwaysConserved(map["gpu" := 2], []);
  }

  lemma SecondImproves(s: State)
    requires Counted(0, s) && s.iterIdx == 2 && s.nextToProcess == 1 && s.ctl.bestScore == None
    ensures GuardsDown(PAIR.cfg, After(PAIR, FailThenImprove, 0, s, 1))
  {
    AfterStep(PAIR, FailThenImprove, 0, s, 0);
    assert Pending(FailThenImprove, 0, s)[..0] == [];
    assert Value(FailThenImprove(1), PAIR.cfg.objective) == Some(1.0);
  }
}
