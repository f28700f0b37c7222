/** The serial engine: a loop over trials with stop guards, and the checkpoint that lets a later process continue it. */
module SerialEngine {
  import opened Wrappers
  import opened Trials

  /** Early stopping on the score history. The forecast itself is any function of the series and the target. */
  datatype Forecasting = Off | On(stop: (seq<real>, real) -> bool)

  /** What the surroundings supply for one turn of the loop: the shutdown flag and the clock read at the top
      (seconds since this process started the loop), and the trial that the policy and the target produce. */
  datatype Turn = Turn(shutdown: bool, sinceStart: real, trial: Trial)

  /** The loop state between two turns. `rewards` lists the calls made to a policy that learns. */
  datatype Loop = Loop(
    ctl: Control,
    iterIdx: nat,
    done: nat,
    scores: seq<real>,
    rewards: seq<real>,
    offset: real,
    halted: bool)

  /** The fields of the checkpoint file that steer the loop. */
  datatype Checkpoint = Checkpoint(iteration: int, ctl: Control, elapsed: real)

  /** A checkpoint written after at least one iteration has a non-negative iteration number. */
  predicate Loadable(disk: Option<Checkpoint>) {
    disk.Some? ==> disk.value.iteration >= -1
  }

  function Resume(disk: Option<Checkpoint>): Loop
    requires Loadable(disk)
  {
    match disk
    case None => Loop(FRESH, 0, 0, [], [], 0.0, false)
    case Some(c) => Loop(c.ctl, c.iteration + 1, c.iteration + 1, [], [], c.elapsed, false)
  }

  /** The checkpoint on disk after the loop ends `sinceStart` seconds into this process. */
  function Save(disk: Option<Checkpoint>, s: Loop, sinceStart: real): Option<Checkpoint> {
    if s.done > 0 then Some(Checkpoint(s.iterIdx - 1, s.ctl, sinceStart + s.offset)) else disk
  }

  /** The guards tested before a trial is proposed. */
  predicate GuardsBefore(cfg: Config, s: Loop, t: Turn) {
    || t.shutdown
    || (cfg.maxWallTime.Some? && t.sinceStart + s.offset >= cfg.maxWallTime.value)
    || (cfg.maxIterations.Some? && s.done >= cfg.maxIterations.value)
  }

  /** The guards tested after a trial was committed. */
  predicate GuardsAfter(cfg: Config, forecasting: Forecasting, c: Control, scores: seq<real>) {
    || NoImproveGuard(cfg, c.streak)
    || FailureRateGuard(cfg, c.recent)
    || Forecasts(forecasting, c, scores)
  }

  /** Whether the forecaster ends the loop, given the control state and a score history. */
  predicate Forecasts(f: Forecasting, c: Control, scores: seq<real>) {
    f.On? && c.bestValue.Some? && |scores| >= 5 && f.stop(scores, c.bestValue.value)
  }

  function NextScores(cfg: Config, scores: seq<real>, o: Outcome): seq<real> {
    var value := Value(o, cfg.objective);
    if value.Some? then scores + [value.value] else scores
  }

  /** One turn of the loop. */
  function Step(cfg: Config, forecasting: Forecasting, s: Loop, t: Turn): Loop {
    if s.halted then s
    else if GuardsBefore(cfg, s, t) then s.(halted := true)
    else
      var ctl := Commit(cfg, s.ctl, s.iterIdx, t.trial);
      var scores := NextScores(cfg, s.scores, t.trial.outcome);
      Loop(ctl, s.iterIdx + 1, s.done + 1, scores,
           s.rewards + [SerialReward(s.ctl.bestScore, t.trial.outcome, cfg.objective)],
           s.offset, GuardsAfter(cfg, forecasting, ctl, scores))
  }

  function Run(cfg: Config, forecasting: Forecasting, s: Loop, ts: seq<Turn>): Loop
    decreases |ts|
  {
    if ts == [] then s
    else Step(cfg, forecasting, Run(cfg, forecasting, s, ts[..|ts| - 1]), ts[|ts| - 1])
  }

  /** The engine as it runs: the local variables of the loop, updated in place. */
  class Engine {
    const cfg: Config
    const forecasting: Forecasting
    var bestScore: Option<real>
    var bestValue: Option<real>
    var streak: nat
    var history: seq<Entry>
    var recent: seq<string>
    var iterIdx: nat
    var iterationsDone: nat
    var scoreHistory: seq<real>
    var rewards: seq<real>
    var elapsedOffset: real
    var halted: bool

    function View(): Loop
      reads this
    {
      Loop(Control(bestScore, bestValue, streak, history, recent), iterIdx, iterationsDone, scoreHistory, rewards,
           elapsedOffset, halted)
    }

    constructor (cfg: Config, forecasting: Forecasting, disk: Option<Checkpoint>)
      requires Loadable(disk)
      ensures this.cfg == cfg && this.forecasting == forecasting
      ensures View() == Resume(disk)
    {
      this.cfg, this.forecasting := cfg, forecasting;
      bestScore, bestValue, streak, history, recent := None, None, 0, [], [];
      iterIdx, iterationsDone, elapsedOffset := 0, 0, 0.0;
      scoreHistory, rewards, halted := [], [], false;
      if disk.Some? {
        var c := disk.value;
        iterIdx, iterationsDone := c.iteration + 1, c.iteration + 1;
        bestScore, bestValue := c.ctl.bestScore, c.ctl.bestValue;
        streak, history, recent := c.ctl.streak, c.ctl.history, c.ctl.recent;
        elapsedOffset := c.elapsed;
      }
    }

    /** Compare an outcome with the best so far: update best and streak, and decide. */
    method Judge(status: string, value: Option<real>, ghost o: Outcome) returns (decision: Decision)
      requires status == FinalStatus(o, cfg.objective) && value == Value(o, cfg.objective)
      modifies `bestScore, `bestValue, `streak
      ensures decision == Decide(old(bestScore), o, cfg.objective)
      ensures var better := Improves(old(bestScore), o, cfg.objective);
              && bestScore == (if better then Some(ScoreOf(o, cfg.objective)) else old(bestScore))
              && bestValue == (if better then value else old(bestValue))
              && streak == (if better then 0 else old(streak) + 1)
    {
      decision := Discard;
      if status == "cancelled" {
        decision := Cancelled;
        streak := streak + 1;
      } else if value != None {
        var score := Score(value.value, cfg.objective);
        if bestScore == None || score < bestScore.value {
          bestScore := Some(score);
          bestValue := value;
          decision := Keep;
          streak := 0;
        } else {
          streak := streak + 1;
        }
      } else {
        streak := streak + 1;
      }
    }

    /** Report the reward for a decision to a policy that learns. */
    method Learn(decision: Decision, status: string, ghost best: Option<real>, ghost o: Outcome)
      requires decision == Decide(best, o, cfg.objective) && status == FinalStatus(o, cfg.objective)
      modifies `rewards
      ensures rewards == old(rewards) + [SerialReward(best, o, cfg.objective)]
    {
      var reward := 0.0;
      if decision == Keep {
        reward := 1.0;
      } else if status == "cancelled" {
        reward := -0.05;
      } else if status == "failed" {
        reward := -0.1;
      }
      rewards := rewards + [reward];
    }

    method TrackStatus(status: string)
      modifies `recent
      ensures recent == PushStatus(old(recent), status, Window(cfg))
    {
      recent := recent + [status];
      if |recent| > Max(1, cfg.failureWindow) {
        recent := recent[1..];
      }
    }

    /** Record a finished trial: judge it, reward the policy, extend the history and the status window. */
    method CommitTrial(trial: Trial)
      modifies this
      ensures halted == old(halted)
      ensures View().ctl == Commit(cfg, old(View()).ctl, old(iterIdx), trial)
      ensures View().scores == NextScores(cfg, old(scoreHistory), trial.outcome)
      ensures rewards == old(rewards) + [SerialReward(old(bestScore), trial.outcome, cfg.objective)]
      ensures iterIdx == old(iterIdx) + 1 && iterationsDone == old(iterationsDone) + 1
      ensures elapsedOffset == old(elapsedOffset)
    {
      var outcome := trial.outcome;
      var metrics, value, status := ReadOutcome(outcome, cfg.objective);

      var decision := Judge(status, value, outcome);
      Learn(decision, status, old(bestScore), outcome);
      Remember(Entry(iterIdx, status, decision, metrics, trial.params), value);
    }

    /** Append to the histories and count the iteration. */
    method Remember(entry: Entry, value: Option<real>)
      modifies `scoreHistory, `history, `recent, `iterIdx, `iterationsDone
      ensures scoreHistory == if value.Some? then old(scoreHistory) + [value.value] else old(scoreHistory)
      ensures history == old(history) + [entry] && recent == PushStatus(old(recent), entry.status, Window(cfg))
      ensures iterIdx == old(iterIdx) + 1 && iterationsDone == old(iterationsDone) + 1
    {
      if value != None {
        scoreHistory := scoreHistory + [value.value];
      }
      history := history + [entry];
      TrackStatus(entry.status);
      iterationsDone := iterationsDone + 1;
      iterIdx := iterIdx + 1;
    }

    /** One turn: stop if a guard says so, otherwise run the trial, commit it and look at the other guards. */
    method Iterate(t: Turn)
      requires !halted
      modifies this
      ensures View() == Step(cfg, forecasting, old(View()), t)
    {
      var elapsed := t.sinceStart + elapsedOffset;
      if t.shutdown
        || (cfg.maxWallTime.Some? && elapsed >= cfg.maxWallTime.value)
        || (cfg.maxIterations.Some? && iterationsDone >= cfg.maxIterations.value)
      {
        halted := true;
        return;
      }
      CommitTrial(t.trial);
      halted := NoImproveGuard(cfg, streak) || FailureRateGuard(cfg, recent)
        || (forecasting.On? && bestValue.Some? && |scoreHistory| >= 5
            && forecasting.stop(scoreHistory, bestValue.value));
    }

    /** The whole loop, fed with the turns its surroundings supply. */
    method RunLoop(ts: seq<Turn>)
      modifies this
      ensures View() == Run(cfg, forecasting, old(View()), ts)
    {
      ghost var start := View();
      var i := 0;
      while i < |ts| && !halted
        invariant 0 <= i <= |ts|
        invariant View() == Run(cfg, forecasting, start, ts[..i])
      {
        Iterate(ts[i]);
        assert ts[..i + 1][..i] == ts[..i];
        i := i + 1;
      }
      assert ts == ts[..i] + ts[i..];
      HaltedAbsorbs(cfg, forecasting, start, ts[..i], ts[i..]);
      assert ts[..|ts|] == ts;
    }

    method SaveCheckpoint(disk: Option<Checkpoint>, sinceStart: real) returns (disk': Option<Checkpoint>)
      ensures disk' == Save(disk, View(), sinceStart)
    {
      disk' := disk;
      if iterationsDone > 0 {
        disk' := Some(Checkpoint(iterIdx - 1, Control(bestScore, bestValue, streak, history, recent),
                                 sinceStart + elapsedOffset));
      }
    }
  }

  // ---------------------------------------------------------------- runs

  lemma {:induction false} RunAppend(cfg: Config, f: Forecasting, s: Loop, a: seq<Turn>, b: seq<Turn>)
    ensures Run(cfg, f, s, a + b) == Run(cfg, f, Run(cfg, f, s, a), b)
    decreases |b|
  {
    if b == [] {
      assert a + b == a;
    } else {
      RunAppend(cfg, f, s, a, b[..|b| - 1]);
      assert (a + b)[..|a + b| - 1] == a + b[..|b| - 1];
    }
  }

  /** Once halted, nothing that the surroundings do changes the loop. */
  lemma {:induction false} HaltedAbsorbs(cfg: Config, f: Forecasting, s: Loop, a: seq<Turn>, b: seq<Turn>)
    ensures Run(cfg, f, s, a).halted ==> Run(cfg, f, s, a + b) == Run(cfg, f, s, a)
    ensures b == [] ==> Run(cfg, f, s, a + b) == Run(cfg, f, s, a)
    decreases |b|
  {
    if b == [] {
      assert a + b == a;
    } else {
      HaltedAbsorbs(cfg, f, s, a, b[..|b| - 1]);
      assert (a + b)[..|a + b| - 1] == a + b[..|b| - 1];
    }
  }

  function TrialsOf(ts: seq<Turn>): (trials: seq<Trial>)
    ensures |trials| == |ts|
  {
    seq(|ts|, i requires 0 <= i < |ts| => ts[i].trial)
  }

  /** `e` is reached from `s` by committing the trials of the first turns of `ts`, in order, and nothing else. */
  predicate CommitsPrefix(cfg: Config, s: Loop, e: Loop, ts: seq<Turn>) {
    && s.iterIdx <= e.iterIdx <= s.iterIdx + |ts|
    && e.done == e.iterIdx
    && var trials := TrialsOf(ts[..e.iterIdx - s.iterIdx]);
       && e.ctl == Fold(cfg, s.ctl, s.iterIdx, trials)
       && e.rewards == s.rewards + Rewards(cfg, s.ctl, s.iterIdx, trials, false)
  }

  lemma CommitExtendsPrefix(cfg: Config, f: Forecasting, s: Loop, m: Loop, init: seq<Turn>, t: Turn)
    requires CommitsPrefix(cfg, s, m, init)
    requires !m.halted ==> m.iterIdx == s.iterIdx + |init|
    ensures CommitsPrefix(cfg, s, Step(cfg, f, m, t), init + [t])
  {
    var ts := init + [t];
    var k := m.iterIdx - s.iterIdx;
    assert init[..k] == ts[..k];
    if !m.halted && !GuardsBefore(cfg, m, t) {
      var trials := TrialsOf(ts[..k + 1]);
      assert trials[..k] == TrialsOf(init[..k]);
      assert trials[k] == t.trial;
    }
  }

  /** A run commits exactly the trials of its first turns, in order, and nothing else: the control state is
      their fold and the rewards are theirs, and the iteration budget holds. */
  lemma {:induction false} RunIsFold(cfg: Config, f: Forecasting, s: Loop, ts: seq<Turn>)
    requires s.done == s.iterIdx
    ensures CommitsPrefix(cfg, s, Run(cfg, f, s, ts), ts)
    ensures !s.halted && !Run(cfg, f, s, ts).halted ==> Run(cfg, f, s, ts).iterIdx == s.iterIdx + |ts|
    ensures s.halted ==> Run(cfg, f, s, ts) == s
    ensures cfg.maxIterations.Some? ==> Run(cfg, f, s, ts).done <= Max(cfg.maxIterations.value, s.done)
    decreases |ts|
  {
    if ts == [] {
      assert TrialsOf(ts[..0]) == [];
    } else {
      var init, t := ts[..|ts| - 1], ts[|ts| - 1];
      RunIsFold(cfg, f, s, init);
      CommitExtendsPrefix(cfg, f, s, Run(cfg, f, s, init), init, t);
      assert init + [t] == ts;
    }
  }

  /** Turn `n` is the one that ends the loop: a guard is raised before its trial, or by the trial it commits. */
  predicate StopsAt(cfg: Config, f: Forecasting, s: Loop, ts: seq<Turn>, n: nat)
    requires n < |ts|
  {
    var m, o := Run(cfg, f, s, ts[..n]), ts[n].trial;
    && !m.halted
    && (GuardsBefore(cfg, m, ts[n])
        || GuardsAfter(cfg, f, Commit(cfg, m.ctl, m.iterIdx, o), NextScores(cfg, m.scores, o.outcome)))
  }

  lemma StopsEarlier(cfg: Config, f: Forecasting, s: Loop, ts: seq<Turn>, n: nat)
    requires n < |ts| - 1
    ensures StopsAt(cfg, f, s, ts, n) == StopsAt(cfg, f, s, ts[..|ts| - 1], n)
  {
    assert ts[..|ts| - 1][..n] == ts[..n];
  }

  lemma StopsLast(cfg: Config, f: Forecasting, s: Loop, ts: seq<Turn>)
    requires ts != []
    ensures StopsAt(cfg, f, s, ts, |ts| - 1) <==> !Run(cfg, f, s, ts[..|ts| - 1]).halted && Run(cfg, f, s, ts).halted
  {
  }

  /** The loop ends exactly at the first turn at which a guard is raised. */
  lemma {:induction false} HaltedIff(cfg: Config, f: Forecasting, s: Loop, ts: seq<Turn>)
    requires !s.halted
    ensures Run(cfg, f, s, ts).halted <==> exists n: nat :: n < |ts| && StopsAt(cfg, f, s, ts, n)
    decreases |ts|
  {
    if ts != [] {
      var init := ts[..|ts| - 1];
      HaltedIff(cfg, f, s, init);
      StopsLast(cfg, f, s, ts);
      forall n: nat | n < |ts| - 1
        ensures StopsAt(cfg, f, s, ts, n) == StopsAt(cfg, f, s, init, n)
      {
        StopsEarlier(cfg, f, s, ts, n);
      }
      if Run(cfg, f, s, init).halted {
        var n: nat :| n < |init| && StopsAt(cfg, f, s, init, n);
        assert StopsAt(cfg, f, s, ts, n);
      }
    }
  }

  // ---------------------------------------------------------------- when the loop stops, on its inputs alone

  lemma {:induction false} OffsetStays(cfg: Config, f: Forecasting, s: Loop, ts: seq<Turn>)
    ensures Run(cfg, f, s, ts).offset == s.offset
    decreases |ts|
  {
    if ts != [] {
      OffsetStays(cfg, f, s, ts[..|ts| - 1]);
    }
  }

  lemma RunOneMore(cfg: Config, f: Forecasting, s: Loop, ts: seq<Turn>, n: nat)
    requires n < |ts|
    ensures Run(cfg, f, s, ts[..n + 1]) == Step(cfg, f, Run(cfg, f, s, ts[..n]), ts[n])
  {
    assert ts[..n + 1][..n] == ts[..n];
  }

  /** If turn `n` finds the shutdown flag set, the time used up or the budget committed, no trial is run at it or after it:
      the loop has halted, has committed at most `n` trials, and is in the state it had before that turn. */
  lemma StopsBeforeTurn(cfg: Config, f: Forecasting, s: Loop, ts: seq<Turn>, n: nat)
    requires !s.halted && s.done == s.iterIdx && n < |ts|
    requires || ts[n].shutdown
             || (cfg.maxWallTime.Some? && ts[n].sinceStart + s.offset >= cfg.maxWallTime.value)
             || (cfg.maxIterations.Some? && s.iterIdx + n >= cfg.maxIterations.value)
    ensures var e := Run(cfg, f, s, ts);
            && e.halted && e.iterIdx <= s.iterIdx + n
            && e == Run(cfg, f, s, ts[..n]).(halted := true)
  {
    var m := Run(cfg, f, s, ts[..n]);
    OffsetStays(cfg, f, s, ts[..n]);
    RunIsFold(cfg, f, s, ts[..n]);
    RunOneMore(cfg, f, s, ts, n);
    assert ts[..n + 1] + ts[n + 1..] == ts;
    HaltedAbsorbs(cfg, f, s, ts[..n + 1], ts[n + 1..]);
    assert Run(cfg, f, s, ts[..n + 1]) == m.(halted := true);
  }

  /** The values reported, cancelled trials included, in order. */
  function ReportedValues(ts: seq<Trial>, metric: string): seq<real> {
    if ts == [] then []
    else
      var o := ts[|ts| - 1].outcome;
      ReportedValues(ts[..|ts| - 1], metric)
      + if metric in o.metrics && metric != "_model_dir" then [o.metrics[metric]] else []
  }

  lemma {:induction false} ScoresAreReported(cfg: Config, f: Forecasting, ts: seq<Turn>)
    requires !Run(cfg, f, Resume(None), ts).halted
    ensures Run(cfg, f, Resume(None), ts).scores == ReportedValues(TrialsOf(ts), cfg.objective.metric)
    decreases |ts|
  {
    if ts != [] {
      ScoresAreReported(cfg, f, ts[..|ts| - 1]);
      assert TrialsOf(ts)[..|ts| - 1] == TrialsOf(ts[..|ts| - 1]);
    }
  }

  /** What ends a fresh campaign after the trials `ts`: no keep among the last so many entries, too large a share of failures
      among the last entries, or the forecast on all the values reported, at least five, and the best of them. */
  predicate EndsAfter(cfg: Config, f: Forecasting, ts: seq<Trial>) {
    var c, w := Fold(cfg, FRESH, 0, ts), Window(cfg);
    || (cfg.noImproveLimit.Some? && NoKeepAmongLast(c.history, cfg.noImproveLimit.value))
    || (cfg.failureRateLimit.Some? && |c.history| == |ts| >= w
        && Failures(Statuses(c.history)[|ts| - w..]) as real / w as real >= cfg.failureRateLimit.value)
    || (f.On? && c.bestValue.Some? && |ReportedValues(ts, cfg.objective.metric)| >= 5
        && f.stop(ReportedValues(ts, cfg.objective.metric), c.bestValue.value))
  }

  /** What a fresh campaign that is still going on has done. */
  lemma FreshState(cfg: Config, f: Forecasting, ts: seq<Turn>)
    requires !Run(cfg, f, Resume(None), ts).halted
    ensures var m, all := Run(cfg, f, Resume(None), ts), TrialsOf(ts);
            && m.iterIdx == m.done == |ts| && m.offset == 0.0
            && m.ctl == Fold(cfg, FRESH, 0, all) && m.scores == ReportedValues(all, cfg.objective.metric)
  {
    RunIsFold(cfg, f, Resume(None), ts);
    OffsetStays(cfg, f, Resume(None), ts);
    ScoresAreReported(cfg, f, ts);
    assert ts[..|ts|] == ts;
  }

  lemma {:induction false} CommitStep(cfg: Config, f: Forecasting, m: Loop, t: Turn, all: seq<Trial>)
    requires !m.halted && !GuardsBefore(cfg, m, t) && all != [] && all[|all| - 1] == t.trial
    requires m.ctl == Fold(cfg, FRESH, 0, all[..|all| - 1]) && m.iterIdx == m.done == |all| - 1
    requires m.scores == ReportedValues(all[..|all| - 1], cfg.objective.metric)
    ensures var e := Step(cfg, f, m, t);
            && e.ctl == Fold(cfg, FRESH, 0, all) && e.iterIdx == e.done == |all|
            && (e.halted <==> GuardsAfter(cfg, f, Fold(cfg, FRESH, 0, all), ReportedValues(all, cfg.objective.metric)))
  {
    assert NextScores(cfg, m.scores, t.trial.outcome) == ReportedValues(all, cfg.objective.metric);
  }

  lemma GuardsEnd(cfg: Config, f: Forecasting, ts: seq<Trial>)
    ensures GuardsAfter(cfg, f, Fold(cfg, FRESH, 0, ts), ReportedValues(ts, cfg.objective.metric)) <==> EndsAfter(cfg, f, ts)
  {
    StreakGuardMeans(cfg, ts);
    FailureGuardMeans(cfg, ts);
  }

  /** Turn `n` of a fresh campaign finds neither the shutdown flag set nor the time used up nor the budget committed, and its
      trial does not end the campaign. */
  predicate GoesOn(cfg: Config, f: Forecasting, ts: seq<Turn>, n: nat)
    requires n < |ts|
  {
    && !ts[n].shutdown
    && (cfg.maxWallTime.Some? ==> ts[n].sinceStart < cfg.maxWallTime.value)
    && (cfg.maxIterations.Some? ==> n < cfg.maxIterations.value)
    && !EndsAfter(cfg, f, TrialsOf(ts[..n + 1]))
  }

  lemma LastTurn(cfg: Config, f: Forecasting, ts: seq<Turn>)
    requires ts != [] && !Run(cfg, f, Resume(None), ts[..|ts| - 1]).halted
    ensures !Run(cfg, f, Resume(None), ts).halted <==> GoesOn(cfg, f, ts, |ts| - 1)
  {
    var n := |ts| - 1;
    assert ts[..n + 1] == ts;
    if ts[n].shutdown || (cfg.maxWallTime.Some? && ts[n].sinceStart >= cfg.maxWallTime.value)
       || (cfg.maxIterations.Some? && n >= cfg.maxIterations.value) {
      StopsBeforeTurn(cfg, f, Resume(None), ts, n);
    } else {
      var all := TrialsOf(ts);
      FreshState(cfg, f, ts[..n]);
      assert all[..n] == TrialsOf(ts[..n]);
      CommitStep(cfg, f, Run(cfg, f, Resume(None), ts[..n]), ts[n], all);
      GuardsEnd(cfg, f, all);
    }
  }

  lemma GoesOnBefore(cfg: Config, f: Forecasting, ts: seq<Turn>, n: nat)
    requires ts != [] && n < |ts| - 1
    ensures GoesOn(cfg, f, ts, n) == GoesOn(cfg, f, ts[..|ts| - 1], n)
  {
    assert ts[..|ts| - 1][..n + 1] == ts[..n + 1];
  }

  /** Exactly when a fresh campaign over the turns `ts` goes on: when all of its turns do. Then every trial is committed. */
  lemma {:induction false} GoesOnIff(cfg: Config, f: Forecasting, ts: seq<Turn>)
    ensures !Run(cfg, f, Resume(None), ts).halted <==> forall n :: 0 <= n < |ts| ==> GoesOn(cfg, f, ts, n)
    ensures !Run(cfg, f, Resume(None), ts).halted ==>
              var e := Run(cfg, f, Resume(None), ts);
              e.iterIdx == e.done == |ts| && e.ctl == Fold(cfg, FRESH, 0, TrialsOf(ts))
    decreases |ts|
  {
    if ts != [] {
      GoesOnIff(cfg, f, ts[..|ts| - 1]);
      forall n | 0 <= n < |ts| - 1
        ensures GoesOn(cfg, f, ts, n) == GoesOn(cfg, f, ts[..|ts| - 1], n)
      {
        GoesOnBefore(cfg, f, ts, n);
      }
      if Run(cfg, f, Resume(None), ts[..|ts| - 1]).halted {
        var n :| 0 <= n < |ts| - 1 && !GoesOn(cfg, f, ts[..|ts| - 1], n);
        assert !GoesOn(cfg, f, ts, n);
      } else {
        LastTurn(cfg, f, ts);
      }
    }
    if !Run(cfg, f, Resume(None), ts).halted {
      FreshState(cfg, f, ts);
    }
    LastHalts(cfg, f, ts);
  }

  lemma LastHalts(cfg: Config, f: Forecasting, ts: seq<Turn>)
    ensures ts != [] && Run(cfg, f, Resume(None), ts[..|ts| - 1]).halted ==> Run(cfg, f, Resume(None), ts).halted
  {
  }

  // ---------------------------------------------------------------- resuming from a checkpoint

  /** The same turns as seen by a process that started its clock `delay` seconds later. */
  function Shift(ts: seq<Turn>, delay: real): (shifted: seq<Turn>)
    ensures |shifted| == |ts|
  {
    seq(|ts|, i requires 0 <= i < |ts| => ts[i].(sinceStart := ts[i].sinceStart - delay))
  }

  /** Equal in everything that steers the loop. The rewards and scores seen so far live in the process. */
  predicate Agree(a: Loop, b: Loop) {
    a.ctl == b.ctl && a.iterIdx == b.iterIdx && a.done == b.done && a.halted == b.halted
  }

  lemma AgreeStep(cfg: Config, f: Forecasting, a: Loop, b: Loop, t: Turn, delay: real)
    requires Agree(a, b) && b.offset == a.offset + delay && (f.Off? || a.scores == b.scores)
    ensures var a', b' := Step(cfg, f, a, t), Step(cfg, f, b, t.(sinceStart := t.sinceStart - delay));
            Agree(a', b') && b'.offset == a'.offset + delay && (f.Off? || a'.scores == b'.scores)
  {
  }

  lemma {:induction false} AgreeRuns(cfg: Config, f: Forecasting, a: Loop, b: Loop, ts: seq<Turn>, delay: real)
    requires Agree(a, b) && b.offset == a.offset + delay
    requires f.Off? || a.scores == b.scores
    ensures Agree(Run(cfg, f, a, ts), Run(cfg, f, b, Shift(ts, delay)))
    ensures Run(cfg, f, b, Shift(ts, delay)).offset == Run(cfg, f, a, ts).offset + delay
    ensures f.Off? || Run(cfg, f, a, ts).scores == Run(cfg, f, b, Shift(ts, delay)).scores
    decreases |ts|
  {
    if ts != [] {
      var init := ts[..|ts| - 1];
      AgreeRuns(cfg, f, a, b, init, delay);
      assert Shift(ts, delay)[..|ts| - 1] == Shift(init, delay);
      AgreeStep(cfg, f, Run(cfg, f, a, init), Run(cfg, f, b, Shift(init, delay)), ts[|ts| - 1], delay);
    }
  }

  /** A campaign stopped by a shutdown, the clock or the budget after the turns `before` (the turn `stop` finds
      a guard raised), saved, loaded by a new process and continued with the turns `after`, ends in the same
      control state as the campaign that was never interrupted. Needed: no guard that follows a commit had
      already ended it, and the forecaster, whose score history is not saved, is off or has seen nothing. */
  lemma ResumeContinues(cfg: Config, f: Forecasting, start: Loop, before: seq<Turn>, stop: Turn, after: seq<Turn>)
    requires start.done == start.iterIdx
    requires !Run(cfg, f, start, before).halted && Run(cfg, f, start, before).done > 0
    requires GuardsBefore(cfg, Run(cfg, f, start, before), stop)
    requires f.Off? || Run(cfg, f, start, before).scores == []
    ensures var disk := Save(None, Run(cfg, f, start, before + [stop]), stop.sinceStart);
            && Loadable(disk)
            && Agree(Run(cfg, f, Resume(disk), Shift(after, stop.sinceStart)), Run(cfg, f, start, before + after))
  {
    var m := Run(cfg, f, start, before);
    RunIsFold(cfg, f, start, before);
    RunAppend(cfg, f, start, before, [stop]);
    assert [stop][..0] == [];
    assert Run(cfg, f, m, [stop]) == m.(halted := true);
    RunAppend(cfg, f, start, before, after);
    var disk := Save(None, m.(halted := true), stop.sinceStart);
    AgreeRuns(cfg, f, m, Resume(disk), after, stop.sinceStart);
  }

  lemma FirstStep(cfg: Config, f: Forecasting, s: Loop, ts: seq<Turn>)
    requires ts != []
    ensures Run(cfg, f, s, ts[..1]) == Step(cfg, f, s, ts[0])
  {
    assert ts[..1][..0] == [] && ts[..1][0] == ts[0];
  }

  /** A loop that is not stopped at once adds to its history. */
  lemma RunGrows(cfg: Config, f: Forecasting, s: Loop, ts: seq<Turn>)
    requires s.done == s.iterIdx && !s.halted && ts != [] && !GuardsBefore(cfg, s, ts[0])
    ensures |Run(cfg, f, s, ts).ctl.history| > |s.ctl.history|
  {
    var first := Run(cfg, f, s, ts[..1]);
    FirstStep(cfg, f, s, ts);
    assert ts == ts[..1] + ts[1..];
    RunAppend(cfg, f, s, ts[..1], ts[1..]);
    RunIsFold(cfg, f, first, ts[1..]);
    var e := Run(cfg, f, first, ts[1..]);
    BestNeverWorsens(cfg, first.ctl, first.iterIdx, TrialsOf(ts[1..][..e.iterIdx - first.iterIdx]));
  }

  /** Exactly when a saved campaign can be continued: with the forecaster off, a process that resumes and is not
      stopped at once reaches the state of the uninterrupted run if and only if that run had not halted before
      the save. A campaign that halted on its streak or failure rate runs on after a resume, because those two
      guards are only tested after a commit. */
  lemma ResumeAgreesIff(cfg: Config, start: Loop, before: seq<Turn>, at: real, after: seq<Turn>)
    requires start.done == start.iterIdx
    requires Run(cfg, Off, start, before).done > 0
    requires after != [] && !GuardsBefore(cfg, Run(cfg, Off, start, before), after[0])
    ensures var m := Run(cfg, Off, start, before);
            var disk := Save(None, m, at);
            Loadable(disk)
            && (Run(cfg, Off, Resume(disk), Shift(after, at)).ctl == Run(cfg, Off, start, before + after).ctl
                <==> !m.halted)
  {
    var m := Run(cfg, Off, start, before);
    RunIsFold(cfg, Off, start, before);
    RunAppend(cfg, Off, start, before, after);
    var resumed := Resume(Save(None, m, at));
    if !m.halted {
      AgreeRuns(cfg, Off, m, resumed, after, at);
    } else {
      HaltedAbsorbs(cfg, Off, start, before, after);
      RunGrows(cfg, Off, resumed, Shift(after, at));
    }
  }

  // ---------------------------------------------------------------- resuming with the forecaster on

  /** If turn `n` commits a trial and no other guard ends the loop, then the forecaster says the same of all scores and
      of those reported since the save. */
  predicate SameVerdict(cfg: Config, f: Forecasting, m: Loop, after: seq<Turn>, n: nat)
    requires n < |after|
  {
    var w := Run(cfg, f, m, after[..n]);
    var c := Commit(cfg, w.ctl, w.iterIdx, after[n].trial);
    var scores := NextScores(cfg, w.scores, after[n].trial.outcome);
    w.halted || GuardsBefore(cfg, w, after[n]) || NoImproveGuard(cfg, c.streak) || FailureRateGuard(cfg, c.recent)
    || (Forecasts(f, c, scores) <==> Forecasts(f, c, Since(scores, |m.scores|)))
  }

  function Since(scores: seq<real>, n: nat): seq<real> {
    if n <= |scores| then scores[n..] else []
  }

  /** The loop `w` of a run and the loop `r` of its resumed twin: alike, but for the scores before the save. */
  predicate Twins(m: Loop, delay: real, w: Loop, r: Loop) {
    Agree(w, r) && r.offset == w.offset + delay && w.scores == m.scores + r.scores
  }

  lemma TwinsStep(cfg: Config, f: Forecasting, m: Loop, delay: real, w: Loop, r: Loop, t: Turn)
    requires Twins(m, delay, w, r)
    ensures var w', r' := Step(cfg, f, w, t), Step(cfg, f, r, t.(sinceStart := t.sinceStart - delay));
            && Twins(m, delay, w', r'.(halted := w'.halted))
            && (w.halted || GuardsBefore(cfg, w, t) ==> w'.halted == r'.halted)
            && (!w.halted && !GuardsBefore(cfg, w, t) ==>
                  && w'.halted == (NoImproveGuard(cfg, w'.ctl.streak) || FailureRateGuard(cfg, w'.ctl.recent)
                                   || Forecasts(f, w'.ctl, w'.scores))
                  && r'.halted == (NoImproveGuard(cfg, w'.ctl.streak) || FailureRateGuard(cfg, w'.ctl.recent)
                                   || Forecasts(f, w'.ctl, r'.scores))
                  && r'.scores == w'.scores[|m.scores|..])
  {
  }

  /** The run continued without interruption, and the one resumed from the save, after the first `n` turns. */
  predicate AgreeAt(cfg: Config, f: Forecasting, m: Loop, at: real, after: seq<Turn>, n: nat)
    requires n <= |after| && m.done == m.iterIdx > 0
  {
    Agree(Run(cfg, f, m, after[..n]), Run(cfg, f, Resumed(m, at), Shift(after, at)[..n]))
  }

  function Resumed(m: Loop, at: real): Loop
    requires m.done == m.iterIdx > 0
  {
    Resume(Save(None, m, at))
  }

  lemma {:induction false} TwinsAt(cfg: Config, f: Forecasting, m: Loop, at: real, after: seq<Turn>, n: nat)
    requires m.done == m.iterIdx > 0 && !m.halted && n <= |after|
    requires forall k: nat :: k <= n ==> AgreeAt(cfg, f, m, at, after, k)
    ensures Twins(m, at, Run(cfg, f, m, after[..n]), Run(cfg, f, Resumed(m, at), Shift(after, at)[..n]))
    decreases n
  {
    if n == 0 {
      assert after[..0] == [] && Shift(after, at)[..0] == [];
    } else {
      TwinsAt(cfg, f, m, at, after, n - 1);
      RunOneMore(cfg, f, m, after, n - 1);
      RunOneMore(cfg, f, Resumed(m, at), Shift(after, at), n - 1);
      TwinsStep(cfg, f, m, at, Run(cfg, f, m, after[..n - 1]), Run(cfg, f, Resumed(m, at), Shift(after, at)[..n - 1]), after[n - 1]);
      assert AgreeAt(cfg, f, m, at, after, n);
    }
  }

  lemma AgreeOneMore(cfg: Config, f: Forecasting, m: Loop, at: real, after: seq<Turn>, n: nat)
    requires m.done == m.iterIdx > 0 && !m.halted && n < |after|
    requires forall k: nat :: k <= n ==> AgreeAt(cfg, f, m, at, after, k)
    ensures AgreeAt(cfg, f, m, at, after, n + 1) <==> SameVerdict(cfg, f, m, after, n)
  {
    TwinsAt(cfg, f, m, at, after, n);
    RunOneMore(cfg, f, m, after, n);
    RunOneMore(cfg, f, Resumed(m, at), Shift(after, at), n);
    TwinsStep(cfg, f, m, at, Run(cfg, f, m, after[..n]), Run(cfg, f, Resumed(m, at), Shift(after, at)[..n]), after[n]);
  }

  /** Exactly when a resume with the forecaster on goes the way of the uninterrupted run, turn by turn and under any
      guards: when at no turn the forecaster would judge all the scores otherwise than those since the save. */
  lemma {:induction false} ResumeAgreesThroughoutIff(cfg: Config, f: Forecasting, m: Loop, at: real, after: seq<Turn>, n: nat)
    requires m.done == m.iterIdx > 0 && !m.halted && n <= |after|
    ensures (forall k: nat :: k <= n ==> AgreeAt(cfg, f, m, at, after, k))
       <==> (forall k: nat :: k < n ==> SameVerdict(cfg, f, m, after, k))
    decreases n
  {
    if n == 0 {
      assert after[..0] == [] && Shift(after, at)[..0] == [];
    } else {
      ResumeAgreesThroughoutIff(cfg, f, m, at, after, n - 1);
      if forall k: nat :: k <= n - 1 ==> AgreeAt(cfg, f, m, at, after, k) {
        AgreeOneMore(cfg, f, m, at, after, n - 1);
      } else {
        assert !forall k: nat :: k <= n ==> AgreeAt(cfg, f, m, at, after, k);
      }
    }
  }

  predicate OnlyForecasting(cfg: Config) {
    cfg.maxWallTime == None && cfg.maxIterations == None && cfg.noImproveLimit == None && cfg.failureRateLimit == None
  }

  /** A forecaster that always says stop. */
  const PESSIMIST := On((scores: seq<real>, target: real) => true)

  /** A trial that beats the best score. */
  function Winner(cfg: Config, c: Control): Turn {
    var best := if c.bestScore.Some? then c.bestScore.value - 1.0 else 0.0;
    Turn(false, 0.0, Trial(map[], Outcome("ok", map[cfg.objective.metric := Score(best, cfg.objective)])))
  }

  /** A turn that runs and reports a value, on a state that knows a best value or will know one. */
  predicate Reports(cfg: Config, s: Loop, t: Turn) {
    && !t.shutdown && Value(t.trial.outcome, cfg.objective).Some?
    && (s.ctl.bestValue.Some? || Improves(s.ctl.bestScore, t.trial.outcome, cfg.objective))
  }

  lemma ReportingStep(cfg: Config, s: Loop, t: Turn)
    requires OnlyForecasting(cfg) && !s.halted && Reports(cfg, s, t)
    ensures var e := Step(cfg, PESSIMIST, s, t);
            |e.scores| == |s.scores| + 1 && e.ctl.bestValue.Some? && (e.halted <==> |e.scores| >= 5)
  {
  }

  /** With such a turn repeated, the loop stops at the fifth score that this process has seen. */
  lemma {:induction false} RepeatedReport(cfg: Config, s: Loop, t: Turn, ts: seq<Turn>)
    requires OnlyForecasting(cfg) && !s.halted && Reports(cfg, s, t)
    requires ts != [] && forall i :: 0 <= i < |ts| ==> ts[i].trial == t.trial && !ts[i].shutdown
    requires |ts| == 1 || |s.scores| + |ts| <= 5
    ensures var e := Run(cfg, PESSIMIST, s, ts);
            |e.scores| == |s.scores| + |ts| && e.ctl.bestValue.Some? && (e.halted <==> |e.scores| >= 5)
    decreases |ts|
  {
    var init := ts[..|ts| - 1];
    if init == [] {
      ReportingStep(cfg, s, ts[0]);
    } else {
      RepeatedReport(cfg, s, t, init);
      ReportingStep(cfg, Run(cfg, PESSIMIST, s, init), ts[|ts| - 1]);
    }
  }

  lemma WinnerReports(cfg: Config, s: Loop)
    requires cfg.objective.metric != "_model_dir"
    ensures Reports(cfg, s, Winner(cfg, s.ctl))
  {
    var o := Winner(cfg, s.ctl).trial.outcome;
    var best := if s.ctl.bestScore.Some? then s.ctl.bestScore.value - 1.0 else 0.0;
    assert Value(o, cfg.objective) == Some(Score(best, cfg.objective));
    assert ScoreOf(o, cfg.objective) == best;
  }

  /** The scores are what a resume forgets. With no other guard, every forecaster and every continuation treats the
      resumed run as the uninterrupted one exactly if no score had been reported before the save. */
  lemma ForecastingForgetsScores(cfg: Config, m: Loop, at: real)
    requires m.done == m.iterIdx > 0 && !m.halted
    requires OnlyForecasting(cfg) && cfg.objective.metric != "_model_dir"
    ensures (forall f: Forecasting, after: seq<Turn> ::
               Agree(Run(cfg, f, m, after), Run(cfg, f, Resumed(m, at), Shift(after, at))))
       <==> m.scores == []
  {
    if m.scores == [] {
      forall f: Forecasting, after: seq<Turn>
        ensures Agree(Run(cfg, f, m, after), Run(cfg, f, Resumed(m, at), Shift(after, at)))
      {
        AgreeRuns(cfg, f, m, Resumed(m, at), after, at);
      }
    } else {
      var t := Winner(cfg, m.ctl);
      var after := seq(Max(1, 5 - |m.scores|), i => t);
      WinnerReports(cfg, m);
      RepeatedReport(cfg, m, t, after);
      RepeatedReport(cfg, Resumed(m, at), t, Shift(after, at));
      assert !Agree(Run(cfg, PESSIMIST, m, after), Run(cfg, PESSIMIST, Resumed(m, at), Shift(after, at)));
    }
  }
}
