/** The parallel engine as it runs: one object whose fields are the loop's variables, updated in place. */
module ParallelLoop {
  import opened Wrappers
  import opened Trials
  import PE = ParallelEngine
  import PC = ParallelCorrectness
  import Resources

  class Engine {
    const setup: PE.Setup
    const pool: Resources.ResourcePool
    var bestScore: Option<real>
    var bestValue: Option<real>
    var streak: nat
    var history: seq<Entry>
    var recent: seq<string>
    var iterIdx: nat
    var iterationsDone: nat
    var nextToProcess: nat
    var inFlight: map<int, PE.Submitted>
    var completed: map<int, (Outcome, PE.Submitted)>
    var pendingRewards: map<int, real>
    var nextUnflushed: nat
    var published: Option<real>
    var proposed: seq<PE.Submitted>
    var rewards: seq<real>

    function Ctl(): Control
      reads this
    {
      Control(bestScore, bestValue, streak, history, recent)
    }

    function View(): PE.State
      reads this, pool
    {
      PE.State(Ctl(), iterIdx, iterationsDone, nextToProcess, inFlight, completed, pendingRewards, nextUnflushed,
               pool.View(), published, proposed, rewards)
    }

    /** Start from a control state and a counter: those of the checkpoint, or a fresh start. */
    constructor (setup: PE.Setup, capacity: map<string, int>, ctl: Control, iter: nat)
      requires capacity != map[] && forall k :: k in capacity ==> capacity[k] >= 0
      ensures this.setup == setup
      ensures fresh(pool)
      ensures View() == PE.State(ctl, iter, iter, iter, map[], map[], map[], iter,
                                 Resources.Pool(capacity, map[], map[]), ctl.bestValue, [], [])
      ensures PE.Start(View())
    {
      this.setup := setup;
      pool := new Resources.ResourcePool(capacity);
      bestScore, bestValue, streak := ctl.bestScore, ctl.bestValue, ctl.streak;
      history, recent := ctl.history, ctl.recent;
      iterIdx, iterationsDone, nextToProcess, nextUnflushed := iter, iter, iter, iter;
      inFlight, completed, pendingRewards := map[], map[], map[];
      published, proposed, rewards := ctl.bestValue, [], [];
      new;
      Resources.AlwaysConserved(capacity, []);
    }

    predicate StopRequested(interrupt: bool)
      reads this
    {
      || interrupt
      || (setup.cfg.maxIterations.Some? && iterationsDone >= setup.cfg.maxIterations.value)
      || NoImproveGuard(setup.cfg, streak)
      || FailureRateGuard(setup.cfg, recent)
    }

    /** Submit one proposal unless a stop condition, the budget or the pool says no. */
    method SubmitOne(r: PE.Request) returns (submitted: bool)
      modifies this, pool
      ensures (View(), submitted) == PE.SubmitOne(setup, old(View()), r)
    {
      if StopRequested(r.interrupt) {
        return false;
      }
      if setup.cfg.maxIterations.Some?
        && iterationsDone + |inFlight| + |completed| >= setup.cfg.maxIterations.value
      {
        return false;
      }
      var answer := pool.TryAcquire(iterIdx, r.cost);
      if answer != Resources.Granted {
        return false;
      }
      var trial := PE.Submitted(iterIdx, r.params, r.cost);
      proposed := proposed + [trial];
      inFlight := inFlight[iterIdx := trial];
      iterIdx := iterIdx + 1;
      submitted := true;
    }

    /** Fill the open slots with proposals, in order, until one is not submitted. */
    method SubmitPhase(t: PE.Tick)
      modifies this, pool
      ensures View() == PE.Submit(setup, old(View()), t)
    {
      var slots := setup.maxConcurrency - |inFlight|;
      if setup.cfg.maxIterations.Some? {
        slots := Min(slots, Max(0, setup.cfg.maxIterations.value - iterationsDone - |inFlight| - |completed|));
      }
      if slots > 0 && !StopRequested(t.interruptSubmit) {
        SubmitRequests(t.requests);
      }
    }

    method SubmitRequests(requests: seq<PE.Request>)
      modifies this, pool
      ensures View() == PE.SubmitAll(setup, old(View()), requests)
    {
      var i := 0;
      while i < |requests|
        invariant 0 <= i <= |requests|
        invariant PE.SubmitAll(setup, View(), requests[i..]) == PE.SubmitAll(setup, old(View()), requests)
      {
        assert requests[i..][1..] == requests[i + 1..];
        var submitted := SubmitOne(requests[i]);
        if !submitted {
          return;
        }
        i := i + 1;
      }
    }

    /** Move every finished trial from flight to `completed`, in increasing order, and free its resources. */
    method DrainFinished(finished: set<int>, result: int -> Outcome)
      modifies this, pool
      ensures View() == PE.Drain(old(View()), finished, result)
    {
      for i := 0 to iterIdx
        invariant iterIdx == old(iterIdx)
        invariant View() == PE.DrainBelow(old(View()), finished, result, i)
      {
        if i in inFlight && i in finished {
          var trial := inFlight[i];
          inFlight := inFlight - {i};
          pool.Release(i);
          completed := completed[i := (result(i), trial)];
        }
      }
    }

    method FlushRewards()
      modifies `pendingRewards, `nextUnflushed, `rewards
      ensures View() == PE.FlushRewards(setup, old(View()))
    {
      if !setup.learnable {
        pendingRewards := map[];
        return;
      }
      ghost var target := PE.Flush(pendingRewards, nextUnflushed, rewards);
      while nextUnflushed in pendingRewards
        invariant PE.Flush(pendingRewards, nextUnflushed, rewards) == target
        decreases |pendingRewards|
      {
        assert pendingRewards.Keys == (pendingRewards - {nextUnflushed}).Keys + {nextUnflushed as int};
        rewards := rewards + [pendingRewards[nextUnflushed]];
        pendingRewards := pendingRewards - {nextUnflushed};
        nextUnflushed := nextUnflushed + 1;
      }
    }

    /** Compare an outcome with the best so far; publish a new best to the running trials. */
    method Judge(status: string, value: Option<real>, ghost o: Outcome) returns (decision: Decision, reward: real)
      requires status == FinalStatus(o, setup.cfg.objective) && value == Value(o, setup.cfg.objective)
      modifies `bestScore, `bestValue, `streak, `published
      ensures decision == Decide(old(bestScore), o, setup.cfg.objective)
      ensures reward == ParallelReward(old(bestScore), o, setup.cfg.objective)
      ensures var better := Improves(old(bestScore), o, setup.cfg.objective);
              && bestScore == (if better then Some(ScoreOf(o, setup.cfg.objective)) else old(bestScore))
              && bestValue == (if better then value else old(bestValue))
              && published == (if better then value else old(published))
              && streak == (if better then 0 else old(streak) + 1)
    {
      decision, reward := Discard, 0.0;
      if status == "cancelled" {
        decision := Cancelled;
        streak := streak + 1;
        reward := -0.05;
      } else if value != None {
        var score := Score(value.value, setup.cfg.objective);
        if bestScore == None || score < bestScore.value {
          bestScore := Some(score);
          bestValue := value;
          published := value;
          decision := Keep;
          streak := 0;
          reward := 1.0;
        } else {
          streak := streak + 1;
        }
      } else {
        streak := streak + 1;
        reward := -0.1;
      }
    }

    method TrackStatus(status: string)
      modifies `recent
      ensures recent == PushStatus(old(recent), status, Window(setup.cfg))
    {
      recent := recent + [status];
      if |recent| > Max(1, setup.cfg.failureWindow) {
        recent := recent[1..];
      }
    }

    /** Judge a trial, buffer its reward and record it. */
    method Record(outcome: Outcome, trial: PE.Submitted)
      modifies `bestScore, `bestValue, `streak, `published, `pendingRewards, `nextUnflushed, `rewards, `history, `recent
      ensures Ctl() == Commit(setup.cfg, old(Ctl()), trial.iter, Trial(trial.params, outcome))
      ensures published == if Improves(old(bestScore), outcome, setup.cfg.objective)
                           then Value(outcome, setup.cfg.objective) else old(published)
      ensures var reward := ParallelReward(old(bestScore), outcome, setup.cfg.objective);
              var flushed := PE.FlushRewards(setup, old(View()).(pending := old(pendingRewards)[trial.iter := reward]));
              && pendingRewards == flushed.pending && nextUnflushed == flushed.nextUnflushed
              && rewards == flushed.rewards
    {
      var metrics, value, status := ReadOutcome(outcome, setup.cfg.objective);
      var decision, reward := Judge(status, value, outcome);

      pendingRewards := pendingRewards[trial.iter := reward];
      FlushRewards();

      history := history + [Entry(trial.iter, status, decision, metrics, trial.params)];
      TrackStatus(status);
    }

    method CommitNext()
      requires nextToProcess in completed
      modifies this
      ensures View() == PE.CommitNext(setup, old(View()))
    {
      var (outcome, trial) := completed[nextToProcess];
      completed := completed - {nextToProcess};
      nextToProcess := nextToProcess + 1;
      Record(outcome, trial);
      iterationsDone := iterationsDone + 1;
    }

    /** One turn of the loop: submit, drain, and commit the next trial or sleep. */
    method Turn(result: int -> Outcome, t: PE.Tick) returns (ending: PE.Ending)
      modifies this, pool
      ensures (View(), ending) == PE.Turn(setup, result, old(View()), t)
    {
      if StopRequested(t.interruptLoop) && inFlight == map[] && completed == map[] {
        return PE.Left;
      }
      SubmitPhase(t);
      DrainFinished(t.finished, result);
      if nextToProcess !in completed {
        return if inFlight == map[] && completed == map[] then PE.Left else PE.Slept;
      }
      CommitNext();
      ending := PE.Committed;
    }

    /** The whole loop, fed with what its surroundings supply at each turn. Whatever that is, it keeps the
        invariant of the engine, and its control state is the serial one. */
    method RunLoop(result: int -> Outcome, ticks: seq<PE.Tick>) returns (left: bool)
      requires PE.Start(View()) && PC.AllWellFormed(ticks)
      modifies this, pool
      ensures PE.Progress(View(), left) == PE.Run(setup, result, old(View()), ticks)
      ensures PC.Inv(setup, result, old(View()), View())
    {
      ghost var start := View();
      left := false;
      var i := 0;
      while i < |ticks| && !left
        invariant 0 <= i <= |ticks|
        invariant PE.Progress(View(), left) == PE.Run(setup, result, start, ticks[..i])
      {
        assert ticks[..i + 1][..i] == ticks[..i];
        var ending := Turn(result, ticks[i]);
        left := ending == PE.Left;
        i := i + 1;
      }
      assert ticks == ticks[..i] + ticks[i..];
      PC.LeftAbsorbs(setup, result, start, ticks[..i], ticks[i..]);
      PC.RunInv(setup, result, start, ticks);
    }
  }
}
