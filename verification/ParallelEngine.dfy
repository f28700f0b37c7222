/** The parallel engine as a state machine. Trials are submitted in index order, finish in any order, wait in
    `completed`, and are committed in index order. */
module ParallelEngine {
  import opened Wrappers
  import opened Trials
  import Resources

  datatype Setup = Setup(cfg: Config, maxConcurrency: nat, learnable: bool)

  /** A proposal of the policy. `interrupt` is what the shutdown flag or the wall clock say when it is looked at. */
  datatype Request = Request(params: Params, cost: Resources.Cost, interrupt: bool)

  /** What the surroundings supply for one turn of the loop. `finished` are the trials whose future is done. */
  datatype Tick = Tick(interruptLoop: bool, interruptSubmit: bool, requests: seq<Request>, finished: set<int>)

  datatype Submitted = Submitted(iter: nat, params: Params, cost: Resources.Cost)

  /** The loop state. `proposed` is the trace of submitted proposals, `rewards` the calls made to the policy,
      `published` the best value that running trials can see. */
  datatype State = State(
    ctl: Control,
    iterIdx: nat,
    done: nat,
    nextToProcess: nat,
    inFlight: map<int, Submitted>,
    completed: map<int, (Outcome, Submitted)>,
    pending: map<int, real>,
    nextUnflushed: nat,
    pool: Resources.Pool,
    published: Option<real>,
    proposed: seq<Submitted>,
    rewards: seq<real>)

  // ---------------------------------------------------------------- one turn of the loop

  predicate Stop(u: Setup, s: State, interrupt: bool) {
    || interrupt
    || (u.cfg.maxIterations.Some? && s.done >= u.cfg.maxIterations.value)
    || NoImproveGuard(u.cfg, s.ctl.streak)
    || FailureRateGuard(u.cfg, s.ctl.recent)
  }

  function Slots(u: Setup, s: State): int {
    var slots := u.maxConcurrency - |s.inFlight|;
    if u.cfg.maxIterations.Some? then
      Min(slots, Max(0, u.cfg.maxIterations.value - s.done - |s.inFlight| - |s.completed|))
    else slots
  }

  predicate BudgetSpent(u: Setup, s: State) {
    u.cfg.maxIterations.Some? && s.done + |s.inFlight| + |s.completed| >= u.cfg.maxIterations.value
  }

  function Admit(s: State, r: Request, pool: Resources.Pool): State {
    var trial := Submitted(s.iterIdx, r.params, r.cost);
    s.(pool := pool, inFlight := s.inFlight[s.iterIdx := trial], proposed := s.proposed + [trial],
       iterIdx := s.iterIdx + 1)
  }

  /** One proposal: the state after it, and whether it was submitted. */
  function SubmitOne(u: Setup, s: State, r: Request): (State, bool) {
    if Stop(u, s, r.interrupt) || BudgetSpent(u, s) then (s, false)
    else
      var (pool, answer) := Resources.Acquired(s.pool, s.iterIdx, r.cost);
      if answer == Resources.Granted then (Admit(s, r, pool), true) else (s, false)
  }

  /** Submit proposals until one may not be submitted or does not fit. */
  function SubmitAll(u: Setup, s: State, requests: seq<Request>): State
    decreases |requests|
  {
    if requests == [] then s
    else
      var (s', submitted) := SubmitOne(u, s, requests[0]);
      if submitted then SubmitAll(u, s', requests[1..]) else s
  }

  function Submit(u: Setup, s: State, t: Tick): State {
    if Slots(u, s) > 0 && !Stop(u, s, t.interruptSubmit) then SubmitAll(u, s, t.requests) else s
  }

  /** Move trial `i` out of flight if its future is done. */
  function DrainOne(s: State, finished: set<int>, result: int -> Outcome, i: int): State {
    if i in s.inFlight && i in finished then
      s.(inFlight := s.inFlight - {i}, pool := Resources.Released(s.pool, i),
         completed := s.completed[i := (result(i), s.inFlight[i])])
    else s
  }

  function DrainBelow(s: State, finished: set<int>, result: int -> Outcome, n: nat): State
  {
    if n == 0 then s
    else
      var s' := DrainBelow(s, finished, result, n - 1);
      DrainOne(s', finished, result, n - 1)
  }

  /** In-flight trials are looked at in increasing order. */
  function Drain(s: State, finished: set<int>, result: int -> Outcome): State {
    DrainBelow(s, finished, result, s.iterIdx)
  }

  /** Hand the buffered rewards to the policy as long as the next one is there. */
  function Flush(pending: map<int, real>, next: nat, rewards: seq<real>): (map<int, real>, nat, seq<real>)
    decreases |pending|
  {
    if next !in pending then (pending, next, rewards)
    else
      assert pending.Keys == (pending - {next}).Keys + {next};
      Flush(pending - {next}, next + 1, rewards + [pending[next]])
  }

  function FlushRewards(u: Setup, s: State): State {
    if !u.learnable then s.(pending := map[])
    else
      var (pending, next, rewards) := Flush(s.pending, s.nextUnflushed, s.rewards);
      s.(pending := pending, nextUnflushed := next, rewards := rewards)
  }

  /** Commit the trial whose turn it is. */
  function CommitNext(u: Setup, s: State): State
    requires s.nextToProcess in s.completed
  {
    var (outcome, trial) := s.completed[s.nextToProcess];
    var reward := ParallelReward(s.ctl.bestScore, outcome, u.cfg.objective);
    var flushed := FlushRewards(u, s.(pending := s.pending[trial.iter := reward]));
    flushed.(
      completed := s.completed - {s.nextToProcess},
      nextToProcess := s.nextToProcess + 1,
      published := if Improves(s.ctl.bestScore, outcome, u.cfg.objective) then Value(outcome, u.cfg.objective) else s.published,
      ctl := Commit(u.cfg, s.ctl, trial.iter, Trial(trial.params, outcome)),
      done := s.done + 1)
  }

  datatype Ending = Left | Slept | Committed

  function Turn(u: Setup, result: int -> Outcome, s: State, t: Tick): (State, Ending) {
    if Stop(u, s, t.interruptLoop) && s.inFlight == map[] && s.completed == map[] then (s, Left)
    else
      var s1 := Submit(u, s, t);
      var s2 := Drain(s1, t.finished, result);
      if s2.nextToProcess in s2.completed then (CommitNext(u, s2), Committed)
      else if s2.inFlight == map[] && s2.completed == map[] then (s2, Left)
      else (s2, Slept)
  }

  /** The loop over many turns; it ends for good once a turn leaves it. */
  datatype Progress = Progress(state: State, left: bool)

  function Run(u: Setup, result: int -> Outcome, s: State, ticks: seq<Tick>): Progress
    decreases |ticks|
  {
    if ticks == [] then Progress(s, false)
    else
      var p := Run(u, result, s, ticks[..|ticks| - 1]);
      if p.left then p
      else
        var (s', ending) := Turn(u, result, p.state, ticks[|ticks| - 1]);
        Progress(s', ending == Left)
  }

  /** The state in which the loop starts: nothing in flight, and the counters of the checkpoint, if any. */
  ghost predicate Start(s: State) {
    && s.iterIdx == s.done == s.nextToProcess == s.nextUnflushed
    && s.inFlight == map[] && s.completed == map[] && s.pending == map[]
    && s.proposed == [] && s.rewards == []
    && s.published == s.ctl.bestValue
    && s.pool.reservations == map[] && Resources.Conserved(s.pool)
  }
}
