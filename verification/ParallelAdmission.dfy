/** What one turn of the parallel loop does, in terms of the trials running, waiting and reserved: which proposals are
    submitted, and how the turn ends. */
module ParallelAdmission {
  import opened Wrappers
  import opened Trials
  import opened ParallelEngine
  import opened ParallelCorrectness
  import opened ParallelTheorems
  import Resources

  /** No reason to stop: no interruption, budget not committed, streak and share of failures below their limits. */
  predicate NoStop(cfg: Config, s: State, interrupt: bool) {
    && !interrupt
    && (cfg.maxIterations.Some? ==> s.done < cfg.maxIterations.value)
    && (cfg.noImproveLimit.Some? ==> s.ctl.streak < cfg.noImproveLimit.value)
    && (cfg.failureRateLimit.Some? ==>
          |s.ctl.recent| < Max(1, cfg.failureWindow)
          || Failures(s.ctl.recent) as real / |s.ctl.recent| as real < cfg.failureRateLimit.value)
  }

  lemma StopIff(u: Setup, s: State, interrupt: bool)
    ensures Stop(u, s, interrupt) <==> !NoStop(u.cfg, s, interrupt)
  {
  }

  /** Room for `n` more trials in the iteration budget. */
  predicate InBudget(cfg: Config, s: State, n: int) {
    cfg.maxIterations.Some? ==> s.done + |s.inFlight| + |s.completed| + n <= cfg.maxIterations.value
  }

  /** The policy is asked for as many trials as fit both the workers and the budget. */
  lemma SlotsMean(u: Setup, s: State, n: int)
    requires n >= 1
    ensures n <= Slots(u, s) <==> |s.inFlight| + n <= u.maxConcurrency && InBudget(u.cfg, s, n)
  {
  }

  /** What the first `k` requests take of a resource. */
  function Taken(requests: seq<Request>, k: nat, name: string): int
    requires k <= |requests|
  {
    if k == 0 then 0 else Taken(requests, k - 1, name) + Resources.Amount(requests[k - 1].cost, name)
  }

  /** The cost of request `k` is at most what the capacity leaves after the running trials and the first `k` requests. */
  ghost predicate Fits(s: State, requests: seq<Request>, k: nat)
    requires k < |requests|
  {
    var cost := requests[k].cost;
    forall i :: 0 <= i < |cost| ==>
      0 <= cost[i].1 <= Resources.Get(s.pool.capacity, cost[i].0) - Resources.Total(Costs(s.inFlight), cost[i].0)
                        - Taken(requests, k, cost[i].0)
  }

  /** Request `k` can follow the first `k`: nothing stops it, the budget has room for it, and it fits. */
  ghost predicate CanFollow(u: Setup, s: State, requests: seq<Request>, k: nat)
    requires k < |requests|
  {
    NoStop(u.cfg, s, requests[k].interrupt) && InBudget(u.cfg, s, k + 1) && Fits(s, requests, k)
  }

  lemma FirstSubmittedIff(u: Setup, result: int -> Outcome, start: State, s: State, requests: seq<Request>)
    requires Inv(u, result, start, s) && requests != []
    ensures SubmitOne(u, s, requests[0]).1 <==> CanFollow(u, s, requests, 0)
  {
    StopIff(u, s, requests[0].interrupt);
    PoolAnswer(u, result, start, s, requests[0].cost);
    assert forall name :: Taken(requests, 0, name) == 0;
  }

  lemma PoolAnswer(u: Setup, result: int -> Outcome, start: State, s: State, cost: Resources.Cost)
    requires Inv(u, result, start, s)
    ensures Resources.Acquired(s.pool, s.iterIdx, cost).1 == Resources.Granted <==>
              forall i :: 0 <= i < |cost| ==>
                0 <= cost[i].1 <= Resources.Get(s.pool.capacity, cost[i].0) - Resources.Total(Costs(s.inFlight), cost[i].0)
  {
    Resources.GrantedIff(s.pool, s.iterIdx, cost);
    assert s.iterIdx !in s.inFlight;
  }

  /** The state after one request was submitted. */
  lemma Submitted1(u: Setup, result: int -> Outcome, start: State, s: State, r: Request, next: State)
    requires Inv(u, result, start, s) && SubmitOne(u, s, r) == (next, true)
    ensures next.ctl == s.ctl && next.done == s.done && next.completed == s.completed
    ensures next.pool.capacity == s.pool.capacity && next.iterIdx == s.iterIdx + 1
    ensures |next.inFlight| == |s.inFlight| + 1
    ensures forall name :: Resources.Total(Costs(next.inFlight), name)
                           == Resources.Total(Costs(s.inFlight), name) + Resources.Amount(r.cost, name)
  {
    var i: int := s.iterIdx;
    assert i !in s.inFlight;
    assert next.inFlight.Keys == s.inFlight.Keys + {i};
    DisjointSize(s.inFlight.Keys, {i});
    forall name
      ensures Resources.Total(Costs(next.inFlight), name)
           == Resources.Total(Costs(s.inFlight), name) + Resources.Amount(r.cost, name)
    {
      TotalMore(s.inFlight, i, next.inFlight[i], name);
    }
  }

  lemma TotalMore(m: map<int, Submitted>, i: int, v: Submitted, name: string)
    requires i !in m
    ensures Resources.Total(Costs(m[i := v]), name) == Resources.Total(Costs(m), name) + Resources.Amount(v.cost, name)
  {
    Resources.TotalWithout(Costs(m[i := v]), i, name);
    assert Costs(m[i := v]) - {i} == Costs(m);
  }

  lemma {:induction false} TakenLater(requests: seq<Request>, k: nat, name: string)
    requires k < |requests|
    ensures Taken(requests, k + 1, name) == Resources.Amount(requests[0].cost, name) + Taken(requests[1..], k, name)
  {
    if k > 0 {
      TakenLater(requests, k - 1, name);
      assert requests[1..][k - 1] == requests[k];
    }
  }

  /** What can follow the first request, seen from before and from after it. */
  lemma FollowsLater(u: Setup, result: int -> Outcome, start: State, s: State, requests: seq<Request>, next: State, k: nat)
    requires Inv(u, result, start, s) && k + 1 < |requests| && SubmitOne(u, s, requests[0]) == (next, true)
    ensures CanFollow(u, s, requests, k + 1) <==> CanFollow(u, next, requests[1..], k)
  {
    Submitted1(u, result, start, s, requests[0], next);
    assert requests[1..][k] == requests[k + 1];
    forall name
      ensures Taken(requests, k + 1, name) == Resources.Amount(requests[0].cost, name) + Taken(requests[1..], k, name)
    {
      TakenLater(requests, k, name);
    }
    FitsLater(s, next, requests, k);
  }

  lemma FitsLater(s: State, next: State, requests: seq<Request>, k: nat)
    requires k + 1 < |requests| && next.pool.capacity == s.pool.capacity
    requires forall name :: Resources.Total(Costs(next.inFlight), name)
                            == Resources.Total(Costs(s.inFlight), name) + Resources.Amount(requests[0].cost, name)
    requires forall name :: Taken(requests, k + 1, name)
                            == Resources.Amount(requests[0].cost, name) + Taken(requests[1..], k, name)
    ensures Fits(s, requests, k + 1) <==> Fits(next, requests[1..], k)
  {
  }

  lemma {:induction false} SubmitsUpTo(u: Setup, result: int -> Outcome, start: State, s: State, requests: seq<Request>, k: nat)
    requires Inv(u, result, start, s) && WellFormed(requests) && k < |requests|
    ensures SubmitAll(u, s, requests).iterIdx > s.iterIdx + k <==> forall j :: 0 <= j <= k ==> CanFollow(u, s, requests, j)
    decreases |requests|
  {
    var (next, submitted) := SubmitOne(u, s, requests[0]);
    FirstSubmittedIff(u, result, start, s, requests);
    if submitted {
      SubmitOneInv(u, result, start, s, requests[0], next);
      Submitted1(u, result, start, s, requests[0], next);
      SubmitAllFrame(u, next, requests[1..]);
      if k > 0 {
        SubmitsUpTo(u, result, start, next, requests[1..], k - 1);
        forall j | 0 <= j < k
          ensures CanFollow(u, s, requests, j + 1) <==> CanFollow(u, next, requests[1..], j)
        {
          FollowsLater(u, result, start, s, requests, next, j);
        }
        AllFollow(u, s, requests, next, k);
      }
    }
  }

  lemma AllFollow(u: Setup, s: State, requests: seq<Request>, next: State, k: nat)
    requires 0 < k < |requests| && CanFollow(u, s, requests, 0)
    requires forall j :: 0 <= j < k ==> (CanFollow(u, s, requests, j + 1) <==> CanFollow(u, next, requests[1..], j))
    ensures (forall j :: 0 <= j <= k ==> CanFollow(u, s, requests, j))
       <==> (forall j :: 0 <= j <= k - 1 ==> CanFollow(u, next, requests[1..], j))
  {
    forall j | 1 <= j <= k
      ensures CanFollow(u, s, requests, j) <==> CanFollow(u, next, requests[1..], j - 1)
    {
      assert CanFollow(u, s, requests, (j - 1) + 1) <==> CanFollow(u, next, requests[1..], j - 1);
    }
    if forall j :: 0 <= j <= k ==> CanFollow(u, s, requests, j) {
      forall j | 0 <= j <= k - 1
        ensures CanFollow(u, next, requests[1..], j)
      {
        assert CanFollow(u, s, requests, j + 1);
      }
    }
  }

  /** The submit phase. In a reachable state the request number `k` is submitted exactly if nothing stops the phase, a worker
      is free, the budget has room for a trial, and each request up to it finds no reason to stop, room in the budget, and
      its cost within what the capacity leaves after the running trials and the requests before it. */
  lemma SubmittedIff(u: Setup, result: int -> Outcome, start: State, s: State, t: Tick, k: nat)
    requires Inv(u, result, start, s) && WellFormed(t.requests) && k < |t.requests|
    ensures Submit(u, s, t).iterIdx > s.iterIdx + k <==>
              && NoStop(u.cfg, s, t.interruptSubmit)
              && |s.inFlight| < u.maxConcurrency && InBudget(u.cfg, s, 1)
              && forall j :: 0 <= j <= k ==> CanFollow(u, s, t.requests, j)
  {
    StopIff(u, s, t.interruptSubmit);
    SlotsMean(u, s, 1);
    SubmitsUpTo(u, result, start, s, t.requests, k);
  }

  /** The first request, from the start of a campaign: it is submitted exactly if nothing stops it, fewer trials than
      workers are running, fewer trials than the budget are committed, waiting or running, and it fits the free capacity. */
  lemma FirstRequestIff(u: Setup, result: int -> Outcome, start: State, ticks: seq<Tick>, t: Tick)
    requires Start(start) && AllWellFormed(ticks) && WellFormed(t.requests) && t.requests != []
    ensures var s := Run(u, result, start, ticks).state;
            var cost := t.requests[0].cost;
            Submit(u, s, t).iterIdx > s.iterIdx <==>
              && NoStop(u.cfg, s, t.interruptSubmit) && NoStop(u.cfg, s, t.requests[0].interrupt)
              && |s.inFlight| < u.maxConcurrency
              && (u.cfg.maxIterations.Some? ==> s.done + |s.inFlight| + |s.completed| < u.cfg.maxIterations.value)
              && forall i :: 0 <= i < |cost| ==>
                   0 <= cost[i].1 <= Resources.Get(start.pool.capacity, cost[i].0)
                                     - Resources.Total(Costs(s.inFlight), cost[i].0)
  {
    var s := Run(u, result, start, ticks).state;
    RunInv(u, result, start, ticks);
    SubmittedIff(u, result, start, s, t, 0);
    InvCapacity(u, result, start, s);
    assert forall name :: Taken(t.requests, 0, name) == 0;
    assert CanFollow(u, s, t.requests, 0) <==> forall j :: 0 <= j <= 0 ==> CanFollow(u, s, t.requests, j);
  }

  lemma InvCapacity(u: Setup, result: int -> Outcome, start: State, s: State)
    requires Inv(u, result, start, s)
    ensures s.pool.capacity == start.pool.capacity
  {
  }

  /** How a turn ends. It leaves at once if there is a reason to stop and nothing runs or waits. Otherwise it submits, and
      then commits the next trial exactly if that was waiting already, or is running and its future is done. */
  lemma TurnEndsIff(u: Setup, result: int -> Outcome, start: State, s: State, t: Tick)
    requires Inv(u, result, start, s) && WellFormed(t.requests)
    ensures var (s', ending) := Turn(u, result, s, t);
            var stopped := !NoStop(u.cfg, s, t.interruptLoop) && s.inFlight == map[] && s.completed == map[];
            var running := Submit(u, s, t).inFlight;
            && (stopped ==> s' == s && ending == Left)
            && (ending == Committed <==>
                  !stopped && (s.nextToProcess in s.completed || (s.nextToProcess in running && s.nextToProcess in t.finished)))
            && (ending == Left <==> stopped || (running == map[] && s.completed == map[]))
  {
    StopIff(u, s, t.interruptLoop);
    PhasesHold(u, result, start, s, t);
    var s1 := Submit(u, s, t);
    var s2 := Drain(s1, t.finished, result);
    SubmitFrame(u, s, t);
    SleepOrLeave(u, result, s, t);
    EmptyWhenCaughtUp(s2);
    SubmitInv(u, result, start, s, t);
    InvPartition(u, result, start, s1);
    EmptyWhenCaughtUp(s1);
    assert s2.nextToProcess in s2.completed <==>
             s.nextToProcess in s.completed || (s.nextToProcess in s1.inFlight && s.nextToProcess in t.finished);
  }

  lemma InvPartition(u: Setup, result: int -> Outcome, start: State, s: State)
    requires Inv(u, result, start, s)
    ensures Partition(s)
  {
  }
}
