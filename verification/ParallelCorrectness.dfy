/** What every run of the parallel engine keeps, whatever the order in which its trials finish. */
module ParallelCorrectness {
  import opened Trials
  import opened ParallelEngine
  import Resources

  // ---------------------------------------------------------------- the invariant

  /** In flight and completed together are exactly the trials in [nextToProcess, iterIdx), each in one of them. */
  ghost predicate Partition(s: State) {
    && s.done == s.nextToProcess <= s.iterIdx
    && (forall i :: s.nextToProcess <= i < s.iterIdx <==> i in s.inFlight || i in s.completed)
    && (forall i :: i in s.inFlight ==> i !in s.completed)
  }

  /** Every trial is the one submitted under its number, and a completed one holds what that trial returned. */
  ghost predicate Tracked(result: int -> Outcome, base: nat, s: State) {
    && base <= s.nextToProcess
    && |s.proposed| == s.iterIdx - base
    && (forall k: nat :: k < |s.proposed| ==> s.proposed[k].iter == base + k)
    && (forall i :: i in s.inFlight ==> base <= i < s.iterIdx && s.inFlight[i] == s.proposed[i - base])
    && (forall i :: i in s.completed ==> base <= i < s.iterIdx && s.completed[i] == (result(i), s.proposed[i - base]))
  }

  function Costs(inFlight: map<int, Submitted>): map<int, Resources.Cost> {
    map i | i in inFlight :: inFlight[i].cost
  }

  /** The pool holds one reservation for each trial in flight, of exactly its cost, and nothing else. */
  ghost predicate Admitted(capacity: map<string, int>, s: State) {
    && Resources.Conserved(s.pool)
    && s.pool.capacity == capacity
    && s.pool.reservations == Costs(s.inFlight)
  }

  /** The trials committed so far, in index order. */
  function CommittedTrials(result: int -> Outcome, base: nat, s: State): (ts: seq<Trial>)
    requires base <= s.nextToProcess <= base + |s.proposed|
    ensures |ts| == s.nextToProcess - base
  {
    seq(s.nextToProcess - base, k requires 0 <= k < s.nextToProcess - base =>
      Trial(s.proposed[k].params, result(base + k)))
  }

  /** The control state is the serial fold over the committed trials, and the policy has been paid for each of
      them, in order, with nothing left in the buffer. */
  ghost predicate Refines(u: Setup, result: int -> Outcome, start: State, s: State)
    requires start.iterIdx <= s.nextToProcess <= start.iterIdx + |s.proposed|
  {
    var ts := CommittedTrials(result, start.iterIdx, s);
    && s.ctl == Fold(u.cfg, start.ctl, start.iterIdx, ts)
    && s.published == s.ctl.bestValue
    && s.pending == map[]
    && (u.learnable ==> s.rewards == Rewards(u.cfg, start.ctl, start.iterIdx, ts, true)
                        && s.nextUnflushed == s.nextToProcess)
    && (!u.learnable ==> s.rewards == [])
  }

  ghost predicate Inv(u: Setup, result: int -> Outcome, start: State, s: State) {
    && Partition(s)
    && Tracked(result, start.iterIdx, s)
    && Admitted(start.pool.capacity, s)
    && Refines(u, result, start, s)
  }

  predicate WellFormed(requests: seq<Request>) {
    forall i :: 0 <= i < |requests| ==> Resources.Distinct(requests[i].cost) && Resources.NonNegative(requests[i].cost)
  }

  lemma StartInv(u: Setup, result: int -> Outcome, start: State)
    requires Start(start)
    ensures Inv(u, result, start, start)
  {
    assert CommittedTrials(result, start.iterIdx, start) == [];
    assert Costs(start.inFlight) == map[];
  }

  // ---------------------------------------------------------------- submitting

  lemma AdmitInv(u: Setup, result: int -> Outcome, start: State, s: State, r: Request)
    requires Inv(u, result, start, s) && Resources.Distinct(r.cost)
    requires Resources.Acquired(s.pool, s.iterIdx, r.cost).1 == Resources.Granted
    ensures Inv(u, result, start, Admit(s, r, Resources.Acquired(s.pool, s.iterIdx, r.cost).0))
  {
    var pool := Resources.Acquired(s.pool, s.iterIdx, r.cost).0;
    var s' := Admit(s, r, pool);
    Resources.AcquireConserves(s.pool, s.iterIdx, r.cost);
    assert Costs(s'.inFlight) == Costs(s.inFlight)[s.iterIdx := r.cost];
    assert CommittedTrials(result, start.iterIdx, s') == CommittedTrials(result, start.iterIdx, s);
    AdmitPartition(s, r, pool);
    AdmitTracked(result, start.iterIdx, s, r, pool);
  }

  lemma AdmitPartition(s: State, r: Request, pool: Resources.Pool)
    requires Partition(s)
    ensures Partition(Admit(s, r, pool))
  {
  }

  lemma AdmitTracked(result: int -> Outcome, base: nat, s: State, r: Request, pool: Resources.Pool)
    requires Tracked(result, base, s) && s.nextToProcess <= s.iterIdx
    ensures Tracked(result, base, Admit(s, r, pool))
  {
  }

  lemma SubmitOneInv(u: Setup, result: int -> Outcome, start: State, s: State, r: Request, next: State)
    requires Inv(u, result, start, s) && Resources.Distinct(r.cost) && SubmitOne(u, s, r) == (next, true)
    ensures Inv(u, result, start, next)
    ensures next.nextToProcess == s.nextToProcess && next.completed == s.completed
  {
    AdmitInv(u, result, start, s, r);
  }

  lemma {:induction false} SubmitAllInv(u: Setup, result: int -> Outcome, start: State, s: State, requests: seq<Request>)
    requires Inv(u, result, start, s) && WellFormed(requests)
    ensures Inv(u, result, start, SubmitAll(u, s, requests))
    ensures SubmitAll(u, s, requests).nextToProcess == s.nextToProcess
    ensures SubmitAll(u, s, requests).completed == s.completed
    decreases |requests|
  {
    if requests != [] {
      var (next, submitted) := SubmitOne(u, s, requests[0]);
      if submitted {
        SubmitOneInv(u, result, start, s, requests[0], next);
        SubmitAllInv(u, result, start, next, requests[1..]);
      }
    }
  }

  lemma SubmitInv(u: Setup, result: int -> Outcome, start: State, s: State, t: Tick)
    requires Inv(u, result, start, s) && WellFormed(t.requests)
    ensures Inv(u, result, start, Submit(u, s, t))
    ensures Submit(u, s, t).nextToProcess == s.nextToProcess
    ensures Submit(u, s, t).completed == s.completed
  {
    SubmitAllInv(u, result, start, s, t.requests);
  }

  // ---------------------------------------------------------------- draining

  lemma DrainOneAdmitted(capacity: map<string, int>, s: State, finished: set<int>, result: int -> Outcome, i: int, s': State)
    requires Admitted(capacity, s) && s' == DrainOne(s, finished, result, i)
    ensures Admitted(capacity, s')
  {
    if i in s.inFlight && i in finished {
      Resources.ReleaseConserves(s.pool, i);
      assert Costs(s'.inFlight) == Costs(s.inFlight) - {i};
    }
  }

  lemma {:induction false} DrainPartition(s: State, finished: set<int>, result: int -> Outcome, n: nat)
    requires Partition(s)
    ensures Partition(DrainBelow(s, finished, result, n))
    decreases n
  {
    if n > 0 {
      DrainPartition(s, finished, result, n - 1);
    }
  }

  lemma {:induction false} DrainTracked(base: nat, s: State, finished: set<int>, result: int -> Outcome, n: nat)
    requires Tracked(result, base, s)
    ensures Tracked(result, base, DrainBelow(s, finished, result, n))
    decreases n
  {
    if n > 0 {
      DrainTracked(base, s, finished, result, n - 1);
    }
  }

  lemma {:induction false} DrainAdmitted(capacity: map<string, int>, s: State, finished: set<int>,
                                         result: int -> Outcome, n: nat)
    requires Admitted(capacity, s)
    ensures Admitted(capacity, DrainBelow(s, finished, result, n))
    decreases n
  {
    if n > 0 {
      DrainAdmitted(capacity, s, finished, result, n - 1);
      DrainOneAdmitted(capacity, DrainBelow(s, finished, result, n - 1), finished, result, n - 1,
                       DrainBelow(s, finished, result, n));
    }
  }

  /** What draining leaves alone, and which trials it takes out of flight. */
  lemma {:induction false} DrainBelowFrame(s: State, finished: set<int>, result: int -> Outcome, n: nat)
    ensures var s' := DrainBelow(s, finished, result, n);
            s' == s.(inFlight := s'.inFlight, pool := s'.pool, completed := s'.completed)
            && s'.inFlight.Keys == (set i | i in s.inFlight && !(i in finished && 0 <= i < n))
    decreases n
  {
    if n > 0 {
      DrainBelowFrame(s, finished, result, n - 1);
    }
  }

  /** Draining moves exactly the trials in flight whose future is done. */
  lemma DrainMoves(s: State, finished: set<int>, result: int -> Outcome)
    requires Partition(s) && Partition(Drain(s, finished, result))
    ensures var s' := Drain(s, finished, result);
            && s'.inFlight.Keys == s.inFlight.Keys - finished
            && s'.completed.Keys == s.completed.Keys + s.inFlight.Keys * finished
  {
    DrainBelowFrame(s, finished, result, s.iterIdx);
    var s' := Drain(s, finished, result);
    forall i
      ensures i in s'.completed.Keys <==> i in s.completed.Keys + s.inFlight.Keys * finished
    {
      assert i in s'.completed <==> s.nextToProcess <= i < s.iterIdx && i !in s'.inFlight;
    }
  }

  lemma DrainInv(u: Setup, result: int -> Outcome, start: State, s: State, finished: set<int>)
    requires Inv(u, result, start, s)
    ensures Inv(u, result, start, Drain(s, finished, result))
    ensures var s' := Drain(s, finished, result);
            && s' == s.(inFlight := s'.inFlight, pool := s'.pool, completed := s'.completed)
            && s'.inFlight.Keys == s.inFlight.Keys - finished
            && s'.completed.Keys == s.completed.Keys + s.inFlight.Keys * finished
  {
    DrainPartition(s, finished, result, s.iterIdx);
    DrainTracked(start.iterIdx, s, finished, result, s.iterIdx);
    DrainAdmitted(start.pool.capacity, s, finished, result, s.iterIdx);
    DrainBelowFrame(s, finished, result, s.iterIdx);
    DrainMoves(s, finished, result);
    assert CommittedTrials(result, start.iterIdx, Drain(s, finished, result)) == CommittedTrials(result, start.iterIdx, s);
  }

  // ---------------------------------------------------------------- committing

  /** With an empty buffer and the next reward put into it, flushing pays exactly that reward. */
  lemma CommitFlushes(u: Setup, s: State, n: nat, reward: real)
    requires s.pending == map[] && (u.learnable ==> s.nextUnflushed == n)
    ensures FlushRewards(u, s.(pending := s.pending[n := reward])) ==
            if u.learnable then s.(nextUnflushed := n + 1, rewards := s.rewards + [reward]) else s
  {
    if u.learnable {
      var m: map<int, real> := map[n as int := reward];
      assert s.pending[n := reward] == m;
      assert m - {n} == map[];
      assert Flush(map[], n + 1, s.rewards + [reward]) == (map[], n + 1, s.rewards + [reward]);
    }
  }

  /** The whole effect of a commit on a state that satisfies the invariant. */
  lemma CommitEffect(u: Setup, result: int -> Outcome, start: State, s: State)
    requires Inv(u, result, start, s) && s.nextToProcess in s.completed
    ensures var n, o := s.nextToProcess, result(s.nextToProcess);
            var best := s.ctl.bestScore;
            CommitNext(u, s) == s.(
              completed := s.completed - {n},
              nextToProcess := n + 1,
              done := n + 1,
              published := if Improves(best, o, u.cfg.objective) then Value(o, u.cfg.objective) else s.published,
              ctl := Commit(u.cfg, s.ctl, n, Trial(s.proposed[n - start.iterIdx].params, o)),
              nextUnflushed := if u.learnable then n + 1 else s.nextUnflushed,
              rewards := if u.learnable then s.rewards + [ParallelReward(best, o, u.cfg.objective)] else s.rewards)
  {
    var n := s.nextToProcess;
    assert s.completed[n] == (result(n), s.proposed[n - start.iterIdx]);
    CommitFlushes(u, s, n, ParallelReward(s.ctl.bestScore, result(n), u.cfg.objective));
  }

  lemma CommitRefines(u: Setup, result: int -> Outcome, start: State, s: State)
    requires Inv(u, result, start, s) && s.nextToProcess in s.completed
    ensures start.iterIdx <= CommitNext(u, s).nextToProcess <= start.iterIdx + |CommitNext(u, s).proposed|
    ensures Refines(u, result, start, CommitNext(u, s))
  {
    var base, n := start.iterIdx, s.nextToProcess;
    CommitEffect(u, result, start, s);
    var s' := CommitNext(u, s);
    var ts, ts' := CommittedTrials(result, base, s), CommittedTrials(result, base, s');
    assert ts'[..|ts' | - 1] == ts;
    assert ts'[n - base] == Trial(s.proposed[n - base].params, result(n));
  }

  lemma CommitInv(u: Setup, result: int -> Outcome, start: State, s: State)
    requires Inv(u, result, start, s) && s.nextToProcess in s.completed
    ensures Inv(u, result, start, CommitNext(u, s))
  {
    CommitEffect(u, result, start, s);
    CommitRefines(u, result, start, s);
    assert Partition(CommitNext(u, s));
    assert Tracked(result, start.iterIdx, CommitNext(u, s));
  }

  // ---------------------------------------------------------------- every run

  lemma TurnInv(u: Setup, result: int -> Outcome, start: State, s: State, t: Tick)
    requires Inv(u, result, start, s) && WellFormed(t.requests)
    ensures Inv(u, result, start, Turn(u, result, s, t).0)
  {
    SubmitInv(u, result, start, s, t);
    DrainInv(u, result, start, Submit(u, s, t), t.finished);
    var s2 := Drain(Submit(u, s, t), t.finished, result);
    if s2.nextToProcess in s2.completed {
      CommitInv(u, result, start, s2);
    }
    TurnEnds(u, result, s, t, s2);
  }

  lemma TurnEnds(u: Setup, result: int -> Outcome, s: State, t: Tick, drained: State)
    requires drained == Drain(Submit(u, s, t), t.finished, result)
    ensures Turn(u, result, s, t).0
         == if Stop(u, s, t.interruptLoop) && s.inFlight == map[] && s.completed == map[] then s
            else if drained.nextToProcess in drained.completed then CommitNext(u, drained)
            else drained
  {
  }

  /** Once the loop has left, nothing changes any more. */
  lemma {:induction false} LeftAbsorbs(u: Setup, result: int -> Outcome, start: State, a: seq<Tick>, b: seq<Tick>)
    ensures Run(u, result, start, a).left || b == [] ==> Run(u, result, start, a + b) == Run(u, result, start, a)
    decreases |b|
  {
    if b == [] {
      assert a + b == a;
    } else {
      LeftAbsorbs(u, result, start, a, b[..|b| - 1]);
      assert (a + b)[..|a + b| - 1] == a + b[..|b| - 1];
    }
  }

  predicate AllWellFormed(ticks: seq<Tick>) {
    forall i :: 0 <= i < |ticks| ==> WellFormed(ticks[i].requests)
  }

  /** The invariant holds in every reachable state. */
  lemma {:induction false} RunInv(u: Setup, result: int -> Outcome, start: State, ticks: seq<Tick>)
    requires Start(start) && AllWellFormed(ticks)
    ensures Inv(u, result, start, Run(u, result, start, ticks).state)
    decreases |ticks|
  {
    if ticks == [] {
      StartInv(u, result, start);
    } else {
      var init := ticks[..|ticks| - 1];
      assert forall i :: 0 <= i < |init| ==> init[i] == ticks[i];
      RunInv(u, result, start, init);
      TurnInv(u, result, start, Run(u, result, start, init).state, ticks[|ticks| - 1]);
    }
  }
}
