/** Switching between parameter proposals and code diffs, driven by the history and by the rewards. */
module Hybrid {
  import opened Wrappers
  import opened Trials
  import Campaign

  datatype Mode = Param | Diff

  datatype Limits = Limits(exploreIters: int, stallThreshold: int, failureLimit: int)

  /** Number of entries after the last kept one. */
  function SinceKeep(h: seq<Entry>): (n: nat)
    ensures n <= |h|
  {
    if h == [] || h[|h| - 1].decision == Keep then 0 else 1 + SinceKeep(h[..|h| - 1])
  }

  function Select(l: Limits, failures: nat, h: seq<Entry>): Mode {
    if |h| >= l.exploreIters && SinceKeep(h) >= l.stallThreshold && failures < l.failureLimit then Diff else Param
  }

  predicate Punished(reward: real) { reward <= -0.1 }

  /** The failure counter after the reward for a trial proposed in `mode`. */
  function React(mode: Mode, failures: nat, reward: real): nat {
    if mode == Param then failures else if Punished(reward) then failures + 1 else 0
  }

  class HybridPolicy {
    const limits: Limits
    var activeMode: Mode
    var diffConsecutiveFailures: nat

    constructor (limits: Limits)
      ensures this.limits == limits && activeMode == Param && diffConsecutiveFailures == 0
    {
      this.limits := limits;
      activeMode, diffConsecutiveFailures := Param, 0;
    }

    method SelectMode(history: seq<Entry>) returns (mode: Mode)
      ensures mode == Select(limits, diffConsecutiveFailures, history)
    {
      if |history| < limits.exploreIters {
        return Param;
      }
      var noImprove, i := 0, |history|;
      assert history[..i] == history;
      while i > 0 && history[i - 1].decision != Keep
        invariant 0 <= i <= |history| && noImprove == |history| - i
        invariant SinceKeep(history) == noImprove + SinceKeep(history[..i])
      {
        assert history[..i][..i - 1] == history[..i - 1];
        noImprove, i := noImprove + 1, i - 1;
      }
      if noImprove >= limits.stallThreshold {
        if diffConsecutiveFailures < limits.failureLimit {
          return Diff;
        }
      }
      return Param;
    }

    method Propose(history: seq<Entry>) returns (mode: Mode)
      modifies `activeMode
      ensures mode == activeMode == Select(limits, diffConsecutiveFailures, history)
    {
      mode := SelectMode(history);
      activeMode := mode;
    }

    method RecordReward(reward: real)
      modifies `diffConsecutiveFailures
      ensures diffConsecutiveFailures == React(activeMode, old(diffConsecutiveFailures), reward)
    {
      if activeMode == Diff {
        if reward <= -0.1 {
          diffConsecutiveFailures := diffConsecutiveFailures + 1;
        } else {
          diffConsecutiveFailures := 0;
        }
      }
    }
  }

  // ---------------------------------------------------------------- whole campaigns

  /** What happened in one iteration: the mode of the proposal and the reward it earned. */
  datatype Round = Round(mode: Mode, reward: real)

  /** The policy after a campaign, with one round per trial. */
  datatype Played = Played(failures: nat, rounds: seq<Round>)

  /** The serial engine driving a fresh policy: per trial one proposal on the history so far and one reward. The
      campaign may be a resumed one, so it starts from any control state. */
  function Play(l: Limits, cfg: Config, start: Control, iter: nat, ts: seq<Trial>): (p: Played)
    ensures |p.rounds| == |ts|
    decreases |ts|
  {
    if ts == [] then Played(0, [])
    else
      var init := ts[..|ts| - 1];
      var before := Play(l, cfg, start, iter, init);
      var ctl := Fold(cfg, start, iter, init);
      var mode := Select(l, before.failures, ctl.history);
      var reward := SerialReward(ctl.bestScore, ts[|ts| - 1].outcome, cfg.objective);
      Played(React(mode, before.failures, reward), before.rounds + [Round(mode, reward)])
  }

  /** The number of punished diff trials after the last diff trial that was not punished. */
  function FailingRun(rounds: seq<Round>): nat {
    if rounds == [] then 0
    else
      var init, last := rounds[..|rounds| - 1], rounds[|rounds| - 1];
      if last.mode == Param then FailingRun(init)
      else if Punished(last.reward) then FailingRun(init) + 1
      else 0
  }

  lemma {:induction false} SinceKeepMeans(h: seq<Entry>, n: int)
    ensures SinceKeep(h) >= n <==> NoKeepAmongLast(h, n)
    decreases |h|
  {
    if n > 0 && h != [] {
      var init := h[..|h| - 1];
      SinceKeepMeans(init, n - 1);
      assert forall k :: 0 <= k < |init| ==> init[k] == h[k];
      assert h[|h| - 1].decision == Keep ==> !NoKeepAmongLast(h, n);
    }
  }

  lemma {:induction false} PlayPrefix(l: Limits, cfg: Config, c: Control, iter: nat, ts: seq<Trial>, n: nat)
    requires n <= |ts|
    ensures Play(l, cfg, c, iter, ts[..n]).rounds == Play(l, cfg, c, iter, ts).rounds[..n]
    decreases |ts|
  {
    if n == |ts| {
      assert ts[..n] == ts;
    } else {
      PlayPrefix(l, cfg, c, iter, ts[..|ts| - 1], n);
      assert ts[..|ts| - 1][..n] == ts[..n];
    }
  }

  /** Trial `i` of a campaign is a diff exactly when by then the history had the exploration length, none of the last
      `stallThreshold` entries was kept, and fewer than `failureLimit` diffs had failed in a row. */
  lemma DiffIffEarned(l: Limits, cfg: Config, c: Control, iter: nat, ts: seq<Trial>, i: nat)
    requires i < |ts|
    ensures var h := Fold(cfg, c, iter, ts[..i]).history;
            var rounds := Play(l, cfg, c, iter, ts).rounds;
            rounds[i].mode == Diff <==>
              && |h| >= l.exploreIters
              && NoKeepAmongLast(h, l.stallThreshold)
              && FailingRun(rounds[..i]) < l.failureLimit
  {
    PlayPrefix(l, cfg, c, iter, ts, i + 1);
    PlayPrefix(l, cfg, c, iter, ts, i);
    assert ts[..i + 1][..i] == ts[..i];
    CounterIsFailingRun(l, cfg, c, iter, ts[..i]);
    SinceKeepMeans(Fold(cfg, c, iter, ts[..i]).history, l.stallThreshold);
    assert Play(l, cfg, c, iter, ts[..i + 1]).rounds[i] == Play(l, cfg, c, iter, ts).rounds[i];
  }

  /** The failure counter is the number of punished diff trials since the last unpunished one, and never exceeds its
      limit. */
  lemma {:induction false} CounterIsFailingRun(l: Limits, cfg: Config, c: Control, iter: nat, ts: seq<Trial>)
    ensures var p := Play(l, cfg, c, iter, ts);
            p.failures == FailingRun(p.rounds) && p.failures <= Max(0, l.failureLimit)
    decreases |ts|
  {
    if ts != [] {
      CounterIsFailingRun(l, cfg, c, iter, ts[..|ts| - 1]);
      var p := Play(l, cfg, c, iter, ts);
      assert p.rounds[..|ts| - 1] == Play(l, cfg, c, iter, ts[..|ts| - 1]).rounds;
    }
  }

  /** Once the counter is at its limit it stays there, and every later proposal is a parameter proposal. */
  lemma {:induction false} GivesUpForGood(l: Limits, cfg: Config, c: Control, iter: nat, a: seq<Trial>, b: seq<Trial>)
    requires Play(l, cfg, c, iter, a).failures >= l.failureLimit
    ensures Play(l, cfg, c, iter, a + b).failures == Play(l, cfg, c, iter, a).failures
    ensures forall i :: |a| <= i < |a + b| ==> Play(l, cfg, c, iter, a + b).rounds[i].mode == Param
    decreases |b|
  {
    if b == [] {
      assert a + b == a;
    } else {
      GivesUpForGood(l, cfg, c, iter, a, b[..|b| - 1]);
      assert (a + b)[..|a + b| - 1] == a + b[..|b| - 1];
    }
  }

  /** Exactly the trials that end as failed and are not kept are punished: rejected and crashed diffs always, cancelled
      ones never. */
  lemma PunishedIff(best: Option<real>, o: Outcome, obj: Objective)
    ensures Punished(SerialReward(best, o, obj)) <==> FinalStatus(o, obj) == "failed" && !Improves(best, o, obj)
    ensures o == Campaign.REJECTED || o == Campaign.CRASHED ==> Punished(SerialReward(best, o, obj))
    ensures o.status == "cancelled" ==> !Punished(SerialReward(best, o, obj))
  {
    assert Decide(best, o, obj) == Keep <==> Improves(best, o, obj);
  }

  /** How often diffs can be tried. If no diff trial of a campaign goes unpunished, there are at most `failureLimit`. */
  lemma {:induction false} UnluckyDiffsAreFew(l: Limits, cfg: Config, c: Control, iter: nat, ts: seq<Trial>)
    requires forall i :: 0 <= i < |ts| && Play(l, cfg, c, iter, ts).rounds[i].mode == Diff
               ==> Punished(Play(l, cfg, c, iter, ts).rounds[i].reward)
    ensures Diffs(Play(l, cfg, c, iter, ts).rounds) <= Max(0, l.failureLimit)
  {
    CounterIsFailingRun(l, cfg, c, iter, ts);
    AllPunished(Play(l, cfg, c, iter, ts).rounds);
  }

  function Diffs(rounds: seq<Round>): nat {
    if rounds == [] then 0
    else Diffs(rounds[..|rounds| - 1]) + (if rounds[|rounds| - 1].mode == Diff then 1 else 0)
  }

  lemma {:induction false} AllPunished(rounds: seq<Round>)
    requires forall i :: 0 <= i < |rounds| && rounds[i].mode == Diff ==> Punished(rounds[i].reward)
    ensures Diffs(rounds) == FailingRun(rounds)
  {
    if rounds != [] {
      AllPunished(rounds[..|rounds| - 1]);
    }
  }

  /** The engine's streak and the policy's own count of iterations since the last keep are the same number, if they were
      in the state the campaign started from. */
  lemma {:induction false} StreakIsSinceKeep(cfg: Config, c: Control, iter: nat, ts: seq<Trial>)
    requires c.streak == SinceKeep(c.history)
    ensures Fold(cfg, c, iter, ts).streak == SinceKeep(Fold(cfg, c, iter, ts).history)
    decreases |ts|
  {
    if ts != [] {
      StreakIsSinceKeep(cfg, c, iter, ts[..|ts| - 1]);
      var h := Fold(cfg, c, iter, ts).history;
      assert h[..|h| - 1] == Fold(cfg, c, iter, ts[..|ts| - 1]).history;
    }
  }

  // ---------------------------------------------------------------- a policy that is started again

  /** The tests on the history that a diff needs. */
  predicate Due(l: Limits, h: seq<Entry>) {
    |h| >= l.exploreIters && SinceKeep(h) >= l.stallThreshold
  }

  predicate AllPunishedDiffs(rounds: seq<Round>) {
    forall k :: 0 <= k < |rounds| && rounds[k].mode == Diff ==> Punished(rounds[k].reward)
  }

  /** The rounds of the uninterrupted campaign from trial `|a|` on, and those of the resumed one. */
  function Uninterrupted(l: Limits, cfg: Config, c: Control, iter: nat, a: seq<Trial>, b: seq<Trial>): (rs: seq<Round>)
    ensures |rs| == |b|
  {
    Play(l, cfg, c, iter, a + b).rounds[|a|..]
  }

  function Restarted(l: Limits, cfg: Config, c: Control, iter: nat, a: seq<Trial>, b: seq<Trial>): (rs: seq<Round>)
    ensures |rs| == |b|
  {
    Play(l, cfg, Fold(cfg, c, iter, a), iter + |a|, b).rounds
  }

  /** A restart forgets `lost` failures. If round `n` is due a diff, and no diff since the restart went unpunished, then
      the diffs tried since the restart exceed the limit with those failures or without them, or in neither case. */
  predicate SameLimit(l: Limits, lost: nat, h: seq<Entry>, since: seq<Round>) {
    Due(l, h) && AllPunishedDiffs(since) ==> (lost + Diffs(since) < l.failureLimit <==> Diffs(since) < l.failureLimit)
  }

  /** The counters of the two campaigns after rounds that were alike. */
  predicate CountersAlike(lost: nat, uninterrupted: nat, restarted: nat, since: seq<Round>) {
    if AllPunishedDiffs(since) then restarted == Diffs(since) && uninterrupted == lost + Diffs(since)
    else uninterrupted == restarted
  }

  lemma ReactAlike(lost: nat, uninterrupted: nat, restarted: nat, since: seq<Round>, r: Round)
    requires CountersAlike(lost, uninterrupted, restarted, since)
    ensures CountersAlike(lost, React(r.mode, uninterrupted, r.reward), React(r.mode, restarted, r.reward), since + [r])
       || (r.mode == Diff && !Punished(r.reward))
    ensures r.mode == Diff && !Punished(r.reward) ==>
              React(r.mode, uninterrupted, r.reward) == React(r.mode, restarted, r.reward) == 0
    ensures AllPunishedDiffs(since + [r]) <==> AllPunishedDiffs(since) && (r.mode == Diff ==> Punished(r.reward))
  {
    var more := since + [r];
    assert more[..|since|] == since && more[|since|] == r;
    if !AllPunishedDiffs(since) {
      var k :| 0 <= k < |since| && since[k].mode == Diff && !Punished(since[k].reward);
      assert more[k] == since[k];
    }
  }

  /** One round more, in both campaigns. */
  lemma OneRoundMore(l: Limits, cfg: Config, c: Control, iter: nat, a: seq<Trial>, b: seq<Trial>, n: nat)
    requires n < |b|
    ensures var ctl := Fold(cfg, Fold(cfg, c, iter, a), iter + |a|, b[..n]);
            var reward := SerialReward(ctl.bestScore, b[n].outcome, cfg.objective);
            var u, r := Play(l, cfg, c, iter, a + b[..n]), Play(l, cfg, Fold(cfg, c, iter, a), iter + |a|, b[..n]);
            var mu, mr := Select(l, u.failures, ctl.history), Select(l, r.failures, ctl.history);
            && Play(l, cfg, c, iter, a + b[..n + 1]) == Played(React(mu, u.failures, reward), u.rounds + [Round(mu, reward)])
            && Play(l, cfg, Fold(cfg, c, iter, a), iter + |a|, b[..n + 1])
               == Played(React(mr, r.failures, reward), r.rounds + [Round(mr, reward)])
  {
    FoldAppend(cfg, c, iter, a, b[..n]);
    assert b[..n + 1][..n] == b[..n];
    assert (a + b[..n + 1])[..|a| + n] == a + b[..n];
  }

  /** As long as the rounds are alike, so are the counters, up to the failures that the restart forgot. */
  lemma {:induction false} AlikeSoFar(l: Limits, cfg: Config, c: Control, iter: nat, a: seq<Trial>, b: seq<Trial>, n: nat)
    requires n <= |b|
    requires Uninterrupted(l, cfg, c, iter, a, b[..n]) == Restarted(l, cfg, c, iter, a, b[..n])
    ensures CountersAlike(Play(l, cfg, c, iter, a).failures, Play(l, cfg, c, iter, a + b[..n]).failures,
                          Play(l, cfg, Fold(cfg, c, iter, a), iter + |a|, b[..n]).failures, Restarted(l, cfg, c, iter, a, b[..n]))
    decreases n
  {
    if n == 0 {
      assert a + b[..0] == a;
    } else {
      OneRoundMore(l, cfg, c, iter, a, b, n - 1);
      var u, r := Uninterrupted(l, cfg, c, iter, a, b[..n]), Restarted(l, cfg, c, iter, a, b[..n]);
      assert u[..n - 1] == Uninterrupted(l, cfg, c, iter, a, b[..n - 1]);
      assert r[..n - 1] == Restarted(l, cfg, c, iter, a, b[..n - 1]);
      AlikeSoFar(l, cfg, c, iter, a, b, n - 1);
      assert u[n - 1] == r[n - 1] && r == r[..n - 1] + [r[n - 1]];
      ReactAlike(Play(l, cfg, c, iter, a).failures, Play(l, cfg, c, iter, a + b[..n - 1]).failures,
                 Play(l, cfg, Fold(cfg, c, iter, a), iter + |a|, b[..n - 1]).failures, r[..n - 1], r[n - 1]);
    }
  }

  predicate Alike(l: Limits, cfg: Config, c: Control, iter: nat, a: seq<Trial>, b: seq<Trial>) {
    Uninterrupted(l, cfg, c, iter, a, b) == Restarted(l, cfg, c, iter, a, b)
  }

  predicate SameLimitAt(l: Limits, cfg: Config, c: Control, iter: nat, a: seq<Trial>, b: seq<Trial>, k: nat)
    requires k <= |b|
  {
    SameLimit(l, Play(l, cfg, c, iter, a).failures, Fold(cfg, Fold(cfg, c, iter, a), iter + |a|, b[..k]).history,
              Restarted(l, cfg, c, iter, a, b[..k]))
  }

  /** The rounds of both campaigns with one trial more. */
  lemma RoundsMore(l: Limits, cfg: Config, c: Control, iter: nat, a: seq<Trial>, b: seq<Trial>, n: nat)
    requires n < |b|
    ensures var h := Fold(cfg, Fold(cfg, c, iter, a), iter + |a|, b[..n]).history;
            var mu := Select(l, Play(l, cfg, c, iter, a + b[..n]).failures, h);
            var mr := Select(l, Play(l, cfg, Fold(cfg, c, iter, a), iter + |a|, b[..n]).failures, h);
            Alike(l, cfg, c, iter, a, b[..n + 1]) <==> Alike(l, cfg, c, iter, a, b[..n]) && mu == mr
  {
    OneRoundMore(l, cfg, c, iter, a, b, n);
    var u, r := Uninterrupted(l, cfg, c, iter, a, b[..n + 1]), Restarted(l, cfg, c, iter, a, b[..n + 1]);
    assert u[..n] == Uninterrupted(l, cfg, c, iter, a, b[..n]);
    assert r[..n] == Restarted(l, cfg, c, iter, a, b[..n]);
    assert u == u[..n] + [u[n]] && r == r[..n] + [r[n]];
  }

  lemma AlikeMore(l: Limits, cfg: Config, c: Control, iter: nat, a: seq<Trial>, b: seq<Trial>, n: nat)
    requires n < |b|
    ensures Alike(l, cfg, c, iter, a, b[..n + 1]) <==> Alike(l, cfg, c, iter, a, b[..n]) && SameLimitAt(l, cfg, c, iter, a, b, n)
  {
    RoundsMore(l, cfg, c, iter, a, b, n);
    if Alike(l, cfg, c, iter, a, b[..n]) {
      AlikeSoFar(l, cfg, c, iter, a, b, n);
    }
  }

  /** Exactly when a restart, which forgets the failures counted so far, changes nothing: a resumed campaign proposes in the
      same modes as the uninterrupted one if and only if at no round that is due a diff, with all diffs since the restart
      punished, the forgotten failures make the difference between being below the limit and having reached it. */
  lemma {:induction false} RestartedAlikeIff(l: Limits, cfg: Config, c: Control, iter: nat, a: seq<Trial>, b: seq<Trial>, n: nat)
    requires n <= |b|
    ensures Alike(l, cfg, c, iter, a, b[..n]) <==> forall k :: 0 <= k < n ==> SameLimitAt(l, cfg, c, iter, a, b, k)
    decreases n
  {
    if n == 0 {
      assert a + b[..0] == a;
    } else {
      RestartedAlikeIff(l, cfg, c, iter, a, b, n - 1);
      AlikeMore(l, cfg, c, iter, a, b, n - 1);
      if Alike(l, cfg, c, iter, a, b[..n]) {
        forall k | 0 <= k < n
          ensures SameLimitAt(l, cfg, c, iter, a, b, k)
        {
          assert k < n - 1 || k == n - 1;
        }
      }
    }
  }
}
