/** What one finished trial does to the control state of a campaign. Both engines share it:
    the serial engine runs it once per iteration, the parallel engine once per committed trial. */
module Trials {
  import opened Wrappers

  type Params = map<string, string>
  type Metrics = map<string, real>

  datatype Direction = Minimize | Maximize

  datatype Objective = Objective(metric: string, direction: Direction)

  /** The stop guards and the objective. `None` means that the guard is off. */
  datatype Config = Config(
    objective: Objective,
    maxWallTime: Option<real>,
    maxIterations: Option<int>,
    noImproveLimit: Option<int>,
    failureRateLimit: Option<real>,
    failureWindow: int)

  datatype Outcome = Outcome(status: string, metrics: Metrics)

  datatype Decision = Keep | Discard | Cancelled

  datatype Entry = Entry(iter: nat, status: string, decision: Decision, metrics: Metrics, params: Params)

  /** One finished trial: what was proposed and what came back. */
  datatype Trial = Trial(params: Params, outcome: Outcome)

  /** The part of the loop state that a commit reads and writes. A `bestScore` of `None` is Python's infinity. */
  datatype Control = Control(
    bestScore: Option<real>,
    bestValue: Option<real>,
    streak: nat,
    history: seq<Entry>,
    recent: seq<string>)

  const FRESH := Control(None, None, 0, [], [])

  /** The metrics that remain after the engine pops the model directory out of them. */
  function Reported(o: Outcome): Metrics {
    o.metrics - {"_model_dir"}
  }

  function ObjectiveValue(m: Metrics, obj: Objective): Option<real> {
    if obj.metric !in m then None else Some(m[obj.metric])
  }

  function Score(value: real, obj: Objective): real {
    if obj.direction == Minimize then value else -value
  }

  function Value(o: Outcome, obj: Objective): Option<real> {
    ObjectiveValue(Reported(o), obj)
  }

  /** A trial without the objective metric counts as failed, unless it was cancelled. */
  function FinalStatus(o: Outcome, obj: Objective): string {
    if o.status != "cancelled" && Value(o, obj) == None then "failed" else o.status
  }

  /** What both engines read off an outcome before they judge it. */
  method ReadOutcome(o: Outcome, obj: Objective) returns (metrics: Metrics, value: Option<real>, status: string)
    ensures metrics == Reported(o) && value == Value(o, obj) && status == FinalStatus(o, obj)
  {
    metrics := o.metrics - {"_model_dir"};
    value := ObjectiveValue(metrics, obj);
    status := o.status;
    if status != "cancelled" && value == None {
      status := "failed";
    }
  }

  /** Only a trial that was not cancelled and reports the objective competes for the best score. */
  predicate Contends(o: Outcome, obj: Objective) {
    o.status != "cancelled" && Value(o, obj).Some?
  }

  function ScoreOf(o: Outcome, obj: Objective): real
    requires Contends(o, obj)
  {
    Score(Value(o, obj).value, obj)
  }

  predicate Improves(best: Option<real>, o: Outcome, obj: Objective) {
    Contends(o, obj) && (best == None || ScoreOf(o, obj) < best.value)
  }

  function Decide(best: Option<real>, o: Outcome, obj: Objective): Decision {
    if o.status == "cancelled" then Cancelled
    else if Improves(best, o, obj) then Keep
    else Discard
  }

  function Window(cfg: Config): nat { Max(1, cfg.failureWindow) }

  /** Append a status and drop the oldest one when the window overflows. */
  function PushStatus(recent: seq<string>, status: string, window: nat): seq<string> {
    var longer := recent + [status];
    if |longer| > window then longer[1..] else longer
  }

  /** The new control state after trial `iter` came back. */
  function Commit(cfg: Config, c: Control, iter: nat, t: Trial): Control {
    var obj := cfg.objective;
    var o := t.outcome;
    var improved := Improves(c.bestScore, o, obj);
    Control(
      if improved then Some(ScoreOf(o, obj)) else c.bestScore,
      if improved then Value(o, obj) else c.bestValue,
      if improved then 0 else c.streak + 1,
      c.history + [Entry(iter, FinalStatus(o, obj), Decide(c.bestScore, o, obj), Reported(o), t.params)],
      PushStatus(c.recent, FinalStatus(o, obj), Window(cfg)))
  }

  /** Commit a sequence of trials, the first of them as trial number `iter`. */
  function Fold(cfg: Config, c: Control, iter: nat, ts: seq<Trial>): Control
    decreases |ts|
  {
    if ts == [] then c
    else Commit(cfg, Fold(cfg, c, iter, ts[..|ts| - 1]), iter + |ts| - 1, ts[|ts| - 1])
  }

  // ---------------------------------------------------------------- stop guards

  predicate NoImproveGuard(cfg: Config, streak: int) {
    cfg.noImproveLimit.Some? && streak >= cfg.noImproveLimit.value
  }

  /** The statuses that the failure-rate guard counts. */
  function Failures(statuses: seq<string>): (n: nat)
    ensures n <= |statuses|
  {
    if statuses == [] then 0
    else Failures(statuses[..|statuses| - 1]) + (if statuses[|statuses| - 1] in ["ok", "cancelled"] then 0 else 1)
  }

  predicate FailureRateGuard(cfg: Config, recent: seq<string>) {
    cfg.failureRateLimit.Some? && |recent| >= Window(cfg)
    && Failures(recent) as real / |recent| as real >= cfg.failureRateLimit.value
  }

  // ---------------------------------------------------------------- rewards

  /** The reward the serial engine reports to a policy that learns. */
  function SerialReward(best: Option<real>, o: Outcome, obj: Objective): real {
    var decision := Decide(best, o, obj);
    var status := FinalStatus(o, obj);
    if decision == Keep then 1.0
    else if status == "cancelled" then -0.05
    else if status == "failed" then -0.1
    else 0.0
  }

  /** The reward the parallel engine buffers for the same outcome. */
  function ParallelReward(best: Option<real>, o: Outcome, obj: Objective): real {
    if o.status == "cancelled" then -0.05
    else if Value(o, obj).Some? then (if Improves(best, o, obj) then 1.0 else 0.0)
    else -0.1
  }

  /** A trial that says it failed and yet reports the objective. */
  predicate FailedWithMetric(o: Outcome, obj: Objective) {
    o.status == "failed" && Value(o, obj).Some?
  }

  /** The two engines reward an outcome alike, except when a trial reports the objective, says that it
      failed, and does not improve: the serial engine then punishes it and the parallel engine does not. */
  lemma RewardsAgree(best: Option<real>, o: Outcome, obj: Objective)
    ensures SerialReward(best, o, obj) == ParallelReward(best, o, obj)
       <==> !(FailedWithMetric(o, obj) && !Improves(best, o, obj))
  {
    assert Decide(best, o, obj) == Keep <==> Improves(best, o, obj);
  }

  /** The rewards for a sequence of trials, in order. */
  function Rewards(cfg: Config, c: Control, iter: nat, ts: seq<Trial>, parallel: bool): (rs: seq<real>)
    ensures |rs| == |ts|
  {
    if ts == [] then []
    else
      var init := ts[..|ts| - 1];
      var best := Fold(cfg, c, iter, init).bestScore;
      var o := ts[|ts| - 1].outcome;
      Rewards(cfg, c, iter, init, parallel)
      + [if parallel then ParallelReward(best, o, cfg.objective) else SerialReward(best, o, cfg.objective)]
  }

  /** Over a whole campaign the two reward streams are equal exactly when no trial that reports the
      objective under the status "failed" was discarded. */
  lemma {:induction false} RewardStreamsAgree(cfg: Config, c: Control, iter: nat, ts: seq<Trial>)
    ensures Rewards(cfg, c, iter, ts, false) == Rewards(cfg, c, iter, ts, true)
       <==> forall i :: 0 <= i < |ts| && FailedWithMetric(ts[i].outcome, cfg.objective) ==>
              Improves(Fold(cfg, c, iter, ts[..i]).bestScore, ts[i].outcome, cfg.objective)
    decreases |ts|
  {
    if ts != [] {
      var init := ts[..|ts| - 1];
      var last := ts[|ts| - 1].outcome;
      RewardStreamsAgree(cfg, c, iter, init);
      RewardsAgree(Fold(cfg, c, iter, init).bestScore, last, cfg.objective);
      assert forall i :: 0 <= i < |init| ==> init[..i] == ts[..i];
      var s, p := Rewards(cfg, c, iter, ts, false), Rewards(cfg, c, iter, ts, true);
      assert s[..|ts| - 1] == Rewards(cfg, c, iter, init, false);
      assert p[..|ts| - 1] == Rewards(cfg, c, iter, init, true);
      assert s == s[..|ts| - 1] + [s[|ts| - 1]] && p == p[..|ts| - 1] + [p[|ts| - 1]];
    }
  }

  // ---------------------------------------------------------------- what the fold means

  /** Committing two runs of trials one after the other is committing them together. */
  lemma {:induction false} FoldAppend(cfg: Config, c: Control, iter: nat, a: seq<Trial>, b: seq<Trial>)
    ensures Fold(cfg, c, iter, a + b) == Fold(cfg, Fold(cfg, c, iter, a), iter + |a|, b)
    decreases |b|
  {
    if b == [] {
      assert a + b == a;
    } else {
      FoldAppend(cfg, c, iter, a, b[..|b| - 1]);
      assert (a + b)[..|a + b| - 1] == a + b[..|b| - 1];
    }
  }

  /** Trial `i` beats every contender before it. */
  ghost predicate SetsRecord(ts: seq<Trial>, i: nat, obj: Objective)
    requires i < |ts|
  {
    Contends(ts[i].outcome, obj)
    && forall j :: 0 <= j < i && Contends(ts[j].outcome, obj) ==> ScoreOf(ts[i].outcome, obj) < ScoreOf(ts[j].outcome, obj)
  }

  /** `b` is the first contender whose score no contender beats. */
  ghost predicate IsFirstBest(ts: seq<Trial>, b: nat, obj: Objective)
    requires b < |ts|
  {
    SetsRecord(ts, b, obj)
    && forall j :: 0 <= j < |ts| && Contends(ts[j].outcome, obj) ==> ScoreOf(ts[b].outcome, obj) <= ScoreOf(ts[j].outcome, obj)
  }

  /** One entry per trial, in order; a trial is kept exactly when it beats everything before it. */
  ghost predicate DescribesHistory(obj: Objective, history: seq<Entry>, ts: seq<Trial>) {
    && |history| == |ts|
    && forall i: nat :: i < |ts| ==> DescribesEntry(obj, history[i], ts, i)
  }

  ghost predicate DescribesEntry(obj: Objective, e: Entry, ts: seq<Trial>, i: nat)
    requires i < |ts|
  {
    && e.iter == i
    && e.status == FinalStatus(ts[i].outcome, obj)
    && e.metrics == Reported(ts[i].outcome)
    && e.params == ts[i].params
    && (e.decision == Keep <==> SetsRecord(ts, i, obj))
    && (e.decision == Cancelled <==> ts[i].outcome.status == "cancelled")
  }

  /** The best score is the minimum over the contenders, and the value is that of the first to reach it. */
  ghost predicate DescribesBest(obj: Objective, score: Option<real>, value: Option<real>, ts: seq<Trial>) {
    match score
    case None =>
      value == None && forall i: nat :: i < |ts| ==> !Contends(ts[i].outcome, obj)
    case Some(best) =>
      exists b: nat :: b < |ts| && IsFirstBest(ts, b, obj)
        && best == ScoreOf(ts[b].outcome, obj) && value == Value(ts[b].outcome, obj)
  }

  /** The streak is the number of entries after the last kept one. */
  ghost predicate DescribesStreak(streak: nat, history: seq<Entry>) {
    && streak <= |history|
    && (forall i: nat :: |history| - streak <= i < |history| ==> history[i].decision != Keep)
    && (streak < |history| ==> history[|history| - streak - 1].decision == Keep)
  }

  /** The status window holds the last `window` statuses. */
  ghost predicate DescribesRecent(window: nat, recent: seq<string>, history: seq<Entry>) {
    && |recent| == Min(|history|, window)
    && forall k: nat :: k < |recent| ==> recent[k] == history[|history| - |recent| + k].status
  }

  /** What the control state must say after the trials `ts`, stated without the commit function. */
  ghost predicate Describes(cfg: Config, c: Control, ts: seq<Trial>) {
    && DescribesHistory(cfg.objective, c.history, ts)
    && DescribesBest(cfg.objective, c.bestScore, c.bestValue, ts)
    && DescribesStreak(c.streak, c.history)
    && DescribesRecent(Window(cfg), c.recent, c.history)
  }

  lemma RecordInPrefix(init: seq<Trial>, t: Trial, i: nat, obj: Objective)
    requires i < |init|
    ensures SetsRecord(init + [t], i, obj) == SetsRecord(init, i, obj)
  {
    var ts := init + [t];
    assert forall j :: 0 <= j <= i ==> ts[j] == init[j];
  }

  lemma RecordAtEnd(obj: Objective, score: Option<real>, value: Option<real>, init: seq<Trial>, t: Trial)
    requires DescribesBest(obj, score, value, init)
    ensures SetsRecord(init + [t], |init|, obj) == Improves(score, t.outcome, obj)
  {
    var ts := init + [t];
    assert ts[|init|] == t;
    assert forall j :: 0 <= j < |init| ==> ts[j] == init[j];
    if score.Some? {
      var b: nat :| b < |init| && IsFirstBest(init, b, obj) && score.value == ScoreOf(init[b].outcome, obj);
      assert Contends(ts[b].outcome, obj);
    }
  }

  lemma CommitDescribesBest(cfg: Config, c: Control, init: seq<Trial>, t: Trial)
    requires DescribesBest(cfg.objective, c.bestScore, c.bestValue, init)
    ensures var c' := Commit(cfg, c, |init|, t);
            DescribesBest(cfg.objective, c'.bestScore, c'.bestValue, init + [t])
  {
    var obj := cfg.objective;
    var ts := init + [t];
    RecordAtEnd(obj, c.bestScore, c.bestValue, init, t);
    assert forall j :: 0 <= j < |init| ==> ts[j] == init[j];
    if Improves(c.bestScore, t.outcome, obj) {
      assert IsFirstBest(ts, |init|, obj);
    } else if c.bestScore.Some? {
      var b: nat :| b < |init| && IsFirstBest(init, b, obj)
        && c.bestScore.value == ScoreOf(init[b].outcome, obj) && c.bestValue == Value(init[b].outcome, obj);
      RecordInPrefix(init, t, b, obj);
      assert IsFirstBest(ts, b, obj);
    }
  }

  lemma CommitDescribesHistory(cfg: Config, c: Control, init: seq<Trial>, t: Trial)
    requires DescribesHistory(cfg.objective, c.history, init)
    requires DescribesBest(cfg.objective, c.bestScore, c.bestValue, init)
    ensures DescribesHistory(cfg.objective, Commit(cfg, c, |init|, t).history, init + [t])
  {
    var obj, ts := cfg.objective, init + [t];
    var h := Commit(cfg, c, |init|, t).history;
    RecordAtEnd(obj, c.bestScore, c.bestValue, init, t);
    forall i: nat | i < |ts|
      ensures DescribesEntry(obj, h[i], ts, i)
    {
      if i < |init| {
        RecordInPrefix(init, t, i, obj);
        assert DescribesEntry(obj, c.history[i], init, i);
      }
    }
  }

  lemma CommitDescribesStreak(cfg: Config, c: Control, iter: nat, t: Trial)
    requires DescribesStreak(c.streak, c.history)
    ensures DescribesStreak(Commit(cfg, c, iter, t).streak, Commit(cfg, c, iter, t).history)
  {
  }

  lemma CommitDescribesRecent(cfg: Config, c: Control, iter: nat, t: Trial)
    requires DescribesRecent(Window(cfg), c.recent, c.history)
    ensures DescribesRecent(Window(cfg), Commit(cfg, c, iter, t).recent, Commit(cfg, c, iter, t).history)
  {
  }

  /** After any trials committed from a fresh start, the control state is the one `Describes` pins down. */
  lemma {:induction false} FoldMeaning(cfg: Config, ts: seq<Trial>)
    ensures Describes(cfg, Fold(cfg, FRESH, 0, ts), ts)
    decreases |ts|
  {
    if ts != [] {
      var init, t := ts[..|ts| - 1], ts[|ts| - 1];
      FoldMeaning(cfg, init);
      var c := Fold(cfg, FRESH, 0, init);
      CommitDescribesBest(cfg, c, init, t);
      CommitDescribesHistory(cfg, c, init, t);
      CommitDescribesStreak(cfg, c, |init|, t);
      CommitDescribesRecent(cfg, c, |init|, t);
      assert init + [t] == ts;
    }
  }

  /** A keep restarts the no-improvement streak, and the best score never gets worse. */
  lemma {:induction false} BestNeverWorsens(cfg: Config, c: Control, iter: nat, ts: seq<Trial>)
    ensures c.bestScore.Some? ==>
              Fold(cfg, c, iter, ts).bestScore.Some? && Fold(cfg, c, iter, ts).bestScore.value <= c.bestScore.value
    ensures |Fold(cfg, c, iter, ts).history| == |c.history| + |ts|
    ensures c.history <= Fold(cfg, c, iter, ts).history
    decreases |ts|
  {
    if ts != [] {
      BestNeverWorsens(cfg, c, iter, ts[..|ts| - 1]);
    }
  }

  // ---------------------------------------------------------------- what the stop guards mean

  /** No kept entry among the last `n`, and there are that many. */
  predicate NoKeepAmongLast(h: seq<Entry>, n: int) {
    n <= |h| && forall k :: Max(0, |h| - n) <= k < |h| ==> h[k].decision != Keep
  }

  function Statuses(h: seq<Entry>): (ss: seq<string>)
    ensures |ss| == |h|
  {
    seq(|h|, i requires 0 <= i < |h| => h[i].status)
  }

  /** After any trials, the streak guard is raised exactly if none of the last `limit` entries was kept. */
  lemma StreakGuardMeans(cfg: Config, ts: seq<Trial>)
    ensures var c := Fold(cfg, FRESH, 0, ts);
            NoImproveGuard(cfg, c.streak) <==>
              cfg.noImproveLimit.Some? && NoKeepAmongLast(c.history, cfg.noImproveLimit.value)
  {
    var c := Fold(cfg, FRESH, 0, ts);
    FoldMeaning(cfg, ts);
    if cfg.noImproveLimit.Some? {
      StreakMeans(c.streak, c.history, cfg.noImproveLimit.value);
    }
  }

  /** The failure guard is raised exactly if the window is full and the share of failures among the last entries
      reaches the limit. */
  lemma FailureGuardMeans(cfg: Config, ts: seq<Trial>)
    ensures var c, w := Fold(cfg, FRESH, 0, ts), Window(cfg);
            && |c.history| == |ts|
            && (FailureRateGuard(cfg, c.recent) <==>
                  && cfg.failureRateLimit.Some? && |ts| >= w
                  && Failures(Statuses(c.history)[|ts| - w..]) as real / w as real >= cfg.failureRateLimit.value)
  {
    var c := Fold(cfg, FRESH, 0, ts);
    FoldMeaning(cfg, ts);
    RecentMeans(Window(cfg), c.recent, c.history);
    ShareMeans(cfg, c.recent, Statuses(c.history));
  }

  lemma ShareMeans(cfg: Config, recent: seq<string>, statuses: seq<string>)
    requires |recent| == Min(|statuses|, Window(cfg))
    requires |statuses| >= Window(cfg) ==> recent == statuses[|statuses| - Window(cfg)..]
    ensures FailureRateGuard(cfg, recent) <==>
              && cfg.failureRateLimit.Some? && |statuses| >= Window(cfg)
              && Failures(statuses[|statuses| - Window(cfg)..]) as real / Window(cfg) as real >= cfg.failureRateLimit.value
  {
  }

  lemma RecentMeans(window: nat, recent: seq<string>, history: seq<Entry>)
    requires DescribesRecent(window, recent, history)
    ensures |recent| == Min(|history|, window)
    ensures |history| >= window ==> recent == Statuses(history)[|history| - window..]
  {
  }

  lemma StreakMeans(streak: nat, history: seq<Entry>, limit: int)
    requires DescribesStreak(streak, history)
    ensures streak >= limit <==> NoKeepAmongLast(history, limit)
  {
    if streak < limit <= |history| {
      assert history[|history| - streak - 1].decision == Keep;
    }
  }

  /** The failures among some statuses are those that are neither "ok" nor "cancelled". */
  lemma {:induction false} FailuresCount(statuses: seq<string>)
    ensures Failures(statuses) == |set i | 0 <= i < |statuses| && statuses[i] !in ["ok", "cancelled"]|
  {
    if statuses != [] {
      var n := |statuses| - 1;
      FailuresCount(statuses[..n]);
      var before := set i | 0 <= i < n && statuses[..n][i] !in ["ok", "cancelled"];
      var now := set i | 0 <= i < |statuses| && statuses[i] !in ["ok", "cancelled"];
      assert now == if statuses[n] in ["ok", "cancelled"] then before else before + {n};
    }
  }

  // ---------------------------------------------------------------- on the numbers that trials report

  /** The trial was not cancelled, and its metrics contain the objective. The model directory is not a metric. */
  predicate Judged(o: Outcome, metric: string) {
    o.status != "cancelled" && metric != "_model_dir" && metric in o.metrics
  }

  /** `v` is strictly better than `w`: less when minimising, greater when maximising. */
  predicate Better(direction: Direction, v: real, w: real) {
    (direction == Minimize ==> v < w) && (direction == Maximize ==> v > w)
  }

  lemma JudgedContends(o: Outcome, obj: Objective)
    ensures Contends(o, obj) <==> Judged(o, obj.metric)
    ensures Judged(o, obj.metric) ==> Value(o, obj) == Some(o.metrics[obj.metric])
    ensures Contends(o, obj) ==> ScoreOf(o, obj) == (if obj.direction == Minimize then o.metrics[obj.metric] else -o.metrics[obj.metric])
  {
  }

  lemma BetterScores(a: Outcome, b: Outcome, obj: Objective)
    requires Judged(a, obj.metric) && Judged(b, obj.metric)
    ensures Contends(a, obj) && Contends(b, obj)
    ensures ScoreOf(a, obj) < ScoreOf(b, obj) <==> Better(obj.direction, a.metrics[obj.metric], b.metrics[obj.metric])
  {
    JudgedContends(a, obj);
    JudgedContends(b, obj);
  }

  /** Trial `i` is kept exactly if it was not cancelled, reports the objective, and reports a value strictly better, in the
      direction of the objective, than that of every earlier trial that was not cancelled and reports it. */
  lemma KeptIffBetter(cfg: Config, ts: seq<Trial>, i: nat)
    requires i < |ts|
    ensures var h, metric := Fold(cfg, FRESH, 0, ts).history, cfg.objective.metric;
            && |h| == |ts|
            && (h[i].decision == Keep <==>
                  && Judged(ts[i].outcome, metric)
                  && forall j :: 0 <= j < i && Judged(ts[j].outcome, metric) ==>
                       var value, earlier := ts[i].outcome.metrics[metric], ts[j].outcome.metrics[metric];
                       if cfg.objective.direction == Maximize then value > earlier else value < earlier)
            && (h[i].decision == Cancelled <==> ts[i].outcome.status == "cancelled")
            && h[i].status == (if Judged(ts[i].outcome, metric) || ts[i].outcome.status == "cancelled"
                               then ts[i].outcome.status else "failed")
            && h[i].metrics == ts[i].outcome.metrics - {"_model_dir"}
            && h[i].iter == i && h[i].params == ts[i].params
  {
    var h, obj := Fold(cfg, FRESH, 0, ts).history, cfg.objective;
    FoldMeaning(cfg, ts);
    assert DescribesEntry(obj, h[i], ts, i);
    JudgedContends(ts[i].outcome, obj);
    RecordIffBetter(ts, i, obj);
  }

  lemma RecordIffBetter(ts: seq<Trial>, i: nat, obj: Objective)
    requires i < |ts|
    ensures SetsRecord(ts, i, obj) <==>
              && Judged(ts[i].outcome, obj.metric)
              && forall j :: 0 <= j < i && Judged(ts[j].outcome, obj.metric) ==>
                   Better(obj.direction, ts[i].outcome.metrics[obj.metric], ts[j].outcome.metrics[obj.metric])
  {
    JudgedContends(ts[i].outcome, obj);
    forall j | 0 <= j < i
      ensures Contends(ts[j].outcome, obj) <==> Judged(ts[j].outcome, obj.metric)
      ensures Judged(ts[i].outcome, obj.metric) && Judged(ts[j].outcome, obj.metric) ==>
                (ScoreOf(ts[i].outcome, obj) < ScoreOf(ts[j].outcome, obj)
                 <==> Better(obj.direction, ts[i].outcome.metrics[obj.metric], ts[j].outcome.metrics[obj.metric]))
    {
      JudgedContends(ts[j].outcome, obj);
      if Judged(ts[i].outcome, obj.metric) && Judged(ts[j].outcome, obj.metric) {
        BetterScores(ts[i].outcome, ts[j].outcome, obj);
      }
    }
  }

  /** The best value is the least one reported by a trial that was not cancelled when minimising, and the greatest when
      maximising; there is none exactly if no such trial reports one. The best score is that value, negated to maximise. */
  lemma BestValueIsExtreme(cfg: Config, ts: seq<Trial>)
    ensures var best, metric := Fold(cfg, FRESH, 0, ts).bestValue, cfg.objective.metric;
            match best
            case None => forall i :: 0 <= i < |ts| ==> !Judged(ts[i].outcome, metric)
            case Some(v) =>
              && (exists i :: 0 <= i < |ts| && Judged(ts[i].outcome, metric) && ts[i].outcome.metrics[metric] == v)
              && Fold(cfg, FRESH, 0, ts).bestScore == Some(if cfg.objective.direction == Minimize then v else -v)
              && forall i :: 0 <= i < |ts| && Judged(ts[i].outcome, metric) ==>
                   if cfg.objective.direction == Maximize then ts[i].outcome.metrics[metric] <= v
                   else ts[i].outcome.metrics[metric] >= v
  {
    var c := Fold(cfg, FRESH, 0, ts);
    FoldMeaning(cfg, ts);
    ExtremeOf(cfg.objective, c.bestScore, c.bestValue, ts);
  }

  /** The same, for whatever `DescribesBest` pins down. */
  lemma ExtremeOf(obj: Objective, score: Option<real>, value: Option<real>, ts: seq<Trial>)
    requires DescribesBest(obj, score, value, ts)
    ensures score == None ==> value == None && forall i :: 0 <= i < |ts| ==> !Judged(ts[i].outcome, obj.metric)
    ensures score.Some? ==>
              && value.Some? && score.value == (if obj.direction == Minimize then value.value else -value.value)
              && (exists i :: 0 <= i < |ts| && Judged(ts[i].outcome, obj.metric) && ts[i].outcome.metrics[obj.metric] == value.value)
              && forall i :: 0 <= i < |ts| && Judged(ts[i].outcome, obj.metric) ==>
                   !Better(obj.direction, ts[i].outcome.metrics[obj.metric], value.value)
  {
    if score == None {
      forall i | 0 <= i < |ts|
        ensures !Judged(ts[i].outcome, obj.metric)
      {
        JudgedContends(ts[i].outcome, obj);
      }
    } else {
      var b: nat :| b < |ts| && IsFirstBest(ts, b, obj) && score.value == ScoreOf(ts[b].outcome, obj)
        && value == Value(ts[b].outcome, obj);
      JudgedContends(ts[b].outcome, obj);
      forall i | 0 <= i < |ts| && Judged(ts[i].outcome, obj.metric)
        ensures !Better(obj.direction, ts[i].outcome.metrics[obj.metric], value.value)
      {
        BetterScores(ts[i].outcome, ts[b].outcome, obj);
      }
    }
  }

  /** What the policy is paid for each kind of entry. Serial: a keep 1, a cancelled trial -0.05, a failed one -0.1, anything
      else nothing. Parallel: the same, but for a discarded trial it is the report of the objective that counts. */
  lemma {:induction false} RewardsByEntry(cfg: Config, ts: seq<Trial>, i: nat)
    requires i < |ts|
    ensures var e := Fold(cfg, FRESH, 0, ts).history;
            && |e| == |ts|
            && Rewards(cfg, FRESH, 0, ts, false)[i] ==
               (if e[i].decision == Keep then 1.0 else if e[i].decision == Cancelled then -0.05
                else if e[i].status == "failed" then -0.1 else 0.0)
            && Rewards(cfg, FRESH, 0, ts, true)[i] ==
               (if e[i].decision == Keep then 1.0 else if e[i].decision == Cancelled then -0.05
                else if Judged(ts[i].outcome, cfg.objective.metric) then 0.0 else -0.1)
    decreases |ts|
  {
    var n := |ts| - 1;
    var before := Fold(cfg, FRESH, 0, ts[..n]);
    BestNeverWorsens(cfg, FRESH, 0, ts[..n]);
    if i < n {
      RewardsByEntry(cfg, ts[..n], i);
    } else {
      JudgedContends(ts[n].outcome, cfg.objective);
      assert Decide(before.bestScore, ts[n].outcome, cfg.objective) == Keep <==> Improves(before.bestScore, ts[n].outcome, cfg.objective);
    }
  }
}
