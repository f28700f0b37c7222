/** Cancelling a trial while it runs, from its progress reports and the best value so far. */
module Guard {
  import opened Wrappers
  import opened Trials

  datatype GuardConfig = GuardConfig(minSteps: int, minReports: int, direction: Direction)

  /** A progress report: its step, and the watched metric if it contains it. */
  datatype Report = Report(step: int, value: Option<real>)

  /** What the watcher sees after one sleep: the stop and shutdown flags, the reports that arrived, and the best value. */
  datatype Tick = Tick(stopped: bool, shutdown: bool, reports: seq<Report>, best: Option<real>)

  /** Whether a minimising series is forecast to end above a target. */
  type Forecaster = (seq<real>, real) -> bool

  datatype Verdict = Continue(reason: string) | Cancel(reason: string)

  function MinOf(s: seq<real>): real
    requires s != []
  {
    if |s| == 1 then s[0] else Less(MinOf(s[..|s| - 1]), s[|s| - 1])
  }

  function MaxOf(s: seq<real>): real
    requires s != []
  {
    if |s| == 1 then s[0] else -Less(-MaxOf(s[..|s| - 1]), -s[|s| - 1])
  }

  function Less(a: real, b: real): real { if b < a then b else a }

  function Negated(s: seq<real>): (n: seq<real>)
    ensures |n| == |s|
  {
    seq(|s|, i requires 0 <= i < |s| => -s[i])
  }

  /** The decision on the series seen so far. */
  function Evaluate(cfg: GuardConfig, forecast: Forecaster, series: seq<real>, best: Option<real>): Verdict {
    if best == None then Continue("no_best_yet")
    else if |series| < Max(cfg.minReports, 5) then Continue("insufficient_reports")
    else if cfg.direction == Maximize then
      if MaxOf(series) >= best.value then Continue("current_already_beats_best")
      else if forecast(Negated(series), -best.value) then Cancel("forecast_below_best")
      else Continue("forecast_above_best")
    else
      if MinOf(series) <= best.value then Continue("current_already_beats_best")
      else if forecast(series, best.value) then Cancel("forecast_above_best")
      else Continue("forecast_below_best")
  }

  /** The watcher between two sleeps. `control` is what it wrote to the control file of the trial. */
  datatype Watch = Watch(accumulated: seq<real>, latestStep: int, over: bool, control: Option<string>)

  const START := Watch([], 0, false, None)

  /** The values of the watched metric in a batch of reports, in order. */
  function ValuesOf(reports: seq<Report>): seq<real> {
    if reports == [] then []
    else
      var last := reports[|reports| - 1];
      ValuesOf(reports[..|reports| - 1]) + (if last.value.Some? then [last.value.value] else [])
  }

  function LatestStep(step: int, reports: seq<Report>): int {
    if reports == [] then step
    else Max(LatestStep(step, reports[..|reports| - 1]), reports[|reports| - 1].step)
  }

  /** One turn of the watcher. */
  function Next(cfg: GuardConfig, forecast: Forecaster, w: Watch, t: Tick): Watch {
    if w.over then w
    else if t.stopped || t.shutdown then w.(over := true)
    else
      var series := w.accumulated + ValuesOf(t.reports);
      var step := LatestStep(w.latestStep, t.reports);
      var seen := w.(accumulated := series, latestStep := step);
      if series == [] || step < cfg.minSteps || |series| < cfg.minReports then seen
      else
        match Evaluate(cfg, forecast, series, t.best)
        case Cancel(reason) => seen.(over := true, control := Some(reason))
        case Continue(_) => seen
  }

  function Run(cfg: GuardConfig, forecast: Forecaster, w: Watch, ts: seq<Tick>): Watch
    decreases |ts|
  {
    if ts == [] then w else Next(cfg, forecast, Run(cfg, forecast, w, ts[..|ts| - 1]), ts[|ts| - 1])
  }

  /** The watcher as it runs: a loop that buffers reports and sets the cancelled flag at most once. */
  class IntraIterationGuard {
    const cfg: GuardConfig
    const forecast: Forecaster
    var cancelled: bool
    var cancelReason: string

    constructor (cfg: GuardConfig, forecast: Forecaster)
      ensures this.cfg == cfg && this.forecast == forecast && !cancelled
    {
      this.cfg, this.forecast := cfg, forecast;
      cancelled, cancelReason := false, "";
    }

    method Drain(accumulated: seq<real>, latestStep: int, reports: seq<Report>) returns (series: seq<real>, step: int)
      ensures series == accumulated + ValuesOf(reports) && step == LatestStep(latestStep, reports)
    {
      series, step := accumulated, latestStep;
      for i := 0 to |reports|
        invariant series == accumulated + ValuesOf(reports[..i])
        invariant step == LatestStep(latestStep, reports[..i])
      {
        var r := reports[i];
        assert reports[..i + 1][..i] == reports[..i];
        if r.value.Some? {
          series := series + [r.value.value];
        }
        if r.step > step {
          step := r.step;
        }
      }
      assert reports[..|reports|] == reports;
    }

    method Loop(ts: seq<Tick>)
      requires !cancelled
      modifies this
      ensures var w := Run(cfg, forecast, START, ts);
              && (cancelled <==> w.control.Some?)
              && (cancelled ==> w.control == Some(cancelReason))
    {
      var accumulated: seq<real> := [];
      var latestStep := 0;
      var i := 0;
      while i < |ts|
        invariant 0 <= i <= |ts| && !cancelled
        invariant Run(cfg, forecast, START, ts[..i]) == Watch(accumulated, latestStep, false, None)
      {
        var t := ts[i];
        ghost var before := Run(cfg, forecast, START, ts[..i]);
        assert ts[..i + 1][..i] == ts[..i];
        assert Run(cfg, forecast, START, ts[..i + 1]) == Next(cfg, forecast, before, t);
        assert ts == ts[..i + 1] + ts[i + 1..];
        if t.stopped || t.shutdown {
          OverAbsorbs(cfg, forecast, START, ts[..i + 1], ts[i + 1..]);
          return;
        }
        accumulated, latestStep := Drain(accumulated, latestStep, t.reports);
        i := i + 1;
        if accumulated == [] || latestStep < cfg.minSteps || |accumulated| < cfg.minReports {
          continue;
        }
        var verdict := Evaluate(cfg, forecast, accumulated, t.best);
        if verdict.Cancel? {
          cancelled := true;
          cancelReason := verdict.reason;
          OverAbsorbs(cfg, forecast, START, ts[..i], ts[i..]);
          return;
        }
      }
      assert ts[..|ts|] == ts;
    }
  }

  // ---------------------------------------------------------------- guarantees over a whole watch

  /** Once the watcher is over, nothing changes: it cancels at most once. */
  lemma {:induction false} OverAbsorbs(cfg: GuardConfig, f: Forecaster, w: Watch, a: seq<Tick>, b: seq<Tick>)
    requires Run(cfg, f, w, a).over
    ensures Run(cfg, f, w, a + b) == Run(cfg, f, w, a)
    decreases |b|
  {
    if b == [] {
      assert a + b == a;
    } else {
      OverAbsorbs(cfg, f, w, a, b[..|b| - 1]);
      assert (a + b)[..|a + b| - 1] == a + b[..|b| - 1];
    }
  }

  /** The least value of a series is one of its values and bounds them all. */
  lemma {:induction false} MinIsLeast(s: seq<real>)
    requires s != []
    ensures exists i :: 0 <= i < |s| && s[i] == MinOf(s)
    ensures forall i :: 0 <= i < |s| ==> MinOf(s) <= s[i]
  {
    var n := |s| - 1;
    if n == 0 {
      assert s[0] == MinOf(s);
    } else {
      var init := s[..n];
      MinIsLeast(init);
      var i :| 0 <= i < n && init[i] == MinOf(init);
      assert s[i] == init[i] && MinOf(s) == Less(s[i], s[n]);
      assert forall j :: 0 <= j < n ==> s[j] == init[j];
    }
  }

  lemma MaxIsGreatest(s: seq<real>)
    requires s != []
    ensures exists i :: 0 <= i < |s| && s[i] == MaxOf(s)
    ensures forall i :: 0 <= i < |s| ==> s[i] <= MaxOf(s)
  {
    NegatedExtremes(s);
    MinIsLeast(Negated(s));
    var i :| 0 <= i < |s| && Negated(s)[i] == -MaxOf(s);
    assert s[i] == MaxOf(s);
    forall i | 0 <= i < |s| ensures s[i] <= MaxOf(s) {
      assert Negated(s)[i] == -s[i];
    }
  }

  /** A cancel verdict needs enough values, all of them strictly worse than the best. */
  lemma CancelMeansAllWorse(cfg: GuardConfig, f: Forecaster, series: seq<real>, best: Option<real>)
    requires Evaluate(cfg, f, series, best).Cancel?
    ensures best.Some? && |series| >= cfg.minReports && |series| >= 5
    ensures if cfg.direction == Maximize then (forall i :: 0 <= i < |series| ==> series[i] < best.value)
            else (forall i :: 0 <= i < |series| ==> series[i] > best.value)
    ensures if cfg.direction == Maximize then f(Negated(series), -best.value) else f(series, best.value)
  {
    MinIsLeast(series);
    MaxIsGreatest(series);
  }

  /** All reported values of the first `n` ticks. */
  function Reported(ts: seq<Tick>): seq<real> {
    if ts == [] then [] else Reported(ts[..|ts| - 1]) + ValuesOf(ts[|ts| - 1].reports)
  }

  /** Some report of these ticks reached the step `n`, or `n` is not positive. */
  ghost predicate StepReached(ts: seq<Tick>, n: int) {
    n <= 0 || exists i, k :: 0 <= i < |ts| && 0 <= k < |ts[i].reports| && ts[i].reports[k].step >= n
  }

  lemma {:induction false} LatestStepSeen(step: int, reports: seq<Report>)
    ensures LatestStep(step, reports) == step
         || exists k :: 0 <= k < |reports| && reports[k].step == LatestStep(step, reports)
    ensures LatestStep(step, reports) >= step
    decreases |reports|
  {
    if reports != [] {
      var init := reports[..|reports| - 1];
      LatestStepSeen(step, init);
      if k :| 0 <= k < |init| && init[k].step == LatestStep(step, init) {
        assert reports[k] == init[k];
      }
      assert reports[|reports| - 1].step == reports[|reports| - 1].step;
    }
  }

  /** As long as the watch goes on, it has buffered exactly what was reported. */
  lemma {:induction false} BuffersEverything(cfg: GuardConfig, f: Forecaster, ts: seq<Tick>)
    ensures var w := Run(cfg, f, START, ts);
            !w.over ==> w.accumulated == Reported(ts) && w.control == None && StepReached(ts, w.latestStep)
    decreases |ts|
  {
    if !Run(cfg, f, START, ts).over && ts != [] {
      var init, t := ts[..|ts| - 1], ts[|ts| - 1];
      BuffersEverything(cfg, f, init);
      var w := Run(cfg, f, START, init);
      StepStillReached(init, t, w.latestStep);
      assert init + [t] == ts;
    }
  }

  lemma StepStillReached(init: seq<Tick>, t: Tick, step: int)
    requires StepReached(init, step)
    ensures StepReached(init + [t], LatestStep(step, t.reports))
  {
    var ts := init + [t];
    LatestStepSeen(step, t.reports);
    if LatestStep(step, t.reports) == step {
      if step > 0 {
        var i, k :| 0 <= i < |init| && 0 <= k < |init[i].reports| && init[i].reports[k].step >= step;
        assert ts[i] == init[i];
      }
    } else {
      var k :| 0 <= k < |t.reports| && t.reports[k].step == LatestStep(step, t.reports);
      assert ts[|init|] == t;
    }
  }

  lemma Monotone(ts: seq<Tick>, reached: int, n: int)
    requires StepReached(ts, reached) && n <= reached
    ensures StepReached(ts, n)
  {
    if n > 0 {
      var i, k :| 0 <= i < |ts| && 0 <= k < |ts[i].reports| && ts[i].reports[k].step >= reached;
      assert ts[i].reports[k].step >= n;
    }
  }

  /** What must hold after the ticks `ts` for the last one to cancel the trial: the minimum step was reached, at least
      the minimum number of values and never fewer than five were reported, a best value is known, every value reported
      so far is strictly worse than it, and the forecaster is against the trial. */
  ghost predicate Justified(cfg: GuardConfig, f: Forecaster, ts: seq<Tick>) {
    && ts != []
    && StepReached(ts, cfg.minSteps)
    && ts[|ts| - 1].best.Some?
    && var series, best := Reported(ts), ts[|ts| - 1].best.value;
       && |series| >= cfg.minReports && |series| >= 5
       && if cfg.direction == Maximize then (forall i :: 0 <= i < |series| ==> series[i] < best) && f(Negated(series), -best)
          else (forall i :: 0 <= i < |series| ==> series[i] > best) && f(series, best)
  }

  ghost predicate JustifiedAt(cfg: GuardConfig, f: Forecaster, ts: seq<Tick>, n: nat) {
    n < |ts| && Justified(cfg, f, ts[..n + 1])
  }

  /** Reports of two batches in a row give their values in a row; a report gives its value, if it has one. */
  lemma {:induction false} ValuesConcat(a: seq<Report>, b: seq<Report>)
    ensures ValuesOf(a + b) == ValuesOf(a) + ValuesOf(b)
    ensures |a| == 1 ==> ValuesOf(a) == if a[0].value.Some? then [a[0].value.value] else []
    decreases |b|
  {
    if b == [] {
      assert a + b == a;
    } else {
      ValuesConcat(a, b[..|b| - 1]);
      assert (a + b)[..|a + b| - 1] == a + b[..|b| - 1];
    }
    if |a| == 1 {
      assert ValuesOf(a[..0]) == [];
    }
  }

  lemma {:induction false} LatestStepIsLatest(step: int, reports: seq<Report>)
    ensures forall k :: 0 <= k < |reports| ==> reports[k].step <= LatestStep(step, reports)
    decreases |reports|
  {
    if reports != [] {
      var init := reports[..|reports| - 1];
      LatestStepIsLatest(step, init);
      forall k | 0 <= k < |init|
        ensures reports[k].step <= LatestStep(step, init)
      {
        assert reports[k] == init[k];
      }
    }
  }

  /** A live watch knows the highest step reported. */
  lemma {:induction false} StepsAreSeen(cfg: GuardConfig, f: Forecaster, ts: seq<Tick>, n: int)
    requires !Run(cfg, f, START, ts).over && StepReached(ts, n)
    ensures Run(cfg, f, START, ts).latestStep >= n
    decreases |ts|, 0
  {
    BuffersEverything(cfg, f, ts);
    if ts != [] {
      var init, t := ts[..|ts| - 1], ts[|ts| - 1];
      assert init + [t] == ts;
      StepsCarryOver(cfg, f, init, t, n);
    } else {
      assert Run(cfg, f, START, ts).latestStep == 0;
    }
  }

  /** The step that a watch remembers after one tick more is at least any that was reached. */
  lemma {:induction false} StepsCarryOver(cfg: GuardConfig, f: Forecaster, init: seq<Tick>, t: Tick, n: int)
    requires !Run(cfg, f, START, init).over && StepReached(init + [t], n)
    ensures LatestStep(Run(cfg, f, START, init).latestStep, t.reports) >= n
    decreases |init|, 1
  {
    var w := Run(cfg, f, START, init);
    LatestStepIsLatest(w.latestStep, t.reports);
    LatestStepSeen(w.latestStep, t.reports);
    if StepReached(init, n) {
      StepsAreSeen(cfg, f, init, n);
    } else {
      var i, k :| 0 <= i < |init + [t]| && 0 <= k < |(init + [t])[i].reports| && (init + [t])[i].reports[k].step >= n;
    }
  }

  lemma CancelVerdict(cfg: GuardConfig, f: Forecaster, series: seq<real>, best: real)
    requires |series| >= cfg.minReports && |series| >= 5
    requires if cfg.direction == Maximize then (forall i :: 0 <= i < |series| ==> series[i] < best) && f(Negated(series), -best)
             else (forall i :: 0 <= i < |series| ==> series[i] > best) && f(series, best)
    ensures Evaluate(cfg, f, series, Some(best)) == Cancel(Against(cfg.direction))
  {
    MinIsLeast(series);
    MaxIsGreatest(series);
  }

  /** If everything that was reported justifies it, a live watch cancels at this tick. */
  lemma CancelsWhenJustified(cfg: GuardConfig, f: Forecaster, init: seq<Tick>, t: Tick)
    requires !Run(cfg, f, START, init).over && !t.stopped && !t.shutdown && Justified(cfg, f, init + [t])
    ensures Next(cfg, f, Run(cfg, f, START, init), t).control == Some(Against(cfg.direction))
  {
    var ts := init + [t];
    assert ts[..|ts| - 1] == init;
    BuffersEverything(cfg, f, init);
    StepsCarryOver(cfg, f, init, t, cfg.minSteps);
    CancelVerdict(cfg, f, Reported(ts), t.best.value);
  }

  /** The reason written for a cancelled trial. */
  function Against(direction: Direction): string {
    if direction == Maximize then "forecast_below_best" else "forecast_above_best"
  }

  /** Nobody stopped the watch up to tick `n`. */
  ghost predicate Unstopped(ts: seq<Tick>, n: nat) {
    forall i :: 0 <= i <= n && i < |ts| ==> !ts[i].stopped && !ts[i].shutdown
  }

  lemma {:induction false} OverMeans(cfg: GuardConfig, f: Forecaster, ts: seq<Tick>)
    requires ts != [] && Unstopped(ts, |ts| - 1)
    ensures Run(cfg, f, START, ts).over ==> Run(cfg, f, START, ts).control.Some?
    decreases |ts|
  {
    var init := ts[..|ts| - 1];
    assert ts[|ts| - 1] == ts[|init|];
    if init != [] {
      assert forall i :: 0 <= i < |init| ==> init[i] == ts[i];
      OverMeans(cfg, f, init);
    }
  }

  /** A trial is cancelled exactly if at some tick, before which and at which nobody stopped the watch, cancelling it is
      justified by everything reported until then; and with this reason. */
  lemma {:induction false} CancelledIff(cfg: GuardConfig, f: Forecaster, ts: seq<Tick>)
    ensures var control := Run(cfg, f, START, ts).control;
            && (control.Some? <==> exists n: nat :: JustifiedAt(cfg, f, ts, n) && Unstopped(ts, n))
            && (control.Some? ==> control.value == Against(cfg.direction))
    decreases |ts|
  {
    if ts != [] {
      var init, t := ts[..|ts| - 1], ts[|ts| - 1];
      assert init + [t] == ts;
      CancelledIff(cfg, f, init);
      SameBefore(cfg, f, init, t);
      LastTick(cfg, f, init, t);
    }
  }

  /** What holds at an earlier tick does not depend on the last one. */
  lemma SameBefore(cfg: GuardConfig, f: Forecaster, init: seq<Tick>, t: Tick)
    ensures (exists n: nat :: JustifiedAt(cfg, f, init + [t], n) && Unstopped(init + [t], n))
       <==> ((exists n: nat :: JustifiedAt(cfg, f, init, n) && Unstopped(init, n))
             || (Justified(cfg, f, init + [t]) && Unstopped(init + [t], |init|)))
  {
    var ts := init + [t];
    forall n: nat | n < |init|
      ensures JustifiedAt(cfg, f, ts, n) == JustifiedAt(cfg, f, init, n) && Unstopped(ts, n) == Unstopped(init, n)
    {
      assert ts[..n + 1] == init[..n + 1];
      assert forall i :: 0 <= i <= n ==> ts[i] == init[i];
    }
    assert ts[..|init| + 1] == ts;
    assert JustifiedAt(cfg, f, ts, |init|) == Justified(cfg, f, ts);
  }

  lemma LastTick(cfg: GuardConfig, f: Forecaster, init: seq<Tick>, t: Tick)
    ensures var w, ts := Run(cfg, f, START, init), init + [t];
            && (w.control.Some? ==> Next(cfg, f, w, t) == w)
            && (w.control == None ==>
                  (Next(cfg, f, w, t).control.Some? <==> Justified(cfg, f, ts) && Unstopped(ts, |init|))
                  && (Next(cfg, f, w, t).control.Some? ==> Next(cfg, f, w, t).control.value == Against(cfg.direction)))
  {
    ControlMeansOver(cfg, f, init);
    var w, ts := Run(cfg, f, START, init), init + [t];
    if w.control == None {
      if Next(cfg, f, w, t).control.Some? {
        CancelledNow(cfg, f, init, t);
        NobodyStopped(cfg, f, init);
        assert forall i :: 0 <= i < |init| ==> ts[i] == init[i];
      } else if Justified(cfg, f, ts) && Unstopped(ts, |init|) {
        assert forall i :: 0 <= i < |init| ==> init[i] == ts[i];
        assert ts[|init|] == t;
        if init != [] {
          OverMeans(cfg, f, init);
        }
        CancelsWhenJustified(cfg, f, init, t);
      }
    }
  }

  lemma {:induction false} ControlMeansOver(cfg: GuardConfig, f: Forecaster, ts: seq<Tick>)
    ensures Run(cfg, f, START, ts).control.Some? ==> Run(cfg, f, START, ts).over
    decreases |ts|
  {
    if ts != [] {
      ControlMeansOver(cfg, f, ts[..|ts| - 1]);
    }
  }

  lemma {:induction false} NobodyStopped(cfg: GuardConfig, f: Forecaster, ts: seq<Tick>)
    requires !Run(cfg, f, START, ts).over
    ensures forall i :: 0 <= i < |ts| ==> !ts[i].stopped && !ts[i].shutdown
    decreases |ts|
  {
    if ts != [] {
      var init := ts[..|ts| - 1];
      NobodyStopped(cfg, f, init);
      assert forall i :: 0 <= i < |init| ==> ts[i] == init[i];
    }
  }

  lemma CancelledNow(cfg: GuardConfig, f: Forecaster, init: seq<Tick>, t: Tick)
    requires Run(cfg, f, START, init).control == None
    requires Next(cfg, f, Run(cfg, f, START, init), t).control.Some?
    ensures Justified(cfg, f, init + [t])
  {
    var w := Run(cfg, f, START, init);
    var step := LatestStep(w.latestStep, t.reports);
    var ts := init + [t];
    BuffersEverything(cfg, f, init);
    StepStillReached(init, t, w.latestStep);
    Monotone(ts, step, cfg.minSteps);
    assert ts[..|ts| - 1] == init;
    CancelMeansAllWorse(cfg, f, Reported(ts), t.best);
  }

  /** Lock-in of wins. Once a trial that is still watched has reported a value, no later tick cancels it as long as
      that value ties or beats the best value read then; in particular never, if the best value stays the same. */
  lemma {:induction false} WinIsLockedIn(cfg: GuardConfig, f: Forecaster, before: seq<Tick>, after: seq<Tick>, v: real)
    requires Run(cfg, f, START, before).control == None && v in Run(cfg, f, START, before).accumulated
    requires forall i :: 0 <= i < |after| && after[i].best.Some? ==>
               if cfg.direction == Maximize then v >= after[i].best.value else v <= after[i].best.value
    ensures Run(cfg, f, START, before + after).control == None
    ensures v in Run(cfg, f, START, before + after).accumulated
    decreases |after|
  {
    if after == [] {
      assert before + after == before;
    } else {
      var init := after[..|after| - 1];
      assert forall i :: 0 <= i < |init| ==> init[i] == after[i];
      WinIsLockedIn(cfg, f, before, init, v);
      assert (before + after)[..|before + after| - 1] == before + init;
      NotCancelledBy(cfg, f, Run(cfg, f, START, before + init), after[|after| - 1], v);
    }
  }

  lemma NotCancelledBy(cfg: GuardConfig, f: Forecaster, w: Watch, t: Tick, v: real)
    requires w.control == None && v in w.accumulated
    requires t.best.Some? ==> if cfg.direction == Maximize then v >= t.best.value else v <= t.best.value
    ensures Next(cfg, f, w, t).control == None && v in Next(cfg, f, w, t).accumulated
  {
    var series := w.accumulated + ValuesOf(t.reports);
    assert v in series;
    if Evaluate(cfg, f, series, t.best).Cancel? {
      CancelMeansAllWorse(cfg, f, series, t.best);
      assert false;
    }
  }

  // ---------------------------------------------------------------- the two directions

  function Mirror(ts: seq<Tick>): (ms: seq<Tick>)
    ensures |ms| == |ts|
  {
    seq(|ts|, i requires 0 <= i < |ts| => MirrorTick(ts[i]))
  }

  function Opposite(v: Option<real>): Option<real> {
    if v.Some? then Some(-v.value) else None
  }

  function MirrorReports(reports: seq<Report>): (ms: seq<Report>)
    ensures |ms| == |reports|
  {
    seq(|reports|, i requires 0 <= i < |reports| => Report(reports[i].step, Opposite(reports[i].value)))
  }

  function MirrorTick(t: Tick): Tick {
    t.(reports := MirrorReports(t.reports), best := Opposite(t.best))
  }

  lemma {:induction false} MirrorDrain(reports: seq<Report>, step: int)
    ensures ValuesOf(MirrorReports(reports)) == Negated(ValuesOf(reports))
    ensures LatestStep(step, MirrorReports(reports)) == LatestStep(step, reports)
    decreases |reports|
  {
    if reports != [] {
      var init := reports[..|reports| - 1];
      MirrorDrain(init, step);
      assert MirrorReports(reports)[..|reports| - 1] == MirrorReports(init);
    }
  }

  lemma {:induction false} NegatedExtremes(s: seq<real>)
    requires s != []
    ensures MinOf(Negated(s)) == -MaxOf(s)
  {
    if |s| > 1 {
      NegatedExtremes(s[..|s| - 1]);
      assert Negated(s)[..|s| - 1] == Negated(s[..|s| - 1]);
    }
  }

  /** Maximising a metric is minimising its negation: for any forecaster the two verdicts agree. */
  lemma MirrorEvaluate(minSteps: int, minReports: int, f: Forecaster, series: seq<real>, best: Option<real>)
    ensures Evaluate(GuardConfig(minSteps, minReports, Maximize), f, series, best).Cancel?
       <==> Evaluate(GuardConfig(minSteps, minReports, Minimize), f, Negated(series), Opposite(best)).Cancel?
  {
    if best.Some? && |series| >= Max(minReports, 5) {
      NegatedExtremes(series);
    }
  }

  /** Two watches that mirror each other. */
  predicate Mirrored(a: Watch, b: Watch) {
    && b.accumulated == Negated(a.accumulated) && b.latestStep == a.latestStep
    && a.over == b.over && a.control.Some? == b.control.Some?
  }

  lemma MirrorStep(minSteps: int, minReports: int, f: Forecaster, a: Watch, b: Watch, t: Tick)
    requires Mirrored(a, b)
    ensures Mirrored(Next(GuardConfig(minSteps, minReports, Maximize), f, a, t),
                     Next(GuardConfig(minSteps, minReports, Minimize), f, b, MirrorTick(t)))
  {
    MirrorDrain(t.reports, a.latestStep);
    var series := a.accumulated + ValuesOf(t.reports);
    assert Negated(series) == Negated(a.accumulated) + Negated(ValuesOf(t.reports));
    MirrorEvaluate(minSteps, minReports, f, series, t.best);
  }

  /** The same over a whole watch: negating every report and every best value turns a maximising watch into the
      minimising one that cancels at the same tick, or not at all. */
  lemma {:induction false} MirrorWatch(minSteps: int, minReports: int, f: Forecaster, ts: seq<Tick>)
    ensures Mirrored(Run(GuardConfig(minSteps, minReports, Maximize), f, START, ts),
                     Run(GuardConfig(minSteps, minReports, Minimize), f, START, Mirror(ts)))
    decreases |ts|
  {
    if ts != [] {
      var init, t := ts[..|ts| - 1], ts[|ts| - 1];
      MirrorWatch(minSteps, minReports, f, init);
      assert Mirror(ts)[..|ts| - 1] == Mirror(init);
      MirrorStep(minSteps, minReports, f, Run(GuardConfig(minSteps, minReports, Maximize), f, START, init),
        Run(GuardConfig(minSteps, minReports, Minimize), f, START, Mirror(init)), t);
    }
  }
}
