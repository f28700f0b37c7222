/** A campaign of parameter and diff trials on one mutable file, across crashes and restarts. */
module Campaign {
  import opened Wrappers
  import opened Trials
  import DX = DiffExecutor
  import HunkRecount

  /** The parts that are not modelled: what `patch` makes of a source and a diff, whether a diff passes validation
      and the contract, and whether a patched source still makes the required calls. */
  datatype Rules = Rules(
    patch: (string, string) -> Option<string>,
    accepts: string -> bool,
    keepsCalls: (string, string) -> bool)

  const REJECTED := Outcome("rejected", map[])
  const CRASHED := Outcome("failed", map[])

  /** Apply a diff to a source: recount its hunks and patch. */
  function ApplyDiff(r: Rules, source: string, diff: string): Option<string> {
    r.patch(source, HunkRecount.RecountDiff(diff))
  }

  /** The source a diff trial runs, or `None` if the diff is rejected. */
  function Candidate(r: Rules, source: string, diff: string): Option<string> {
    if !r.accepts(diff) then None
    else
      var modified := ApplyDiff(r, source, diff);
      if modified.Some? && r.keepsCalls(source, modified.value) then modified else None
  }

  /** What the target says: it raises, or it returns an outcome. */
  datatype Answer = Raised | Answered(outcome: Outcome)

  /** The executor and the files it works on. */
  class Executor {
    const rules: Rules
    var file: string
    var marker: Option<string>

    constructor (rules: Rules, file: string, marker: Option<string>)
      ensures this.rules == rules && this.file == file && this.marker == marker
    {
      this.rules, this.file, this.marker := rules, file, marker;
    }

    /** Run at the start of the engine. */
    method RecoverRestoreMarker() returns (recovered: bool)
      modifies this
      ensures DX.Disk(file, marker) == DX.Recover(DX.Disk(old(file), old(marker)))
      ensures if old(marker).Some? then recovered && file == old(marker).value else !recovered && file == old(file)
      ensures marker == None
    {
      if marker == None {
        return false;
      }
      file := marker.value;
      marker := None;
      recovered := true;
    }

    /** One diff trial without interruption. The target runs the patched source, and afterwards the file is what
        it was before; a rejected diff touches nothing and runs nothing. */
    method Execute(diff: string, markerWritable: bool, train: string -> Answer, eval: string -> Answer)
      returns (outcome: Outcome, ran: Option<string>)
      modifies this
      ensures file == old(file)
      ensures marker == if ran.Some? && markerWritable then None else old(marker)
      ensures ran == Candidate(rules, file, diff)
      ensures var patched := rules.patch(old(file), HunkRecount.RecountDiff(diff));
              if rules.accepts(diff) && patched.Some? && rules.keepsCalls(old(file), patched.value) then ran == patched
              else ran == None && outcome.status == "rejected" && outcome.metrics == map[]
      ensures ran.Some? ==>
                match train(ran.value)
                case Raised => outcome.status == "failed" && outcome.metrics == map[]
                case Answered(trained) =>
                  if trained.status != "ok" then outcome == trained
                  else match eval(ran.value)
                       case Raised => outcome.status == "failed" && outcome.metrics == map[]
                       case Answered(evaluated) => outcome == evaluated
    {
      if !rules.accepts(diff) {
        return REJECTED, None;
      }
      var source := file;
      var modified := rules.patch(source, HunkRecount.RecountDiff(diff));
      if modified == None || !rules.keepsCalls(source, modified.value) {
        return REJECTED, None;
      }

      if markerWritable {
        marker := Some(source);
      }
      file := modified.value;
      ran := Some(file);
      var answer := train(file);
      if answer.Answered? && answer.outcome.status == "ok" {
        answer := eval(file);
      }
      file := source;
      if markerWritable {
        marker := None;
      }
      outcome := if answer.Raised? then CRASHED else answer.outcome;
    }

    /** Apply a diff to the mutable file for good. */
    method PersistDiff(diff: string) returns (ok: bool)
      modifies `file
      ensures var patched := rules.patch(old(file), HunkRecount.RecountDiff(diff));
              if patched.Some? then ok && file == patched.value else !ok && file == old(file)
      ensures file == Persist(rules, DX.Disk(old(file), marker), diff).file
    {
      var modified := rules.patch(file, HunkRecount.RecountDiff(diff));
      if modified == None {
        return false;
      }
      file := modified.value;
      ok := true;
    }
  }

  // ---------------------------------------------------------------- what can happen in a campaign

  /** A parameter trial; a diff trial that runs to its end; or a diff trial in which the process ends, after which
      the engine starts again, recovers the file, and goes on with the control state it loads. `events` is what
      happens during the trial, `train` what the target makes of the source it is started on to train, and `eval` what
      it makes of that source and the one it is started on to evaluate. */
  datatype Happening =
    | ParamTrial(params: Params, outcome: Outcome)
    | DiffTrial(diff: string, params: Params, events: seq<DX.Event>, onTerm: DX.Chained, onInt: DX.Chained,
                train: string -> Outcome, eval: (string, string) -> Outcome)
    | Restart(diff: string, events: seq<DX.Event>, onTerm: DX.Chained, onInt: DX.Chained, reloaded: Control)

  /** `kept` lists the diffs whose trial was decided to be kept, in order. */
  datatype State = State(disk: DX.Disk, ctl: Control, kept: seq<string>)

  function TrialOf(source: string, modified: string, h: Happening): DX.Trial
    requires !h.ParamTrial?
  {
    DX.Trial(source, modified, h.onTerm, h.onInt)
  }

  /** The process at the end of a trial that starts on the disk `d`. */
  function EndOf(d: DX.Disk, modified: string, h: Happening): DX.Process
    requires !h.ParamTrial?
  {
    DX.Run(TrialOf(d.file, modified, h), DX.Begin(d), h.events)
  }

  /** The outcome that the engine sees for a diff trial: that of the evaluation if there was one. */
  function OutcomeOf(r: Rules, d: DX.Disk, h: Happening): Outcome
    requires h.DiffTrial?
  {
    match Candidate(r, d.file, h.diff)
    case None => REJECTED
    case Some(modified) => Measurement(EndOf(d, modified, h), h)
  }

  function Measurement(end: DX.Process, h: Happening): Outcome
    requires h.DiffTrial?
  {
    if end.failed || end.trained == None then CRASHED
    else if end.evaluated == None then h.train(end.trained.value)
    else h.eval(end.trained.value, end.evaluated.value)
  }

  /** The disk after a diff trial and before the decision. */
  function DiskAfter(r: Rules, d: DX.Disk, h: Happening): DX.Disk
    requires !h.ParamTrial?
  {
    match Candidate(r, d.file, h.diff)
    case None => d
    case Some(modified) => EndOf(d, modified, h).disk
  }

  function Persist(r: Rules, d: DX.Disk, diff: string): DX.Disk {
    var modified := ApplyDiff(r, d.file, diff);
    if modified.Some? then d.(file := modified.value) else d
  }

  function Play(cfg: Config, r: Rules, s: State, h: Happening): State {
    match h
    case ParamTrial(params, outcome) =>
      s.(ctl := Commit(cfg, s.ctl, |s.ctl.history|, Trial(params, outcome)))
    case DiffTrial(diff, params, _, _, _, _, _) =>
      var outcome := OutcomeOf(r, s.disk, h);
      var keep := Decide(s.ctl.bestScore, outcome, cfg.objective) == Keep;
      var disk := DiskAfter(r, s.disk, h);
      State(if keep then Persist(r, disk, diff) else disk,
            Commit(cfg, s.ctl, |s.ctl.history|, Trial(params, outcome)),
            if keep then s.kept + [diff] else s.kept)
    case Restart(_, _, _, _, reloaded) =>
      State(DX.Recover(DiskAfter(r, s.disk, h)), reloaded, s.kept)
  }

  function PlayAll(cfg: Config, r: Rules, s: State, hs: seq<Happening>): State
    decreases |hs|
  {
    if hs == [] then s else Play(cfg, r, PlayAll(cfg, r, s, hs[..|hs| - 1]), hs[|hs| - 1])
  }

  /** A diff trial really ends, having evaluated exactly if its training ended with "ok"; and a trial that ends in a
      restart is not caught in the hole of the protocol. */
  ghost predicate Possible(r: Rules, d: DX.Disk, h: Happening) {
    h.ParamTrial? ||
    match Candidate(r, d.file, h.diff)
    case None => true
    case Some(modified) =>
      if h.DiffTrial? then
        var end := EndOf(d, modified, h);
        && end.pc == DX.Finished
        && (!end.failed && end.trained.Some? ==> (end.evaluated.Some? <==> h.train(end.trained.value).status == "ok"))
      else !DX.Exposed(TrialOf(d.file, modified, h), h.events, |h.events|)
  }

  ghost predicate AllPossible(cfg: Config, r: Rules, s: State, hs: seq<Happening>) {
    forall i :: 0 <= i < |hs| ==> Possible(r, PlayAll(cfg, r, s, hs[..i]).disk, hs[i])
  }

  // ---------------------------------------------------------------- the file is the kept diffs

  /** A source with a list of diffs applied to it in order, if each of them applies. */
  function Replay(r: Rules, source: string, diffs: seq<string>): Option<string> {
    if diffs == [] then Some(source)
    else
      match Replay(r, source, diffs[..|diffs| - 1])
      case None => None
      case Some(before) => ApplyDiff(r, before, diffs[|diffs| - 1])
  }

  /** A rejected diff is never kept, and a policy that learns is told so. */
  lemma RejectedNeverKept(best: Option<real>, obj: Objective)
    ensures Decide(best, REJECTED, obj) == Discard
    ensures SerialReward(best, REJECTED, obj) == -0.1
  {
  }

  /** The disk after a possible trial: the file as it was, and no marker. */
  lemma TrialLeavesFile(r: Rules, d: DX.Disk, h: Happening)
    requires d.marker == None && !h.ParamTrial? && Possible(r, d, h)
    ensures h.DiffTrial? ==> DiskAfter(r, d, h) == d
    ensures h.Restart? ==> DX.Recover(DiskAfter(r, d, h)) == d
  {
    match Candidate(r, d.file, h.diff)
    case None =>
    case Some(modified) =>
      var t := TrialOf(d.file, modified, h);
      assert DX.Disk(d.file, None) == d;
      assert h.events[..|h.events|] == h.events;
      assert DX.At(t, h.events, |h.events|) == EndOf(d, modified, h);
      DX.AlwaysGood(t, h.events, |h.events|);
  }

  /** Whatever happens in a campaign, restarts included, between two trials the mutable file is the initial source
      with exactly the kept diffs applied, in order, each of them successfully; and there is no marker, so that
      another restart changes nothing. */
  lemma {:induction false} FileIsKeptDiffs(cfg: Config, r: Rules, s: State, hs: seq<Happening>)
    requires s.disk.marker == None && s.kept == []
    requires AllPossible(cfg, r, s, hs)
    ensures var e := PlayAll(cfg, r, s, hs);
            && Replay(r, s.disk.file, e.kept) == Some(e.disk.file)
            && e.disk.marker == None && DX.Recover(e.disk) == e.disk
    decreases |hs|
  {
    if hs != [] {
      var init, h := hs[..|hs| - 1], hs[|hs| - 1];
      assert forall i :: 0 <= i < |init| ==> init[i] == hs[i] && init[..i] == hs[..i];
      assert hs[..|init|] == init;
      FileIsKeptDiffs(cfg, r, s, init);
      var m := PlayAll(cfg, r, s, init);
      assert Possible(r, m.disk, h);
      if !h.ParamTrial? {
        TrialLeavesFile(r, m.disk, h);
      }
      if h.DiffTrial? {
        KeepPersists(cfg, r, m, h);
      }
    }
  }

  lemma KeepPersists(cfg: Config, r: Rules, s: State, h: Happening)
    requires s.disk.marker == None && h.DiffTrial? && Possible(r, s.disk, h)
    ensures var keep := Decide(s.ctl.bestScore, OutcomeOf(r, s.disk, h), cfg.objective) == Keep;
            var e := Play(cfg, r, s, h);
            && e.disk.marker == None
            && (keep ==> ApplyDiff(r, s.disk.file, h.diff) == Some(e.disk.file) && e.kept == s.kept + [h.diff])
            && (!keep ==> e.disk == s.disk && e.kept == s.kept)
  {
    TrialLeavesFile(r, s.disk, h);
    RejectedNeverKept(s.ctl.bestScore, cfg.objective);
  }

  /** What it takes for a diff to lead from one source to the next: it is accepted, its recounted form applies, and the
      patched source still makes the required calls. */
  predicate Admits(r: Rules, source: string, diff: string, next: string) {
    && r.accepts(diff)
    && r.patch(source, HunkRecount.RecountDiff(diff)) == Some(next)
    && r.keepsCalls(source, next)
  }

  /** The sources a file went through, from the first to the last, by one admitted diff after the other. */
  predicate Chain(r: Rules, sources: seq<string>, diffs: seq<string>) {
    && |sources| == |diffs| + 1
    && forall i :: 0 <= i < |diffs| ==> Admits(r, sources[i], diffs[i], sources[i + 1])
  }

  lemma CandidateIff(r: Rules, source: string, diff: string, next: string)
    ensures Candidate(r, source, diff) == Some(next) <==> Admits(r, source, diff, next)
  {
  }

  /** Nothing gets into the file for good that was not admitted where it was applied: whatever happens in a campaign,
      the kept diffs lead from the initial source to the present one, each admitted by the source before it. */
  lemma {:induction false} KeptAreAdmitted(cfg: Config, r: Rules, s: State, hs: seq<Happening>) returns (sources: seq<string>)
    requires s.disk.marker == None && s.kept == []
    requires AllPossible(cfg, r, s, hs)
    ensures var e := PlayAll(cfg, r, s, hs);
            && Chain(r, sources, e.kept)
            && sources[0] == s.disk.file && sources[|e.kept|] == e.disk.file
    decreases |hs|
  {
    if hs == [] {
      sources := [s.disk.file];
    } else {
      var init, h := hs[..|hs| - 1], hs[|hs| - 1];
      assert forall i :: 0 <= i < |init| ==> init[i] == hs[i] && init[..i] == hs[..i];
      assert hs[..|init|] == init;
      sources := KeptAreAdmitted(cfg, r, s, init);
      FileIsKeptDiffs(cfg, r, s, init);
      var m, e := PlayAll(cfg, r, s, init), PlayAll(cfg, r, s, hs);
      assert Possible(r, m.disk, h);
      if h.DiffTrial? && Decide(m.ctl.bestScore, OutcomeOf(r, m.disk, h), cfg.objective) == Keep {
        KeptIsAdmitted(cfg, r, m, h);
        sources := sources + [e.disk.file];
      } else if h.DiffTrial? {
        KeepPersists(cfg, r, m, h);
      } else if h.Restart? {
        TrialLeavesFile(r, m.disk, h);
      }
    }
  }

  lemma KeptIsAdmitted(cfg: Config, r: Rules, s: State, h: Happening)
    requires s.disk.marker == None && h.DiffTrial? && Possible(r, s.disk, h)
    requires Decide(s.ctl.bestScore, OutcomeOf(r, s.disk, h), cfg.objective) == Keep
    ensures Admits(r, s.disk.file, h.diff, Play(cfg, r, s, h).disk.file)
    ensures Play(cfg, r, s, h).kept == s.kept + [h.diff]
  {
    KeepPersists(cfg, r, s, h);
    NothingMeasured(s.ctl.bestScore, cfg.objective);
    CandidateIff(r, s.disk.file, h.diff, Play(cfg, r, s, h).disk.file);
  }

  /** What the engine records for a diff trial that ends. A diff that is not admitted counts as failed, with no metrics,
      and the disk is untouched. Otherwise the trial is recorded with the metrics of the evaluation if there was one,
      with those of the training if that was the last start of the target, and with none if it failed before. The diff is
      persisted exactly if the engine keeps the trial. */
  lemma TrialIsRecorded(cfg: Config, r: Rules, s: State, h: Happening)
    requires s.disk.marker == None && h.DiffTrial? && Possible(r, s.disk, h)
    ensures var e := Play(cfg, r, s, h);
            var patched := r.patch(s.disk.file, HunkRecount.RecountDiff(h.diff));
            && |e.ctl.history| == |s.ctl.history| + 1 && e.ctl.history[..|s.ctl.history|] == s.ctl.history
            && var entry := e.ctl.history[|s.ctl.history|];
            && (if entry.decision == Keep then e.kept == s.kept + [h.diff] && patched == Some(e.disk.file)
                else e.kept == s.kept && e.disk == s.disk)
            && (if r.accepts(h.diff) && patched.Some? && r.keepsCalls(s.disk.file, patched.value) then
                  var end := DX.Run(DX.Trial(s.disk.file, patched.value, h.onTerm, h.onInt), DX.Begin(s.disk), h.events);
                  if end.failed || end.trained == None then entry.status == "failed" && entry.metrics == map[]
                  else if end.evaluated == None then Records(entry, h.train(end.trained.value), cfg.objective.metric)
                  else Records(entry, h.eval(end.trained.value, end.evaluated.value), cfg.objective.metric)
                else entry.status == "failed" && entry.metrics == map[] && entry.decision == Discard)
  {
    KeepPersists(cfg, r, s, h);
    NothingMeasured(s.ctl.bestScore, cfg.objective);
  }

  /** An entry holds what was measured, less the model directory; without the objective metric it is a failure. */
  predicate Records(entry: Entry, o: Outcome, metric: string) {
    && entry.metrics == o.metrics - {"_model_dir"}
    && entry.status == (if o.status == "cancelled" || metric in entry.metrics then o.status else "failed")
  }

  /** Whether a signal undid the patch before the last start of the target that counts. */
  ghost predicate PatchUndone(t: DX.Trial, events: seq<DX.Event>, end: DX.Process) {
    if end.evaluated.Some? then DX.EvaluationUndone(t, events, |events|) else DX.TrainingUndone(t, events, |events|)
  }

  /** The target was started on this file, and on no other. */
  predicate StartedOnlyOn(end: DX.Process, file: string) {
    end.trained == Some(file) && (end.evaluated.Some? ==> end.evaluated.value == file)
  }

  /** What is persisted for a kept diff is, character for character, the source that the target was trained on and, if
      it was evaluated, evaluated on: exactly if no signal was handled and returned between the patched write and the
      last of these starts (or the patch changes nothing). */
  lemma KeptIsWhatRan(cfg: Config, r: Rules, s: State, h: Happening)
    requires s.disk.marker == None && h.DiffTrial? && Possible(r, s.disk, h)
    requires Decide(s.ctl.bestScore, OutcomeOf(r, s.disk, h), cfg.objective) == Keep
    ensures Candidate(r, s.disk.file, h.diff).Some?
    ensures var modified := Candidate(r, s.disk.file, h.diff).value;
            var end := EndOf(s.disk, modified, h);
            && Play(cfg, r, s, h).disk.file == modified
            && (StartedOnlyOn(end, modified)
                <==> modified == s.disk.file || !PatchUndone(TrialOf(s.disk.file, modified, h), h.events, end))
  {
    KeepPersists(cfg, r, s, h);
    NothingMeasured(s.ctl.bestScore, cfg.objective);
    var modified := Candidate(r, s.disk.file, h.diff).value;
    EndMeasured(r, s.disk, modified, h);
  }

  /** A trial that measured nothing is never kept. */
  lemma NothingMeasured(best: Option<real>, obj: Objective)
    ensures Decide(best, REJECTED, obj) == Discard && Decide(best, CRASHED, obj) == Discard
  {
  }

  lemma EndMeasured(r: Rules, d: DX.Disk, modified: string, h: Happening)
    requires d.marker == None && h.DiffTrial?
    ensures var t, end := TrialOf(d.file, modified, h), EndOf(d, modified, h);
            end.trained.Some? ==>
              (StartedOnlyOn(end, modified) <==> modified == d.file || !PatchUndone(t, h.events, end))
  {
    var t := TrialOf(d.file, modified, h);
    assert DX.Disk(d.file, None) == d;
    assert h.events[..|h.events|] == h.events;
    assert DX.At(t, h.events, |h.events|) == EndOf(d, modified, h);
    DX.AlwaysGood(t, h.events, |h.events|);
    assert DX.TrainingUndone(t, h.events, |h.events|) ==> DX.EvaluationUndone(t, h.events, |h.events|) by {
      if j: nat :| j < |h.events| && DX.UndoesTraining(t, DX.At(t, h.events, j), h.events[j]) {
        assert DX.UndoesEvaluation(t, DX.At(t, h.events, j), h.events[j]);
      }
    }
  }

  /** The condition cannot be dropped. A SIGTERM that only sets the shutdown flag arrives while the first trial trains:
      the evaluation measures the old source, and the engine keeps, and persists, a diff that was never evaluated. */
  lemma KeepsUnmeasuredDiff(cfg: Config, r: Rules, source: string, modified: string, diff: string, value: real,
                            onInt: DX.Chained)
    requires Candidate(r, source, diff) == Some(modified) && cfg.objective.metric != "_model_dir"
    ensures var ok := Outcome("ok", map[cfg.objective.metric := value]);
            var h := DiffTrial(diff, map[], DX.TermDuringTraining(), DX.Returns, onInt, file => ok, (a, b) => ok);
            var s := State(DX.Disk(source, None), FRESH, []);
            && Possible(r, s.disk, h)
            && EndOf(s.disk, modified, h).evaluated == Some(source)
            && Play(cfg, r, s, h).kept == [diff] && Play(cfg, r, s, h).disk.file == modified
  {
    var ok := Outcome("ok", map[cfg.objective.metric := value]);
    var h := DiffTrial(diff, map[], DX.TermDuringTraining(), DX.Returns, onInt, file => ok, (a, b) => ok);
    var s := State(DX.Disk(source, None), FRESH, []);
    DX.EvaluatesOldSource(TrialOf(source, modified, h));
    assert Value(ok, cfg.objective) == Some(value);
    KeepPersists(cfg, r, s, h);
  }
}
