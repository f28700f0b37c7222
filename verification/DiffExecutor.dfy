/** The diff executor's crash protocol: a trial patches the mutable file on disk, and a signal or a kill may arrive
    between any two of its steps. */
module DiffExecutor {
  import opened Wrappers

  /** The mutable file and its sidecar marker. Writes and unlinks are atomic. */
  datatype Disk = Disk(file: string, marker: Option<string>)

  /** What the engine does with a leftover marker when it starts. */
  function Recover(d: Disk): Disk {
    match d.marker
    case None => d
    case Some(original) => Disk(original, None)
  }

  datatype Sig = Term | Int

  /** What the previously installed handler of a signal does: set a flag and return, end the process, raise something
      that only `finally` blocks see (as KeyboardInterrupt), or raise an ordinary exception. */
  datatype Chained = Returns | Dies | Interrupts | Throws

  /** The statement that runs next. The target is started on the file twice: to train, and to evaluate if training
      ended well. */
  datatype Pc =
    | WriteMarker | InstallTerm | InstallInt | WritePatched
    | EnterTry | StartTraining | Training | StartEvaluation | Evaluating
    | RestoreAfterError | RestoreFile
    | UninstallTerm | UninstallInt | ClearMarker
    | Finished | Unwound | Dead

  /** `NotOk` is a training that ends with another status than "ok". `Fail` is the error branch of a statement: the
      marker cannot be written, or the target raises. */
  datatype Event = Step | NotOk | Fail | Signal(sig: Sig) | Kill

  datatype Trial = Trial(source: string, modified: string, onTerm: Chained, onInt: Chained)

  /** For which signals the restoring handler is installed. */
  datatype Installed = Installed(term: bool, int_: bool)

  const NEITHER := Installed(false, false)
  const BOTH := Installed(true, true)

  /** The process in the middle of a trial. `held` says whether it has a marker to clear, `ours` which signals
      reach the restoring handler, `raising` whether an exception is on its way out, `failed` whether one was caught,
      and `trained` and `evaluated` what the mutable file held when the target was started. */
  datatype Process = Process(
    disk: Disk, pc: Pc, held: bool, ours: Installed, raising: bool, failed: bool,
    trained: Option<string>, evaluated: Option<string>)

  function Begin(disk: Disk): Process {
    Process(disk, WriteMarker, false, NEITHER, false, false, None, None)
  }

  predicate Ours(p: Process, sig: Sig) {
    if sig == Term then p.ours.term else p.ours.int_
  }

  function ChainOf(t: Trial, sig: Sig): Chained {
    if sig == Term then t.onTerm else t.onInt
  }

  predicate Over(p: Process) {
    p.pc == Finished || p.pc == Unwound || p.pc == Dead
  }

  /** The statement that runs next, without interruption. */
  function NextStep(t: Trial, p: Process): Process {
    match p.pc
    case WriteMarker => p.(disk := p.disk.(marker := Some(t.source)), held := true, pc := InstallTerm)
    case InstallTerm => p.(ours := p.ours.(term := true), pc := InstallInt)
    case InstallInt => p.(ours := p.ours.(int_ := true), pc := WritePatched)
    case WritePatched => p.(disk := p.disk.(file := t.modified), pc := EnterTry)
    case EnterTry => p.(pc := StartTraining)
    case StartTraining => p.(trained := Some(p.disk.file), pc := Training)
    case Training => p.(pc := StartEvaluation)
    case StartEvaluation => p.(evaluated := Some(p.disk.file), pc := Evaluating)
    case Evaluating => p.(pc := RestoreFile)
    case RestoreAfterError => p.(disk := p.disk.(file := t.source), pc := RestoreFile)
    case RestoreFile => p.(disk := p.disk.(file := t.source), pc := UninstallTerm)
    case UninstallTerm => p.(ours := p.ours.(term := false), pc := UninstallInt)
    case UninstallInt => p.(ours := p.ours.(int_ := false), pc := ClearMarker)
    case ClearMarker => p.(disk := Unmark(p), pc := if p.raising then Unwound else Finished)
    case _ => p
  }

  /** The disk after the marker, if there is one to clear, was cleared. */
  function Unmark(p: Process): Disk {
    if p.held then p.disk.(marker := None) else p.disk
  }

  /** The part of the trial whose ordinary exceptions are caught. */
  predicate InTry(pc: Pc) {
    pc == StartTraining || pc == Training || pc == StartEvaluation || pc == Evaluating
  }

  function Caught(p: Process): Process {
    p.(pc := RestoreAfterError, failed := true)
  }

  function FailedStep(t: Trial, p: Process): Process {
    if p.pc == WriteMarker then p.(pc := InstallTerm)
    else if InTry(p.pc) then Caught(p)
    else p
  }

  function NotOkStep(p: Process): Process {
    if p.pc == Training then p.(pc := RestoreFile) else p
  }

  /** Where an exception that is not caught leads: through the `finally` blocks that have been entered. */
  function Unwind(pc: Pc): Pc {
    if InTry(pc) || pc == RestoreAfterError then RestoreFile
    else if pc == WritePatched || pc == EnterTry || pc == RestoreFile then UninstallTerm
    else Unwound
  }

  /** The restoring handler, if it is installed, and then the handler it displaced. */
  function Handle(t: Trial, p: Process, sig: Sig): Process {
    var q := if Ours(p, sig) then p.(disk := Unmark(p).(file := t.source)) else p;
    match ChainOf(t, sig)
    case Returns => q
    case Dies => q.(pc := Dead)
    case Interrupts => q.(pc := Unwind(p.pc), raising := true)
    case Throws => if InTry(p.pc) then Caught(q) else q.(pc := Unwind(p.pc), raising := true)
  }

  function Next(t: Trial, p: Process, e: Event): Process {
    if Over(p) then p
    else
      match e
      case Step => NextStep(t, p)
      case NotOk => NotOkStep(p)
      case Fail => FailedStep(t, p)
      case Signal(sig) => Handle(t, p, sig)
      case Kill => p.(pc := Dead)
  }

  function Run(t: Trial, p: Process, events: seq<Event>): Process
    decreases |events|
  {
    if events == [] then p
    else Next(t, Run(t, p, events[..|events| - 1]), events[|events| - 1])
  }

  /** The process after the first `n` events of a trial that begins with a clean disk. */
  function At(t: Trial, events: seq<Event>, n: nat): Process
    requires n <= |events|
  {
    Run(t, Begin(Disk(t.source, None)), events[..n])
  }

  // ---------------------------------------------------------------- safety

  /** Whatever happens from here on, the next start of the engine finds the source as it was. */
  predicate Safe(t: Trial, d: Disk) {
    Recover(d) == Disk(t.source, None)
  }

  predicate BeforePatch(pc: Pc) {
    pc == WriteMarker || pc == InstallTerm || pc == InstallInt || pc == WritePatched
  }

  predicate BeforeTraining(pc: Pc) {
    pc == EnterTry || pc == StartTraining
  }

  predicate BeforeEvaluation(pc: Pc) {
    BeforeTraining(pc) || pc == Training || pc == StartEvaluation
  }

  /** A signal that reaches the restoring handler and whose displaced handler returns, so that the trial goes on. */
  predicate HandledAndReturns(t: Trial, p: Process, e: Event) {
    e.Signal? && Ours(p, e.sig) && ChainOf(t, e.sig) == Returns && !Over(p)
  }

  /** The marker is taken away although the file is still to be patched: it could not be written, or a signal was
      handled after the handlers were installed, and returned. */
  predicate LosesMarker(t: Trial, p: Process, e: Event) {
    BeforePatch(p.pc) && ((e == Fail && p.pc == WriteMarker) || HandledAndReturns(t, p, e))
  }

  /** The patched file is written. */
  predicate Patches(p: Process, e: Event) {
    p.pc == WritePatched && e == Step
  }

  /** The patch is undone by a handled signal after it was written and before the target is started to train. */
  predicate UndoesTraining(t: Trial, p: Process, e: Event) {
    BeforeTraining(p.pc) && HandledAndReturns(t, p, e)
  }

  /** The same before the target is started to evaluate. */
  predicate UndoesEvaluation(t: Trial, p: Process, e: Event) {
    BeforeEvaluation(p.pc) && HandledAndReturns(t, p, e)
  }

  /** Some event before the `n`th took the marker away. */
  ghost predicate Lost(t: Trial, events: seq<Event>, n: nat)
    requires n <= |events|
  {
    exists j: nat :: j < n && LosesMarker(t, At(t, events, j), events[j])
  }

  /** Some event before the `n`th wrote the patched file after the marker had been taken away. */
  ghost predicate Exposed(t: Trial, events: seq<Event>, n: nat)
    requires n <= |events|
  {
    exists i: nat :: i < n && Patches(At(t, events, i), events[i]) && Lost(t, events, i)
  }

  /** Some event before the `n`th undid the patch before the training, or before the evaluation. */
  ghost predicate TrainingUndone(t: Trial, events: seq<Event>, n: nat)
    requires n <= |events|
  {
    exists j: nat :: j < n && UndoesTraining(t, At(t, events, j), events[j])
  }

  ghost predicate EvaluationUndone(t: Trial, events: seq<Event>, n: nat)
    requires n <= |events|
  {
    exists j: nat :: j < n && UndoesEvaluation(t, At(t, events, j), events[j])
  }

  /** Which of the mishaps have happened. */
  datatype Mishaps = Mishaps(lost: bool, exposed: bool, training: bool, evaluation: bool)

  ghost function MishapsOf(t: Trial, events: seq<Event>, n: nat): Mishaps
    requires n <= |events|
  {
    Mishaps(Lost(t, events, n), Exposed(t, events, n), TrainingUndone(t, events, n), EvaluationUndone(t, events, n))
  }

  function NextMishaps(t: Trial, p: Process, e: Event, m: Mishaps): Mishaps {
    Mishaps(m.lost || LosesMarker(t, p, e), m.exposed || (Patches(p, e) && m.lost),
            m.training || UndoesTraining(t, p, e), m.evaluation || UndoesEvaluation(t, p, e))
  }

  function FileIf(t: Trial, undone: bool): string { if undone then t.source else t.modified }

  /** What the target was started on. */
  predicate Measured(t: Trial, p: Process, m: Mishaps) {
    && (p.trained.Some? ==> p.trained.value == FileIf(t, m.training))
    && (p.evaluated.Some? ==> p.trained.Some? && p.evaluated.value == FileIf(t, m.evaluation))
  }

  predicate Early(t: Trial, p: Process, m: Mishaps) {
    && p.disk.file == t.source && (p.disk.marker == None <==> m.lost)
    && p.trained == None && p.evaluated == None && !m.training && !m.evaluation
  }

  predicate Patched(t: Trial, p: Process, m: Mishaps) {
    p.ours == BOTH && p.disk.file == FileIf(t, m.evaluation) && p.evaluated == None
  }

  /** The target was started, unless an exception prevented it. */
  predicate Started(p: Process) { p.failed || p.raising || p.trained.Some? }

  /** What holds at each statement. */
  predicate GoodAt(t: Trial, p: Process, m: Mishaps) {
    match p.pc
    case WriteMarker => p == Begin(Disk(t.source, None)) && m == Mishaps(false, false, false, false)
    case InstallTerm => p.ours == NEITHER && Early(t, p, m)
    case InstallInt => p.ours == Installed(true, false) && Early(t, p, m)
    case WritePatched => p.ours == BOTH && Early(t, p, m)
    case EnterTry => Patched(t, p, m) && p.trained == None && m.training == m.evaluation
    case StartTraining => Patched(t, p, m) && p.trained == None && m.training == m.evaluation
    case Training => Patched(t, p, m) && p.trained.Some?
    case StartEvaluation => Patched(t, p, m) && p.trained.Some?
    case Evaluating => p.ours == BOTH && p.trained.Some?
    case RestoreAfterError => p.ours == BOTH && p.failed
    case RestoreFile => p.ours == BOTH && Started(p)
    case Finished => p.disk == Disk(t.source, None) && Started(p) && !p.raising
    case Dead => true
    case Unwound => p.disk.file == t.source
    case _ => p.disk.file == t.source && Started(p)
  }

  /** What holds after every event, given which of the mishaps have happened. */
  predicate Good(t: Trial, p: Process, m: Mishaps) {
    && (p.disk.marker == None || p.disk.marker == Some(t.source))
    && (!p.held ==> p.disk.marker == None)
    && (!m.exposed ==> Safe(t, p.disk))
    && Measured(t, p, m)
    && GoodAt(t, p, m)
  }

  lemma EarlyStepGood(t: Trial, p: Process, m: Mishaps)
    requires Good(t, p, m) && BeforePatch(p.pc)
    ensures Good(t, NextStep(t, p), NextMishaps(t, p, Step, m))
  {
  }

  lemma TryStepGood(t: Trial, p: Process, m: Mishaps)
    requires Good(t, p, m) && (p.pc == EnterTry || InTry(p.pc))
    ensures Good(t, NextStep(t, p), NextMishaps(t, p, Step, m))
  {
  }

  lemma RestoreStepGood(t: Trial, p: Process, m: Mishaps)
    requires Good(t, p, m) && (p.pc == RestoreAfterError || p.pc == RestoreFile)
    ensures Good(t, NextStep(t, p), NextMishaps(t, p, Step, m))
  {
  }

  lemma LateStepGood(t: Trial, p: Process, m: Mishaps)
    requires Good(t, p, m) && (p.pc == UninstallTerm || p.pc == UninstallInt || p.pc == ClearMarker)
    ensures Good(t, NextStep(t, p), NextMishaps(t, p, Step, m))
  {
  }

  lemma StepGood(t: Trial, p: Process, m: Mishaps)
    requires Good(t, p, m) && !Over(p)
    ensures Good(t, NextStep(t, p), NextMishaps(t, p, Step, m))
  {
    if BeforePatch(p.pc) {
      EarlyStepGood(t, p, m);
    } else if p.pc == EnterTry || InTry(p.pc) {
      TryStepGood(t, p, m);
    } else if p.pc == RestoreAfterError || p.pc == RestoreFile {
      RestoreStepGood(t, p, m);
    } else {
      LateStepGood(t, p, m);
    }
  }

  lemma NotOkGood(t: Trial, p: Process, m: Mishaps)
    requires Good(t, p, m) && !Over(p)
    ensures Good(t, NotOkStep(p), m)
  {
  }

  lemma FailGood(t: Trial, p: Process, m: Mishaps)
    requires Good(t, p, m) && !Over(p)
    ensures Good(t, FailedStep(t, p), NextMishaps(t, p, Fail, m))
  {
  }

  lemma KillGood(t: Trial, p: Process, m: Mishaps)
    requires Good(t, p, m) && !Over(p)
    ensures Good(t, p.(pc := Dead), m)
  {
  }

  lemma EarlyReturnGood(t: Trial, p: Process, sig: Sig, m: Mishaps)
    requires Good(t, p, m) && BeforePatch(p.pc) && ChainOf(t, sig) == Returns
    ensures Good(t, Handle(t, p, sig), NextMishaps(t, p, Signal(sig), m))
  {
  }

  lemma LateReturnGood(t: Trial, p: Process, sig: Sig, m: Mishaps)
    requires Good(t, p, m) && !Over(p) && !BeforePatch(p.pc) && ChainOf(t, sig) == Returns
    ensures Good(t, Handle(t, p, sig), NextMishaps(t, p, Signal(sig), m))
  {
  }

  /** An exception that is not caught, wherever it comes from. */
  lemma UnwindGood(t: Trial, p: Process, sig: Sig, m: Mishaps)
    requires Good(t, p, m) && !Over(p)
    ensures var disk := if Ours(p, sig) then Unmark(p).(file := t.source) else p.disk;
            Good(t, p.(disk := disk, pc := Unwind(p.pc), raising := true), m)
  {
  }

  lemma ThrowGood(t: Trial, p: Process, sig: Sig, m: Mishaps)
    requires Good(t, p, m) && InTry(p.pc)
    ensures Good(t, Caught(p.(disk := Unmark(p).(file := t.source))), m)
  {
  }

  lemma NoMishap(t: Trial, p: Process, sig: Sig, m: Mishaps)
    requires ChainOf(t, sig) != Returns
    ensures NextMishaps(t, p, Signal(sig), m) == m
  {
  }

  lemma DieGood(t: Trial, p: Process, sig: Sig, m: Mishaps)
    requires Good(t, p, m) && !Over(p) && ChainOf(t, sig) == Dies
    ensures Good(t, Handle(t, p, sig), m)
  {
  }

  lemma RaiseGood(t: Trial, p: Process, sig: Sig, m: Mishaps)
    requires Good(t, p, m) && !Over(p) && (ChainOf(t, sig) == Interrupts || ChainOf(t, sig) == Throws)
    ensures Good(t, Handle(t, p, sig), m)
  {
    if ChainOf(t, sig) == Throws && InTry(p.pc) {
      ThrowGood(t, p, sig, m);
    } else {
      UnwindGood(t, p, sig, m);
    }
  }

  lemma SignalGood(t: Trial, p: Process, sig: Sig, m: Mishaps)
    requires Good(t, p, m) && !Over(p)
    ensures Good(t, Handle(t, p, sig), NextMishaps(t, p, Signal(sig), m))
  {
    if ChainOf(t, sig) != Returns {
      NoMishap(t, p, sig, m);
      if ChainOf(t, sig) == Dies {
        DieGood(t, p, sig, m);
      } else {
        RaiseGood(t, p, sig, m);
      }
    } else if BeforePatch(p.pc) {
      EarlyReturnGood(t, p, sig, m);
    } else {
      LateReturnGood(t, p, sig, m);
    }
  }

  lemma NextGood(t: Trial, p: Process, e: Event, m: Mishaps)
    requires Good(t, p, m)
    ensures Good(t, Next(t, p, e), NextMishaps(t, p, e, m))
  {
    if !Over(p) {
      match e
      case Step => StepGood(t, p, m);
      case Signal(sig) => SignalGood(t, p, sig, m);
      case NotOk => NotOkGood(t, p, m);
      case Fail => FailGood(t, p, m);
      case Kill => KillGood(t, p, m);
    }
  }

  lemma AtStep(t: Trial, events: seq<Event>, n: nat)
    requires n < |events|
    ensures At(t, events, n + 1) == Next(t, At(t, events, n), events[n])
  {
    assert events[..n + 1][..n] == events[..n];
  }

  lemma LostStep(t: Trial, events: seq<Event>, n: nat)
    requires n < |events|
    ensures Lost(t, events, n + 1) == (Lost(t, events, n) || LosesMarker(t, At(t, events, n), events[n]))
  {
  }

  lemma ExposedStep(t: Trial, events: seq<Event>, n: nat)
    requires n < |events|
    ensures Exposed(t, events, n + 1) ==
            (Exposed(t, events, n) || (Patches(At(t, events, n), events[n]) && Lost(t, events, n)))
  {
  }

  lemma UndoneStep(t: Trial, events: seq<Event>, n: nat)
    requires n < |events|
    ensures TrainingUndone(t, events, n + 1) ==
            (TrainingUndone(t, events, n) || UndoesTraining(t, At(t, events, n), events[n]))
    ensures EvaluationUndone(t, events, n + 1) ==
            (EvaluationUndone(t, events, n) || UndoesEvaluation(t, At(t, events, n), events[n]))
  {
  }

  lemma MishapsStep(t: Trial, events: seq<Event>, n: nat)
    requires n < |events|
    ensures MishapsOf(t, events, n + 1) == NextMishaps(t, At(t, events, n), events[n], MishapsOf(t, events, n))
  {
    LostStep(t, events, n);
    ExposedStep(t, events, n);
    UndoneStep(t, events, n);
  }

  ghost predicate GoodSoFar(t: Trial, events: seq<Event>, n: nat)
    requires n <= |events|
  {
    Good(t, At(t, events, n), MishapsOf(t, events, n))
  }

  lemma GoodOneMore(t: Trial, events: seq<Event>, n: nat)
    requires 0 < n <= |events| && GoodSoFar(t, events, n - 1)
    ensures GoodSoFar(t, events, n)
  {
    AtStep(t, events, n - 1);
    MishapsStep(t, events, n - 1);
    NextGood(t, At(t, events, n - 1), events[n - 1], MishapsOf(t, events, n - 1));
  }

  lemma AtStart(t: Trial, events: seq<Event>)
    ensures At(t, events, 0) == Begin(Disk(t.source, None))
    ensures MishapsOf(t, events, 0) == Mishaps(false, false, false, false)
  {
    assert events[..0] == [];
  }

  lemma GoodAtStart(t: Trial, events: seq<Event>)
    ensures GoodSoFar(t, events, 0)
  {
    AtStart(t, events);
  }

  lemma {:induction false} GoodThroughout(t: Trial, events: seq<Event>, n: nat)
    requires n <= |events|
    ensures GoodSoFar(t, events, n)
    decreases n
  {
    if n == 0 {
      GoodAtStart(t, events);
    } else {
      GoodThroughout(t, events, n - 1);
      GoodOneMore(t, events, n);
    }
  }

  /** Whatever happens in a trial, the invariant holds after every event. */
  lemma AlwaysGood(t: Trial, events: seq<Event>, n: nat)
    requires n <= |events|
    ensures Good(t, At(t, events, n), MishapsOf(t, events, n))
  {
    GoodThroughout(t, events, n);
  }

  /** Crash safety. If the marker was written and no signal was handled and returned between the installation of
      the handlers and the patched write, then after any events, kills included, the next start of the engine
      finds the source as it was before the trial, and no marker. */
  lemma CrashSafe(t: Trial, events: seq<Event>)
    requires !Lost(t, events, |events|)
    ensures Recover(At(t, events, |events|).disk) == Disk(t.source, None)
  {
    AlwaysGood(t, events, |events|);
  }

  /** Exactly when a trial that changes the file is safe at every moment: when the patched file is not written
      after the marker was taken away. */
  lemma SafeThroughoutIff(t: Trial, events: seq<Event>)
    requires t.modified != t.source
    ensures (forall n: nat :: n <= |events| ==> Safe(t, At(t, events, n).disk)) <==> !Exposed(t, events, |events|)
  {
    if Exposed(t, events, |events|) {
      var i: nat :| i < |events| && Patches(At(t, events, i), events[i]) && Lost(t, events, i);
      UnsafeOncePatched(t, events, i);
    } else {
      forall n: nat | n <= |events|
        ensures Safe(t, At(t, events, n).disk)
      {
        SafeUnlessExposed(t, events, n);
      }
    }
  }

  lemma UnsafeOncePatched(t: Trial, events: seq<Event>, i: nat)
    requires i < |events| && Patches(At(t, events, i), events[i]) && Lost(t, events, i) && t.modified != t.source
    ensures !Safe(t, At(t, events, i + 1).disk)
  {
    AlwaysGood(t, events, i);
    AtStep(t, events, i);
  }

  lemma SafeUnlessExposed(t: Trial, events: seq<Event>, n: nat)
    requires n <= |events| && !Exposed(t, events, |events|)
    ensures Safe(t, At(t, events, n).disk)
  {
    AlwaysGood(t, events, n);
    assert !Exposed(t, events, n);
  }

  /** A trial that runs to its end leaves the file as it was and no marker, whatever signals arrived. Unless an
      exception was caught, the target was started. */
  lemma FinishedIsClean(t: Trial, events: seq<Event>)
    requires At(t, events, |events|).pc == Finished
    ensures At(t, events, |events|).disk == Disk(t.source, None)
    ensures At(t, events, |events|).failed || At(t, events, |events|).trained.Some?
  {
    AlwaysGood(t, events, |events|);
  }

  /** At every moment of a trial that changes the file: the training was started on the patched file exactly if no
      signal was handled and returned between the patched write and that start, and the evaluation exactly if none was
      up to the start of the evaluation. Otherwise they were started on the old source. */
  lemma TargetRanPatchIff(t: Trial, events: seq<Event>)
    requires t.modified != t.source
    ensures var p := At(t, events, |events|);
            && (p.trained.Some? ==>
                  && (p.trained.value == t.modified <==> !TrainingUndone(t, events, |events|))
                  && (p.trained.value == t.source <==> TrainingUndone(t, events, |events|)))
            && (p.evaluated.Some? ==>
                  && (p.evaluated.value == t.modified <==> !EvaluationUndone(t, events, |events|))
                  && (p.evaluated.value == t.source <==> EvaluationUndone(t, events, |events|)))
  {
    AlwaysGood(t, events, |events|);
  }

  // ---------------------------------------------------------------- how a trial ends

  /** An exception that is caught: the target raises, or a signal throws while the target is being run. */
  predicate IsCaught(t: Trial, p: Process, e: Event) {
    && p.pc in {StartTraining, Training, StartEvaluation, Evaluating}
    && (e == Fail || (e.Signal? && ChainOf(t, e.sig) == Throws))
  }

  ghost predicate WasCaught(t: Trial, events: seq<Event>, n: nat)
    requires n <= |events|
  {
    exists j: nat :: j < n && IsCaught(t, At(t, events, j), events[j])
  }

  /** The training ended with another status than "ok". */
  ghost predicate EndedBadly(t: Trial, events: seq<Event>, n: nat)
    requires n <= |events|
  {
    exists j: nat :: j < n && At(t, events, j).pc == Training && events[j] == NotOk
  }

  /** What is known of the result at each statement. */
  predicate Results(p: Process, caught: bool, bad: bool) {
    && p.failed == caught
    && match p.pc
       case Dead => true
       case Unwound => true
       case RestoreAfterError => p.failed
       case Evaluating => !bad && p.evaluated.Some?
       case RestoreFile => EndsWell(p, bad)
       case UninstallTerm => EndsWell(p, bad)
       case UninstallInt => EndsWell(p, bad)
       case ClearMarker => EndsWell(p, bad)
       case Finished => EndsWell(p, bad) && !p.raising
       case _ => !bad && p.evaluated == None
  }

  predicate EndsWell(p: Process, bad: bool) { p.failed || p.raising || (p.evaluated.Some? <==> !bad) }

  lemma ResultsStep(t: Trial, p: Process, e: Event, caught: bool, bad: bool)
    requires Results(p, caught, bad)
    ensures Results(Next(t, p, e), caught || IsCaught(t, p, e), bad || (p.pc == Training && e == NotOk))
  {
    if !Over(p) {
      match e
      case Step => ResultsNextStep(t, p, caught, bad);
      case NotOk =>
      case Fail =>
      case Signal(sig) => ResultsSignal(t, p, sig, caught, bad);
      case Kill =>
    }
  }

  lemma ResultsNextStep(t: Trial, p: Process, caught: bool, bad: bool)
    requires Results(p, caught, bad)
    ensures Results(NextStep(t, p), caught, bad)
  {
  }

  lemma ResultsSignal(t: Trial, p: Process, sig: Sig, caught: bool, bad: bool)
    requires Results(p, caught, bad) && !Over(p)
    ensures Results(Handle(t, p, sig), caught || IsCaught(t, p, Signal(sig)), bad)
  {
    match ChainOf(t, sig)
    case Returns =>
    case Dies =>
    case Interrupts => ResultsUnwound(t, p, sig, caught, bad);
    case Throws => ResultsUnwound(t, p, sig, caught, bad);
  }

  lemma ResultsUnwound(t: Trial, p: Process, sig: Sig, caught: bool, bad: bool)
    requires Results(p, caught, bad) && !Over(p)
    ensures var disk := if Ours(p, sig) then Unmark(p).(file := t.source) else p.disk;
            Results(p.(disk := disk, pc := Unwind(p.pc), raising := true), caught, bad)
  {
  }

  lemma {:induction false} AlwaysResults(t: Trial, events: seq<Event>, n: nat)
    requires n <= |events|
    ensures Results(At(t, events, n), WasCaught(t, events, n), EndedBadly(t, events, n))
    decreases n
  {
    if n == 0 {
      AtStart(t, events);
    } else {
      AlwaysResults(t, events, n - 1);
      AtStep(t, events, n - 1);
      ResultsStep(t, At(t, events, n - 1), events[n - 1], WasCaught(t, events, n - 1), EndedBadly(t, events, n - 1));
      assert WasCaught(t, events, n) <==> WasCaught(t, events, n - 1) || IsCaught(t, At(t, events, n - 1), events[n - 1]);
      assert EndedBadly(t, events, n)
        <==> EndedBadly(t, events, n - 1) || (At(t, events, n - 1).pc == Training && events[n - 1] == NotOk);
    }
  }

  /** A trial that runs to its end counts as failed exactly if the target raised, or a signal threw, while the target was being
      run. Otherwise it was trained, and evaluated exactly if the training did not end badly. */
  lemma FinishedResult(t: Trial, events: seq<Event>)
    requires At(t, events, |events|).pc == Finished
    ensures var p := At(t, events, |events|);
            && (p.failed <==> WasCaught(t, events, |events|))
            && (!p.failed ==> p.trained.Some? && (p.evaluated.Some? <==> !EndedBadly(t, events, |events|)))
  {
    AlwaysGood(t, events, |events|);
    AlwaysResults(t, events, |events|);
  }

  // ---------------------------------------------------------------- particular runs

  function Steps(n: nat): (events: seq<Event>)
    ensures |events| == n
  {
    seq(n, i => Step)
  }

  lemma {:induction false} RunAppend(t: Trial, p: Process, a: seq<Event>, b: seq<Event>)
    ensures Run(t, p, a + b) == Run(t, Run(t, p, a), b)
    decreases |b|
  {
    if b == [] {
      assert a + b == a;
    } else {
      RunAppend(t, p, a, b[..|b| - 1]);
      assert (a + b)[..|a + b| - 1] == a + b[..|b| - 1];
    }
  }

  lemma RunOne(t: Trial, p: Process, e: Event)
    ensures Run(t, p, [e]) == Next(t, p, e)
  {
    assert [e][..0] == [];
  }

  lemma StepsAppend(t: Trial, p: Process, m: nat, n: nat)
    ensures Run(t, p, Steps(m + n)) == Run(t, Run(t, p, Steps(m)), Steps(n))
  {
    assert Steps(m + n) == Steps(m) + Steps(n);
    RunAppend(t, p, Steps(m), Steps(n));
  }

  lemma OneMore(t: Trial, p: Process, n: nat, q: Process)
    requires Run(t, p, Steps(n)) == q
    ensures Run(t, p, Steps(n + 1)) == Next(t, q, Step)
  {
    StepsAppend(t, p, n, 1);
    assert Steps(1) == [Step];
    RunOne(t, q, Step);
  }

  /** A few steps at a time: to the patched write, to the training, to the evaluation, and to the end. */
  lemma ToPatch(t: Trial)
    ensures Run(t, Begin(Disk(t.source, None)), Steps(3))
         == Process(Disk(t.source, Some(t.source)), WritePatched, true, BOTH, false, false, None, None)
  {
    var p, marked := Begin(Disk(t.source, None)), Disk(t.source, Some(t.source));
    assert Steps(0) == [];
    OneMore(t, p, 0, p);
    OneMore(t, p, 1, Process(marked, InstallTerm, true, NEITHER, false, false, None, None));
    OneMore(t, p, 2, Process(marked, InstallInt, true, Installed(true, false), false, false, None, None));
  }

  lemma ToTraining(t: Trial, p: Process, marker: Option<string>)
    requires p == Process(Disk(t.source, marker), WritePatched, true, BOTH, false, false, None, None)
    ensures Run(t, p, Steps(3))
         == Process(Disk(t.modified, marker), Training, true, BOTH, false, false, Some(t.modified), None)
  {
    assert Steps(0) == [];
    OneMore(t, p, 0, p);
    OneMore(t, p, 1, Process(Disk(t.modified, marker), EnterTry, true, BOTH, false, false, None, None));
    OneMore(t, p, 2, Process(Disk(t.modified, marker), StartTraining, true, BOTH, false, false, None, None));
  }

  lemma ToEvaluation(t: Trial, p: Process, d: Disk, trained: string)
    requires p == Process(d, Training, true, BOTH, false, false, Some(trained), None)
    ensures Run(t, p, Steps(2)) == Process(d, Evaluating, true, BOTH, false, false, Some(trained), Some(d.file))
  {
    assert Steps(0) == [];
    OneMore(t, p, 0, p);
    OneMore(t, p, 1, Process(d, StartEvaluation, true, BOTH, false, false, Some(trained), None));
  }

  lemma ToRestored(t: Trial, p: Process, d: Disk, trained: Option<string>, evaluated: Option<string>)
    requires p == Process(d, Evaluating, true, BOTH, false, false, trained, evaluated)
    ensures Run(t, p, Steps(2)) == Process(Disk(t.source, d.marker), UninstallTerm, true, BOTH, false, false, trained, evaluated)
  {
    assert Steps(0) == [];
    OneMore(t, p, 0, p);
    OneMore(t, p, 1, Process(d, RestoreFile, true, BOTH, false, false, trained, evaluated));
  }

  lemma ToEnd(t: Trial, p: Process, d: Disk, trained: Option<string>, evaluated: Option<string>)
    requires p == Process(d, UninstallTerm, true, BOTH, false, false, trained, evaluated)
    ensures Run(t, p, Steps(3)) == Process(d.(marker := None), Finished, true, NEITHER, false, false, trained, evaluated)
  {
    assert Steps(0) == [];
    OneMore(t, p, 0, p);
    OneMore(t, p, 1, Process(d, UninstallInt, true, Installed(false, true), false, false, trained, evaluated));
    OneMore(t, p, 2, Process(d, ClearMarker, true, NEITHER, false, false, trained, evaluated));
  }

  lemma FromTraining(t: Trial, p: Process, d: Disk, trained: string)
    requires p == Process(d, Training, true, BOTH, false, false, Some(trained), None)
    ensures Run(t, p, Steps(7))
         == Process(Disk(t.source, None), Finished, true, NEITHER, false, false, Some(trained), Some(d.file))
  {
    ToEvaluation(t, p, d, trained);
    StepsAppend(t, p, 2, 2);
    ToRestored(t, Run(t, p, Steps(2)), d, Some(trained), Some(d.file));
    StepsAppend(t, p, 4, 3);
    ToEnd(t, Run(t, p, Steps(4)), Disk(t.source, d.marker), Some(trained), Some(d.file));
  }

  lemma UpToTraining(t: Trial)
    ensures Run(t, Begin(Disk(t.source, None)), Steps(6))
         == Process(Disk(t.modified, Some(t.source)), Training, true, BOTH, false, false, Some(t.modified), None)
  {
    ToPatch(t);
    StepsAppend(t, Begin(Disk(t.source, None)), 3, 3);
    ToTraining(t, Run(t, Begin(Disk(t.source, None)), Steps(3)), Some(t.source));
  }

  /** Without interruption a trial whose training ends well takes thirteen steps, and both starts of the target are on
      the patched file. */
  lemma UninterruptedTrial(t: Trial)
    ensures Run(t, Begin(Disk(t.source, None)), Steps(13))
         == Process(Disk(t.source, None), Finished, true, NEITHER, false, false, Some(t.modified), Some(t.modified))
  {
    var p := Begin(Disk(t.source, None));
    UpToTraining(t);
    StepsAppend(t, p, 6, 7);
    FromTraining(t, Run(t, p, Steps(6)), Disk(t.modified, Some(t.source)), t.modified);
  }

  lemma SignalAfter(t: Trial, p: Process, events: seq<Event>)
    ensures Run(t, p, events + [Signal(Term)]) == Next(t, Run(t, p, events), Signal(Term))
  {
    RunAppend(t, p, events, [Signal(Term)]);
    RunOne(t, Run(t, p, events), Signal(Term));
  }

  lemma SignalBeforePatch(t: Trial)
    requires t.onTerm == Returns
    ensures Run(t, Begin(Disk(t.source, None)), Steps(3) + [Signal(Term)])
         == Process(Disk(t.source, None), WritePatched, true, BOTH, false, false, None, None)
  {
    ToPatch(t);
    SignalAfter(t, Begin(Disk(t.source, None)), Steps(3));
  }

  lemma PatchWithoutMarker(t: Trial)
    requires t.onTerm == Returns
    ensures Run(t, Begin(Disk(t.source, None)), Steps(3) + [Signal(Term)] + Steps(3))
         == Process(Disk(t.modified, None), Training, true, BOTH, false, false, Some(t.modified), None)
  {
    var p, before := Begin(Disk(t.source, None)), Steps(3) + [Signal(Term)];
    SignalBeforePatch(t);
    RunAppend(t, p, before, Steps(3));
    ToTraining(t, Run(t, p, before), None);
  }

  /** The hole is real, whatever the other signal does: a SIGTERM that only sets the shutdown flag, between installing
      the handlers and patching, and then a kill while the target trains, leave the patched file behind for good. */
  lemma HoleExists(source: string, modified: string, onInt: Chained)
    requires source != modified
    ensures var t := Trial(source, modified, Returns, onInt);
            var events := Steps(3) + [Signal(Term)] + Steps(3) + [Kill];
            Recover(At(t, events, |events|).disk) == Disk(modified, None)
  {
    var t, p := Trial(source, modified, Returns, onInt), Begin(Disk(source, None));
    var before := Steps(3) + [Signal(Term)] + Steps(3);
    PatchWithoutMarker(t);
    RunAppend(t, p, before, [Kill]);
    RunOne(t, Run(t, p, before), Kill);
    assert (before + [Kill])[..|before + [Kill]|] == before + [Kill];
  }

  /** A SIGTERM while the target trains. */
  function TermDuringTraining(): seq<Event> { Steps(6) + [Signal(Term)] + Steps(7) }

  /** If it only sets the shutdown flag, the trial goes on to its end, trained on the patched file and evaluated on the
      old source. */
  lemma EvaluatesOldSource(t: Trial)
    requires t.onTerm == Returns
    ensures Run(t, Begin(Disk(t.source, None)), TermDuringTraining())
         == Process(Disk(t.source, None), Finished, true, NEITHER, false, false, Some(t.modified), Some(t.source))
  {
    var p, before := Begin(Disk(t.source, None)), Steps(6) + [Signal(Term)];
    UpToTraining(t);
    SignalAfter(t, p, Steps(6));
    RunAppend(t, p, before, Steps(7));
    FromTraining(t, Run(t, p, before), Disk(t.source, None), t.modified);
  }
}
