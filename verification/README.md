# AutoJEPA experiment controller: a verified model

AutoJEPA runs training trials under a controller. The controller proposes trials, runs them one at a time or several
at once, keeps the best result, patches a source file with diffs written by a language model, and writes logs and
checkpoints. This project models the controller's stateful parts in Dafny and proves what they keep over whole runs.
`dafny verify dfyconfig.toml` checks it all.

| file | models |
|---|---|
| `Trials.dfy` | the effect of one finished trial on best score, streak, history, status window and reward; the fold over trials |
| `SerialEngine.dfy` | the serial loop, its stop guards, saving and loading checkpoints |
| `Resources.dfy` | admission of trials to bounded resources |
| `ParallelEngine.dfy` | the parallel loop as a state machine: submit, drain, commit |
| `ParallelCorrectness.dfy` | its invariant, for every order in which trials finish |
| `ParallelTheorems.dfy` | refinement of the serial engine, exit, budget, concurrency, resources, termination |
| `ParallelStops.dfy` | when a stop of the parallel loop is for good, and exactly when it is lifted |
| `ParallelGuarded.dfy` | the parallel engine against the serial engine with the same stop guards |
| `ParallelAdmission.dfy` | exactly which proposals the parallel loop submits, and how its turns end |
| `ParallelLoop.dfy` | the parallel loop as it runs, an object updated in place, proved equal to the state machine |
| `DiffExecutor.dfy` | the crash protocol of a diff trial, with signals and kills between any two steps |
| `Campaign.dfy` | the executor's files over a whole campaign with keeps, crashes and restarts |
| `UnifiedDiff.dfy`, `HunkRecount.dfy`, `HunkBodies.dfy`, `RecountText.dfy`, `HunkTexts.dfy` | lines, hunk headers, and the recounter of hunk headers |
| `Guard.dfy` | the watcher that cancels a running trial |
| `Hybrid.dfy` | the policy that switches between parameters and diffs |
| `Conversation.dfy` | the diff policy's conversation with its language model |
| `Rotation.dfy` | log rotation, the event trace, the results ledger |
| `Masks.dfy` | the two mask samplers |
| `Gae.dfy`, `Trend.dfy`, `Algebra.dfy` | advantage estimation, the least-squares slope, folded products |
| `Wrappers.dfy` | an option type, maximum and minimum |

Code that changes things step by step is a class or a method with loops. Its contract ties the new state to a
specification function (`View() == Step(old(View()), ...)`), and the lemmas are about those functions, over all runs.

What the surroundings decide is a parameter: outcomes of trials, which futures are done, the clock, the shutdown flag,
signals, draws of the random generator, answers of the language model, the `patch` program, the forecaster. So a lemma
holds for every such behaviour. Floats are reals. Atomic steps are: one file write, rename or unlink; one call of the
resource pool; one turn of the parallel loop.

Where the code does something other than its documentation says, the model follows the code and a lemma shows it:

- The parallel engine promises the same observable contract as the serial one (`parallel_engine.py:3-6`). The recorded
  rewards differ for a discarded trial that reports the objective under the status "failed"
  (`Trials.RewardStreamsAgree`, `ParallelTheorems.RewardsCanDiffer`).
- A stop condition does not stop the parallel engine for good: a trial that is still draining can bring the streak or the
  failure rate down again, after which trials are submitted (`ParallelStops.StopIsLifted`; `ParallelStops.StreakStopIff`,
  `ParallelStops.FailureStopIff` and `ParallelStops.MaySubmitAgainIff` say exactly when, `ParallelStops.StoppedForGood`
  which stops are for good).
- The restore marker promises that a kill can be cleaned up at the next start (`diff_executor.py:239-241`). A signal that
  is handled, and returns, between the installation of the handlers and the write of the patched file takes the marker
  away too early (`DiffExecutor.HoleExists`; `DiffExecutor.SafeThroughoutIff` says exactly when a trial is safe).
- A kept diff promises that its patched source was measured. The target is started on the file twice, to train and to
  evaluate (with the default command target a second training run), and a signal that is handled and returns after the
  patched write restores the old source for every later start. The evaluation that decides can then measure the old
  source while the keep persists the patch (`DiffExecutor.EvaluatesOldSource`, `Campaign.KeepsUnmeasuredDiff`;
  `DiffExecutor.TargetRanPatchIff` and `Campaign.KeptIsWhatRan` say exactly when not).
- Resuming from a checkpoint continues the campaign, unless a guard that is only tested after a commit had ended it
  (`SerialEngine.ResumeAgreesIff`), or the forecaster, whose scores are not saved, judges all of them otherwise than those
  since the save (`SerialEngine.ResumeAgreesThroughoutIff`, `SerialEngine.ForecastingForgetsScores`).
- The recounter promises counts that match the actual body (`diff_executor.py:44-53`). A removed line whose content starts
  with "-- ", or an added one that starts with "++ ", looks like a file header and cuts the count short
  (`HunkBodies.CountsCutShort`; `HunkBodies.CountsMatchIff` and, on texts, `HunkTexts.TextMatchesIff` say that nothing else
  does).
- Recounting hunks is idempotent exactly if no header ends in a line break other than a newline or a carriage return
  (`RecountText.IdempotentIff`).
- The reset of the conversation after a kept diff depends on a tag that only the hybrid mode records; in the pure diff
  mode the conversation survives every keep (`Conversation.DiffModeKeepsStaleExchanges`; `Conversation.DiffModeShowsAll`
  says exactly when a stale exchange is shown).
- The future mask sampler documents retries on collisions between targets (`primitives.py:194-195`); it has none, and its
  complaint about a missing future region can never be raised (`Masks.SampleFuture`).

## Model

| member | source | states |
|---|---|---|
| Trials.FoldMeaning | src/autojepa/controller/engine.py:429-456 | after any trials the control state is pinned down without the commit code: one history entry per trial with its index, status and metrics; best score is the minimum over the contenders, with the value of the first to reach it; streak is the number of trailing non-kept entries; the window holds the last max(1, window) statuses (`Trials.KeptIffBetter` and `Trials.BestValueIsExtreme` say it on the reported numbers) |
| Trials.KeptIffBetter | src/autojepa/controller/engine.py:429-456 | after any trials, on the numbers in their metrics alone: trial i is kept iff it was not cancelled, reports the objective, and its value is strictly less (when minimising) or strictly greater (when maximising) than every value reported before it by a trial that was not cancelled; it is recorded as cancelled iff it was, and under which status, metrics, number and parameters |
| Trials.BestValueIsExtreme | src/autojepa/controller/engine.py:440-446 | the best value is the minimum or maximum of the values reported by trials that were not cancelled, and there is none iff there are none; the best score is that value, negated when maximising |
| Trials.BestNeverWorsens | src/autojepa/controller/engine.py:442-444 | over any further trials the best score never gets worse, and the history only grows at its end |
| Trials.RewardsAgree | src/autojepa/controller/parallel_engine.py:368-394 | the two engines reward one outcome alike iff it is not a non-improving trial that reports the objective under the status "failed" |
| Trials.RewardsByEntry | src/autojepa/controller/engine.py:463-473 | what each engine pays for each trial of a campaign, by what its history entry says |
| Trials.RewardStreamsAgree | src/autojepa/controller/parallel_engine.py:401-402 | over a whole campaign the two reward lists are equal iff no such trial was discarded |
| Trials.StreakGuardMeans | src/autojepa/controller/helpers.py:33-37 | after any trials the streak guard is raised iff none of the last `limit` entries was kept and there are that many |
| Trials.FailureGuardMeans | src/autojepa/controller/helpers.py:40-54 | after any trials the failure guard is raised iff the window is full and the share of failures among the last entries reaches the limit |
| Trials.FailuresCount | src/autojepa/controller/helpers.py:51-53 | the failures are the statuses that are neither "ok" nor "cancelled" |
| SerialEngine.Engine.constructor | src/autojepa/controller/engine.py:201-224 | a new engine holds the fresh state, or exactly what the checkpoint restores |
| SerialEngine.Engine.Judge | src/autojepa/controller/engine.py:434-456 | best score, best value, streak and decision after comparing one value with the best so far, a cancelled trial included; `Trials.KeptIffBetter` says what that amounts to over a campaign |
| SerialEngine.Engine.Learn | src/autojepa/controller/engine.py:463-473 | the one reward handed to a policy that learns |
| SerialEngine.Engine.CommitTrial | src/autojepa/controller/engine.py:429-570 | the whole new state after a trial is the specification's commit |
| SerialEngine.Engine.Iterate | src/autojepa/controller/engine.py:271-590 | one pass through the loop, guards before and after included, is one step of the specification; `SerialEngine.StopsBeforeTurn` and `SerialEngine.GoesOnIff` say on the inputs when it stops |
| SerialEngine.Engine.RunLoop | src/autojepa/controller/engine.py:270-590 | the loop, fed with any turns, reaches the state of the specification's run |
| SerialEngine.Engine.SaveCheckpoint | src/autojepa/controller/engine.py:615-630 | the checkpoint holds the number of the last iteration, the control state and the elapsed time of all processes together; without any iteration nothing is written |
| SerialEngine.RunIsFold | src/autojepa/controller/engine.py:429-570 | a run commits exactly the trials of its first turns, in order: its control state is their fold, its rewards are theirs, counters agree, and the iteration budget is never exceeded |
| SerialEngine.HaltedIff | src/autojepa/controller/engine.py:271-590 | from any state, the loop ends exactly at the first turn at which a guard of the specification is raised, before its trial or after its commit |
| SerialEngine.StopsBeforeTurn | src/autojepa/controller/engine.py:271-281 | if turn n finds the shutdown flag set, the elapsed time (with that of earlier processes) at the limit or the iteration budget committed, the loop halts with at most n trials committed, in the state it had before that turn |
| SerialEngine.GoesOnIff | src/autojepa/controller/engine.py:271-590 | a fresh campaign goes on over all its turns, and commits every trial, iff no turn finds the flag set, the time used up or the budget committed, and after no trial there is a keepless streak of the limit, a full window with too large a share of failures, or a forecast against at least five reported values |
| SerialEngine.ResumeContinues | src/autojepa/controller/engine.py:212-224 | stop before a trial, save, load, go on: the same control state, counters and stop as the run that was never interrupted, guards on elapsed time included |
| SerialEngine.ResumeAgreesIff | src/autojepa/controller/engine.py:572-581 | with the forecaster off, the resumed run agrees with the uninterrupted one iff that one had not halted before the save |
| SerialEngine.ResumeAgreesThroughoutIff | src/autojepa/controller/engine.py:572-590 | for any forecaster, any guards and any continuation, the resumed run goes the way of the uninterrupted one turn by turn iff at no committed turn that no other guard ends does the forecaster judge all scores otherwise than those since the save |
| SerialEngine.ForecastingForgetsScores | src/autojepa/controller/engine.py:615-630 | with no other guard, every forecaster and every continuation treats the resumed run as the uninterrupted one iff no score had been reported before the save |
| Resources.ResourcePool.constructor | src/autojepa/controller/resource_pool.py:42-48 | a new pool has its capacity, nothing in use and no reservation |
| Resources.ResourcePool.TryAcquire | src/autojepa/controller/resource_pool.py:67-88 | the two loops compute the specification's answer and new state, errors included |
| Resources.ResourcePool.Release | src/autojepa/controller/resource_pool.py:90-98 | the loop computes the specification's new state, for an unknown id too |
| Resources.CheckMeaning | src/autojepa/controller/resource_pool.py:77-82 | a request passes the check iff each of its amounts is non-negative and available; `Resources.GrantedIff` says what is available |
| Resources.GrantedIff | src/autojepa/controller/resource_pool.py:130-134 | a request is granted iff its id is free and each amount is non-negative and at most the capacity less the total of the reserved costs; it is an error of its own iff the id is taken |
| Resources.FirstBadItem | src/autojepa/controller/resource_pool.py:78-82 | the first item that cannot be granted decides: an error if it is negative, a refusal if it does not fit |
| Resources.AcquireConserves | src/autojepa/controller/resource_pool.py:67-88 | in use stays the sum of the reserved costs within capacity; granted iff the id is free and everything fits; a refused or rejected request changes nothing; a granted one adds exactly its cost |
| Resources.ReleaseConserves | src/autojepa/controller/resource_pool.py:90-98 | release frees exactly the reserved cost and keeps the sum: the clamp at zero never alters a value |
| Resources.AcquireThenReleased | src/autojepa/controller/resource_pool.py:84-97 | acquire and then release restores every availability and every reservation |
| Resources.AlwaysConserved | src/autojepa/controller/resource_pool.py:67-98 | conservation after any sequence of calls, refused and erroneous ones included |
| ParallelLoop.Engine.constructor | src/autojepa/controller/parallel_engine.py:145-204 | the loop starts with nothing in flight and the counters of the checkpoint |
| ParallelLoop.Engine.SubmitOne | src/autojepa/controller/parallel_engine.py:256-319 | one proposal: stop test, budget test, admission, bookkeeping |
| ParallelLoop.Engine.SubmitPhase | src/autojepa/controller/parallel_engine.py:239-263 | the submit phase with both clamps on the open slots; `ParallelAdmission.SubmittedIff` says what it submits |
| ParallelLoop.Engine.DrainFinished | src/autojepa/controller/parallel_engine.py:321-335 | the drain loop moves the finished trials, in index order, and releases their resources |
| ParallelLoop.Engine.FlushRewards | src/autojepa/controller/parallel_engine.py:222-229 | rewards leave the buffer in index order as long as the next one is there |
| ParallelLoop.Engine.Judge | src/autojepa/controller/parallel_engine.py:368-394 | decision, reward, best and streak for one outcome; `Trials.KeptIffBetter` and `Trials.RewardsByEntry` say what that amounts to over a campaign |
| ParallelLoop.Engine.CommitNext | src/autojepa/controller/parallel_engine.py:345-402 | the whole new state after committing the trial whose turn it is |
| ParallelLoop.Engine.Turn | src/autojepa/controller/parallel_engine.py:232-347 | one turn of the loop is one turn of the state machine, and ends the same way |
| ParallelLoop.Engine.RunLoop | src/autojepa/controller/parallel_engine.py:231-343 | the loop reaches the state of the state machine, and has left iff that has |
| ParallelCorrectness.RunInv | src/autojepa/controller/parallel_engine.py:198-229 | in every reachable state: in flight and completed are disjoint and together exactly [next_to_process, iter_idx); every entry is the trial submitted under its number; reservations are exactly the trials in flight with their costs; the control state is the serial fold over the committed outcomes in index order, and the reward buffer is empty |
| ParallelCorrectness.DrainMoves | src/autojepa/controller/parallel_engine.py:324-335 | draining moves exactly the trials in flight whose future is done |
| ParallelCorrectness.CommitEffect | src/autojepa/controller/parallel_engine.py:345-402 | a commit pays exactly one reward, that of its own trial, and leaves no reward behind |
| ParallelTheorems.ParallelRefinesSerial | src/autojepa/controller/parallel_engine.py:3-6 | for every interleaving the parallel engine's control state, counters and published best value equal those of the serial engine, run with every stop guard off, on the same trials in index order (the two engines look at the guards at different moments); the rewards are equal iff no discarded trial reports the objective as "failed" |
| ParallelGuarded.GuardedCommitsPrefix | src/autojepa/controller/parallel_engine.py:206-232 | for every interleaving, the serial engine with its guards on, given the trials the parallel engine committed, commits the first of them: all, or up to a state at which one of its guards holds |
| ParallelGuarded.OneAtATimeIsSerial | src/autojepa/controller/parallel_engine.py:206-263 | with one trial at a time the parallel engine is always in the state of the serial engine with the same guards on the same trials, and that one has halted iff a guard holds |
| ParallelGuarded.OneAtATimeStops | src/autojepa/controller/parallel_engine.py:232-343 | and with proposals that fit and no interruption, when it leaves its loop the serial engine stops too, on the same trials and in the same state |
| ParallelTheorems.RewardsCanDiffer | src/autojepa/controller/parallel_engine.py:375-394 | two trials from a fresh start for which the two engines pay 1.0, -0.1 and 1.0, 0.0 |
| ParallelTheorems.SleepOrLeave | src/autojepa/controller/parallel_engine.py:337-347 | the loop sleeps only while the trial it waits for is in flight, leaves only when nothing is left, and otherwise commits exactly one trial |
| ParallelTheorems.LeavesNothingBehind | src/autojepa/controller/parallel_engine.py:232-347 | after the loop has left, every submitted trial was committed once, in order, with one history entry and one reward; nothing is in flight, waiting or reserved |
| ParallelTheorems.CheckpointIsSerial | src/autojepa/controller/parallel_engine.py:522-537 | what the parallel engine saves, although it counts submissions, loads as the state a serial engine without stop guards would have reached on the committed trials from the same start, resumed or fresh; after a fresh start with the meaning `Trials.FoldMeaning` gives |
| ParallelTheorems.BudgetHolds | src/autojepa/controller/parallel_engine.py:240-263 | committed, completed and running trials together number iter_idx and never exceed the larger of the budget and the count at the start |
| ParallelTheorems.ConcurrencyHolds | src/autojepa/controller/parallel_engine.py:239-245 | no more than max_concurrency trials run at once if the policy answers with at most as many proposals as asked for |
| ParallelTheorems.RunningCostFits | src/autojepa/controller/parallel_engine.py:281-284 | in every reachable state the running trials' total cost is what the pool has booked and fits its capacity; resources unknown to the pool are not used |
| ParallelTheorems.SubmitAllPrefix | src/autojepa/controller/parallel_engine.py:256-319 | of the proposals exactly the first ones are submitted, under consecutive numbers, up to the first at which a stop condition holds, the budget is spent or the pool refuses |
| ParallelAdmission.SlotsMean | src/autojepa/controller/parallel_engine.py:239-245 | the policy is asked for at least n proposals iff n more trials fit both the workers that are free and the budget |
| ParallelAdmission.SubmittedIff | src/autojepa/controller/parallel_engine.py:239-319 | in every reachable state the k-th proposal is submitted iff nothing stops the phase, fewer trials than workers are running, the budget has room, and each proposal up to it meets no stop condition, finds room in the budget, and costs no more than the capacity leaves after the running trials and the proposals before it |
| ParallelAdmission.FirstRequestIff | src/autojepa/controller/parallel_engine.py:239-263 | from the start of any campaign, the first proposal is submitted iff nothing stops it, fewer than max_concurrency trials are running, fewer than the budget are committed, waiting or running, and every amount is at most the capacity less what the running trials reserve |
| ParallelAdmission.TurnEndsIff | src/autojepa/controller/parallel_engine.py:232-347 | a turn leaves at once iff something stops the loop and nothing runs or waits; it commits iff the next trial waits already or is running with its future done; it leaves after the drain iff nothing runs or waits |
| ParallelTheorems.NoSubmissionWhileStopped | src/autojepa/controller/parallel_engine.py:247-258 | every trial submitted in a turn was submitted while no stop condition held, at the start of the phase and at its own proposal |
| ParallelStops.StoppedForGood | src/autojepa/controller/parallel_engine.py:206-213 | from any state, once the budget is committed, or as long as the shutdown flag or the clock stop the submit phase, nothing is submitted any more |
| ParallelStops.NeverLifted | src/autojepa/controller/parallel_engine.py:214-219 | if the guards are up and committing the trials already submitted does not bring them down, or the budget is submitted, nothing is ever submitted again, whatever happens |
| ParallelStops.MaySubmitAgainIff | src/autojepa/controller/parallel_engine.py:206-263 | from the start of any campaign, with the guards up: some uninterrupted continuation with proposals that fit the pool submits a later trial iff budget is left and committing some of the trials already submitted brings the guards down |
| ParallelStops.StreakStopIff | src/autojepa/controller/parallel_engine.py:214-215 | for the streak guard alone: iff budget is left, the limit is positive and a trial already submitted improves on the best score it will find |
| ParallelStops.FailureStopIff | src/autojepa/controller/parallel_engine.py:216-219 | for the failure guard alone: iff budget is left and the window of statuses that ends with some trial already submitted has a share of failures below the limit |
| ParallelStops.StopIsLifted | src/autojepa/controller/parallel_engine.py:206-220 | three turns from a fresh start: the streak guard is up after the first, the second commits an improving trial, the third submits again |
| ParallelTheorems.TurnMakesProgress | src/autojepa/controller/parallel_engine.py:339-347 | the sum of trials to commit and trials to complete never grows in a turn that does not leave, and decreases unless the turn is an idle poll, which sleeps with no future done |
| ParallelTheorems.LoopTerminates | src/autojepa/controller/parallel_engine.py:232-263 | so the loop has left after more than twice the remaining budget of turns that are not idle polls, with any number of idle polls between them, also when a cost can never fit |
| DiffExecutor.AlwaysGood | src/autojepa/controller/diff_executor.py:235-280 | an inductive invariant over every interleaving of steps, errors, signals and kills: the marker is absent or holds the source, and where in the protocol the file may be patched |
| DiffExecutor.CrashSafe | src/autojepa/controller/diff_executor.py:236-306 | a kill or signal at any point, then recovery, gives the source from before the trial and no marker, if the marker was written and no signal was handled and returned before the patched write |
| DiffExecutor.SafeThroughoutIff | src/autojepa/controller/diff_executor.py:247-280 | a trial that changes the file is recoverable at every moment iff the patched file is not written after the marker was lost |
| DiffExecutor.HoleExists | src/autojepa/controller/diff_executor.py:253-273 | a signal sequence after which recovery leaves the patched file in place, whatever the other signal's displaced handler does |
| DiffExecutor.FinishedIsClean | src/autojepa/controller/diff_executor.py:370-385 | a trial that runs to its end leaves the source and no marker, whatever signals arrived |
| DiffExecutor.FinishedResult | src/autojepa/controller/diff_executor.py:372-385 | a trial that runs to its end counts as failed iff the target raised, or a signal threw, while it was being run; otherwise it was trained, and evaluated iff the training ended with "ok" |
| DiffExecutor.TargetRanPatchIff | src/autojepa/controller/diff_executor.py:370-385 | the training was started on the patched file iff no signal was handled and returned between the patched write and that start, and the evaluation iff none was up to its own start; otherwise on the old source |
| DiffExecutor.EvaluatesOldSource | src/autojepa/controller/diff_executor.py:253-266 | a returning SIGTERM during the training lets the trial go on, trained on the patched file and evaluated on the old source |
| DiffExecutor.UninterruptedTrial | src/autojepa/controller/diff_executor.py:370-385 | without interruption the protocol patches, trains and evaluates on the patched file, restores and clears the marker |
| Campaign.Executor.RecoverRestoreMarker | src/autojepa/controller/diff_executor.py:283-304 | the file is restored from a leftover marker, which is removed; without one nothing changes |
| Campaign.Executor.Execute | src/autojepa/controller/diff_executor.py:323-393 | the patched source is run iff the diff is accepted, its recounted form applies and the required calls are kept; else nothing is run and the outcome is "rejected"; the outcome is the evaluation's, or the training's if that did not end with "ok", or "failed" if the target raised; the file is as it was in every case |
| Campaign.Executor.PersistDiff | src/autojepa/controller/diff_executor.py:169-182 | the file becomes what `patch` makes of it and the recounted diff, or is untouched if that does not apply |
| Campaign.TrialLeavesFile | src/autojepa/controller/continuous.py:230-234 | after a trial, or after a restart that recovers from one, the file is what it was before the trial |
| Campaign.FileIsKeptDiffs | src/autojepa/controller/continuous.py:154-167 | through any campaign with restarts, between trials the file is the initial source with exactly the kept diffs applied in order, each successfully, and recovery never undoes a keep |
| Campaign.KeptAreAdmitted | src/autojepa/controller/diff_executor.py:323-350 | through any campaign with restarts, the kept diffs lead from the initial source to the present one, and each of them was accepted, applied in its recounted form to the source before it, and kept the required calls |
| Campaign.TrialIsRecorded | src/autojepa/controller/diff_executor.py:372-393 | a diff that is not admitted is recorded as failed without metrics and leaves the disk untouched; otherwise the entry holds the outcome of the evaluation if there was one, that of the training if not, and none if the target raised; the diff is persisted iff the entry is a keep |
| Campaign.KeptIsWhatRan | src/autojepa/controller/engine.py:560-562 | what a keep persists is the source that the target was trained on and, if it was, evaluated on, iff no signal was handled and returned between the patched write and the last of these starts, or the patch changes nothing |
| Campaign.KeepsUnmeasuredDiff | src/autojepa/controller/diff_executor.py:372-376 | a campaign in which a returning SIGTERM during the training makes the engine keep and persist a diff whose deciding evaluation measured the old source |
| UnifiedDiff.SplitThenJoin | src/autojepa/controller/diff_executor.py:60-111 | splitting a text into lines and joining them gives the text back |
| UnifiedDiff.SplitMeans | src/autojepa/controller/diff_executor.py:60-61 | no line has a break before its end except a carriage return before a final newline, every line but the last ends in one of the ten breaks, and no line starts with the newline of a carriage return before it: the one way of splitting |
| UnifiedDiff.PrintThenParse | src/autojepa/controller/diff_executor.py:72-73 | printing a number in decimal and reading it back gives the number |
| UnifiedDiff.PlaceValue | src/autojepa/controller/diff_executor.py:72-73 | a number is read in base ten, leading zeros included |
| UnifiedDiff.PrintThenParseHeader | src/autojepa/controller/diff_executor.py:40 | a printed hunk header is recognised with its positions, counts and tail |
| UnifiedDiff.WrittenIsRead | src/autojepa/controller/diff_executor.py:40 | every text of the form of a header is recognised, with or without counts and whatever its digits |
| UnifiedDiff.ReadIsWritten | src/autojepa/controller/diff_executor.py:40 | and whatever is recognised has that form |
| HunkRecount.FindBodyEnd | src/autojepa/controller/diff_executor.py:76-88 | the scan stops at the first line that ends a hunk, or at the end of the text |
| HunkRecount.EndsHunkIff | src/autojepa/controller/diff_executor.py:78-87 | stripped or not, a line ends a hunk iff it starts with "@@", "--- ", "+++ " or "diff --git" |
| HunkRecount.CountBody | src/autojepa/controller/diff_executor.py:90-104 | the loop counts, as the sizes of sets of positions, the lines that start neither with "+" nor a backslash, and those that start neither with "-" nor a backslash, quite empty lines on both sides |
| HunkRecount.RecountHunks | src/autojepa/controller/diff_executor.py:43-111 | the scanner that skips from hunk to hunk equals the line-by-line specification, whose headers `HunkRecount.HeadersAreTrue` describes |
| HunkRecount.HeadersAreTrue | src/autojepa/controller/diff_executor.py:76-111 | in the result every header has its old positions and tail, and as counts the numbers of old-side and new-side lines in the body that the scanner delimits for it; bodies are where they were, and all other lines are copied |
| HunkBodies.BodyFoundIff | src/autojepa/controller/diff_executor.py:76-88 | for a body followed by nothing or by a line that ends a hunk, the scanner delimits exactly that body iff none of its lines ends a hunk |
| HunkBodies.CountsMatchIff | src/autojepa/controller/diff_executor.py:44-53 | for the lines of a diff of any number of files: whatever counts its headers claim, recounting gives the lines with the numbers of old-side and new-side lines of each hunk iff no hunk has a removed line whose content starts with "-- " or an added one that starts with "++ " |
| HunkTexts.TextMatchesIff | src/autojepa/controller/diff_executor.py:43-111 | the same for texts, whose lines end with newlines: the recounted text is the text with the true counts iff there is no such line |
| HunkBodies.CountsCutShort | src/autojepa/controller/diff_executor.py:81-87 | a hunk of three old and two new lines that is given a header with one line on each side |
| HunkRecount.RecountTwice | src/autojepa/controller/diff_executor.py:43-111 | on lists of lines recounting twice is recounting once |
| RecountText.LineCount | src/autojepa/controller/diff_executor.py:106-107 | the result has one line more for each header that ends in an exotic line break, and as many such headers as before |
| RecountText.ResultLines | src/autojepa/controller/diff_executor.py:60-111 | without such headers the lines of the result are exactly the recounted lines, as many and in the same order |
| RecountText.IdempotentIff | src/autojepa/controller/diff_executor.py:43-111 | on texts, recounting is idempotent iff there is no such header |
| RecountText.IdempotentOnOrdinaryText | src/autojepa/controller/diff_executor.py:43-111 | in particular on every text whose line breaks are newlines and carriage returns, terminated or not |
| Guard.IntraIterationGuard.Drain | src/autojepa/controller/intra_iteration.py:186-191 | the values are buffered in order and the highest step is remembered |
| Guard.IntraIterationGuard.Loop | src/autojepa/controller/intra_iteration.py:173-203 | the watcher's loop sets the cancelled flag iff the specification's watch cancels, with the same reason |
| Guard.CancelMeansAllWorse | src/autojepa/controller/intra_iteration.py:145-171 | a cancel verdict needs a known best, at least min_reports and at least five values, every one strictly below the best when maximising and strictly above it when minimising, and the forecaster |
| Guard.BuffersEverything | src/autojepa/controller/intra_iteration.py:174-191 | while the watch goes on it has buffered exactly what was reported, and its latest step was really reached |
| Guard.CancelledIff | src/autojepa/controller/intra_iteration.py:173-203 | over a whole watch, and so over each of its beginnings: the trial is cancelled iff at some tick, with nobody having stopped the watch, some report has reached min_steps and everything reported until then, by number, by comparison with the best and by forecast, justifies it; and with the reason of its direction |
| Guard.ValuesConcat | src/autojepa/controller/intra_iteration.py:186-189 | what is drained from reports is the watched metric of each that has it, in order |
| Guard.WinIsLockedIn | src/autojepa/controller/intra_iteration.py:131-171 | once a value is reported, no later tick cancels as long as it ties or beats the best read then |
| Guard.MirrorWatch | src/autojepa/controller/intra_iteration.py:151-171 | for any forecaster, a maximising watch and the minimising watch of the negated values and bests cancel at the same tick |
| Hybrid.HybridPolicy.constructor | src/autojepa/policy/hybrid.py:24-42 | a new policy is in parameter mode without failures |
| Hybrid.HybridPolicy.SelectMode | src/autojepa/policy/hybrid.py:61-75 | the backward scan computes the specification's mode |
| Hybrid.HybridPolicy.Propose | src/autojepa/policy/hybrid.py:44-52 | the selected mode is remembered and used |
| Hybrid.HybridPolicy.RecordReward | src/autojepa/policy/hybrid.py:54-59 | in diff mode a reward of at most -0.1 adds one failure and any other clears them; in parameter mode nothing changes |
| Hybrid.SinceKeepMeans | src/autojepa/policy/hybrid.py:65-69 | the scan finds n iterations without a keep iff there are n entries and none of the last n was kept |
| Hybrid.DiffIffEarned | src/autojepa/policy/hybrid.py:61-75 | over a campaign, trial i is a diff iff the history has the exploration length, none of the last stall_threshold entries was kept, and fewer than failure_limit diffs failed in a row |
| Hybrid.CounterIsFailingRun | src/autojepa/policy/hybrid.py:54-59 | the counter is always the number of punished diff trials since the last unpunished one, and never exceeds its limit |
| Hybrid.GivesUpForGood | src/autojepa/policy/hybrid.py:71-75 | once the limit is reached the counter never changes and every later proposal is a parameter proposal |
| Hybrid.PunishedIff | src/autojepa/controller/engine.py:463-473 | a trial is punished iff it ends as failed and is not kept: rejected and crashed diffs always, cancelled ones never |
| Hybrid.UnluckyDiffsAreFew | src/autojepa/policy/hybrid.py:54-75 | if no diff trial of a campaign goes unpunished there are at most failure_limit of them |
| Hybrid.RestartedAlikeIff | src/autojepa/policy/hybrid.py:41-75 | a resumed campaign, whose policy starts again without failures, proposes in the same modes as the uninterrupted one iff at no round due a diff, with all diffs since the restart punished, the forgotten failures make the difference between being below the limit and having reached it |
| Hybrid.StreakIsSinceKeep | src/autojepa/controller/engine.py:437-456 | the engine's streak and the policy's count of iterations since the last keep are always the same number |
| Conversation.LLMDiffPolicy.constructor | src/autojepa/policy/llm_diff.py:262-283 | a new policy remembers nothing |
| Conversation.LLMDiffPolicy.FindLastKept | src/autojepa/policy/llm_diff.py:93-103 | the backward scan finds the most recent kept entry with the diff tag |
| Conversation.LLMDiffPolicy.ResetOnKeep | src/autojepa/policy/llm_diff.py:308-315 | the conversation is cleared exactly for a kept diff not seen before |
| Conversation.LLMDiffPolicy.RetryLoop | src/autojepa/policy/llm_diff.py:331-380 | the attempts send the specification's lists; only a success is stored, as prompt and reply |
| Conversation.LLMDiffPolicy.Propose | src/autojepa/policy/llm_diff.py:285-380 | a whole call: early fallbacks leave the memory alone; lists sent, result and new memory |
| Conversation.AttemptShape | src/autojepa/policy/llm_diff.py:331-374 | every list of a call starts with the system prompt and the same messages, alternates roles, ends with the user, and has two messages more per failed attempt |
| Conversation.AttemptMeans | src/autojepa/policy/llm_diff.py:331-380 | the attempts go on up to the first answer that gives a diff, which is the result; attempt a sends the common messages and, for each attempt before it, the last reply seen and a request to correct exactly that attempt's error; without such an answer all are made and there is no result |
| Conversation.CallMeans | src/autojepa/policy/llm_diff.py:285-393 | a whole call on its inputs: without key or source nothing is sent or forgotten; otherwise at most three lists behind the last twenty messages, none if a kept diff is new, and the memory afterwards is that with the prompt and the first good reply appended and trimmed to twenty, or unchanged if no reply was good |
| Conversation.LastKeptGrows | src/autojepa/policy/llm_diff.py:93-103 | over append-only histories the last kept diff never goes back in time |
| Conversation.AlwaysRemembers | src/autojepa/policy/llm_diff.py:308-350 | after any calls the stored conversation is the last ten exchanges that succeeded under the last kept diff seen |
| Conversation.SentIsCurrent | src/autojepa/policy/llm_diff.py:331-393 | over any append-only campaign a call sends at most three lists, and the earlier exchanges in each are exactly the last ten that succeeded while the last kept diff was the one of today: nothing older, and no failed attempt |
| Conversation.HybridFindsLastKept | src/autojepa/controller/continuous.py:131-139 | with the tag of the hybrid mode the scan finds the last trial that was a diff and was kept |
| Conversation.DiffModeFindsNothing | src/autojepa/controller/continuous.py:121-128 | without the tag it never finds one |
| Conversation.DiffModeKeepsStaleExchanges | src/autojepa/controller/continuous.py:121-128 | two calls for which a prompt in pure diff mode follows the exchange about the replaced source, and in hybrid mode does not |
| Conversation.HybridShowsCurrent | src/autojepa/controller/continuous.py:131-139 | over any hybrid campaign the exchanges a call shows are exactly the last ten that succeeded since the last trial that was a diff and was kept |
| Conversation.DiffModeShowsAll | src/autojepa/controller/continuous.py:121-128 | over any pure diff campaign a call shows the last ten successes of all, and among them stale ones, from before the last kept diff, iff there are any and fewer than ten succeeded since |
| Conversation.ExtractPriorDiffs | src/autojepa/policy/llm_diff.py:61-90 | the scan with its set of seen gists lists the first eight of the entries that are the newest with their gist |
| Conversation.NewestIsComplete | src/autojepa/policy/llm_diff.py:61-90 | that list goes back in time, repeats no gist and leaves none out |
| Rotation.LogFiles.RotateIfNeeded | src/autojepa/telemetry/rotation.py:6-34 | the descending loop of renames computes the specification's files, also with no or one rotated file |
| Rotation.LogFiles.Emit | src/autojepa/telemetry/events.py:9-33 | rotate if limited, then append |
| Rotation.LogFiles.AppendResultRow | src/autojepa/telemetry/ledger.py:56-82 | header, rotation, header, row |
| Rotation.RotateDropsOldest | src/autojepa/telemetry/rotation.py:21-34 | what could be read before a rotation is the oldest file followed by what can be read after it |
| Rotation.EmitRotatesIff | src/autojepa/telemetry/rotation.py:16-34 | an event goes behind a live file within the limit and leaves the numbered files alone; above the limit, and only then, the live file becomes number one, each other moves up by one, the last is dropped and the event starts a new file |
| Rotation.SizeConcat | src/autojepa/telemetry/rotation.py:18-19 | the size of a file is that of its records together |
| Rotation.FilesHoldSuffix | src/autojepa/telemetry/events.py:21-33 | after any events the files, read oldest first, hold a contiguous suffix of everything emitted |
| Rotation.EmitAppends | src/autojepa/telemetry/events.py:21-33 | an event loses nothing but the oldest file, and only when it rotates |
| Rotation.AtMostSlots | src/autojepa/telemetry/rotation.py:13 | there are never more numbered files than allowed |
| Rotation.LiveStaysSmall | src/autojepa/telemetry/rotation.py:18-19 | the live file ends with the last event and exceeds the limit by at most that event |
| Rotation.RowAppends | src/autojepa/telemetry/ledger.py:56-63 | a row loses no row but those of the oldest file, and only when it rotates |
| Rotation.RowRotatesIff | src/autojepa/telemetry/ledger.py:56-82 | a row goes behind a ledger file within the limit, header included; above the limit, and only then, it starts a new file behind a new header, and the others move up |
| Rotation.LedgerHoldsSuffix | src/autojepa/telemetry/ledger.py:26-82 | every ledger file starts with its one header, and the rows in the files are a contiguous suffix of the rows appended |
| Masks.SampleBlock | src/autojepa/masking/primitives.py:92-114 | the mask of a drawn block |
| Masks.BlockFits | src/autojepa/masking/primitives.py:106-111 | for every draw the block has at least one cell and lies in the grid |
| Masks.BlockReaches | src/autojepa/masking/primitives.py:104-114 | the blocks that a drawn size can give are exactly the rectangles of that size, clamped between one and the grid, at every place inside the grid |
| Masks.Union | src/autojepa/masking/primitives.py:151-155 | the mask accumulated in place marks the cells of some target |
| Masks.SampleContext | src/autojepa/masking/primitives.py:116-136 | the context is the first drawn block that sticks out of the targets, less the targets, or all free cells; it fails iff there are none |
| Masks.ContextIsFirst | src/autojepa/masking/primitives.py:116-136 | a cell is in the context iff it is free and in the first attempted block that is not within the targets; iff it is free when all of them are |
| Masks.SampleInfill | src/autojepa/masking/primitives.py:70-90 | the sampler raises exactly for a grid without cells and for targets that cover the grid, whatever the retries draw |
| Masks.InfillGeometry | src/autojepa/masking/primitives.py:70-136 | for every draw, targets are non-empty rectangles in the grid, and the context is non-empty and disjoint from all of them |
| Masks.TinyGridIsCovered | src/autojepa/masking/primitives.py:132-136 | on a grid of one cell any target covers it |
| Masks.FutureBlockFits | src/autojepa/masking/primitives.py:295-305 | for every draw the future block is non-empty, in the grid, and not before the future starts |
| Masks.FutureBlockReaches | src/autojepa/masking/primitives.py:295-305 | the blocks that a drawn size can give are exactly the rectangles of that size, clamped between one and the future, at every place in it |
| Masks.ContextEndIs | src/autojepa/masking/primitives.py:253-260 | the drawn context length is used if it is at least one and leaves the gap and one future row, else the nearer of these bounds |
| Masks.SampleFuture | src/autojepa/masking/primitives.py:236-279 | it succeeds iff the grid has cells and grid_h >= max(2, gap + 2), each failure exactly in its own case, and the second RuntimeError never |
| Masks.FutureGeometry | src/autojepa/masking/primitives.py:197-203 | for every draw, whatever is in the context lies more than the gap before whatever is in a target and has a smaller flat index, and no mask is empty |
| Gae.ComputeGae | src/autojepa/policy/gae.py:30-43 | the backward pass with one running value fills the array with the sums of the definition |
| Gae.TakeFirst | src/autojepa/policy/gae.py:5-6 | the sum of the definition satisfies the recurrence |
| Gae.Telescopes | src/autojepa/policy/gae.py:46-50 | with lambda = 1 the value estimates cancel |
| Gae.EndsOfLambda | src/autojepa/policy/gae.py:37-50 | with lambda = 1 the returns are the discounted rewards plus the discounted final value; with lambda = 0 an advantage is its own step's error |
| Trend.ComputeTrendSlope | src/autojepa/telemetry/aggregation.py:18-43 | the result solves the equation of the slope; the branch for a zero denominator is dead |
| Trend.Denominator | src/autojepa/telemetry/aggregation.py:39 | the denominator is n^2 (n^2 - 1) / 12 |
| Trend.DenominatorNotZero | src/autojepa/telemetry/aggregation.py:39-41 | it is positive for at least two points |
| Trend.LeastSquares | src/autojepa/telemetry/aggregation.py:19-23 | no line has a smaller sum of squared residuals than the fitted one, and no other line the same |
| Trend.SlopeIsLeastSquares | src/autojepa/telemetry/aggregation.py:18-43 | the method's result is determined, and is the slope of the least-squares line |
| Trend.ExactOnLines | src/autojepa/telemetry/aggregation.py:19-23 | the fit is exact on affine data |
| Trend.ReversalNegates | src/autojepa/telemetry/aggregation.py:18-43 | reading the series backwards negates the slope |

## Left out

- Engine telemetry: events, manifests, versions, tracker, timeline, promotion and comparability do not feed back into the loop.
- History entries carry iter, status, decision, metrics and params; output tails and the downsampled progress series are not modelled.
- Forecasting, diff validation, the contract check, required calls, the `patch` program, prompts, reply parsing and gists are arbitrary functions.
- Exceptions inside a turn of an engine: claims about leaving are about the normal way out of the loop.
- ParallelCorrectness.RunInv: costs of proposals are assumed to be non-negative and to name a resource once; the pool raises on a negative cost (Resources.AcquireConserves covers that), and in the engine that exception would end the loop.
- ParallelGuarded.OneAtATimeIsSerial: without a limit on wall time, which the two engines read at different moments.
- ParallelTheorems.LoopTerminates: needs an iteration budget, and that not all further polls are idle; without them the loop may run for ever.
- SerialEngine.GoesOnIff: is about a fresh campaign; for a resumed one SerialEngine.HaltedIff and SerialEngine.StopsBeforeTurn say when it stops.
- HunkTexts.TextMatchesIff: every line ends with a newline and no header has a line break in its tail; RecountText.LineCount covers the others.
- SerialEngine.ResumeContinues: needs at least one iteration before the stop, since otherwise nothing is saved, and the forecaster off or without scores; SerialEngine.ResumeAgreesThroughoutIff has the exact condition for a forecaster.
- `reset_conversation` of the diff policy, which nothing calls.
- The state of a policy is not checkpointed; Hybrid.DiffIffEarned therefore starts from any control state with a fresh policy, and Hybrid.RestartedAlikeIff says what that changes.
- The checkpoint file is a value: JSON text, and the atomic replace that writes it, are not modelled, nor is a file that does not parse.
- The wall clock is the elapsed time each turn is given.
- DiffExecutor.CrashSafe: writes, unlinks and the installation of a handler together with remembering the displaced one are atomic, only the first write of the marker can fail, and signals are delivered to the main thread between steps.
- Campaign.KeptIsWhatRan: the target reads the file when it is started; a target that is handed the patched source in its parameters is not affected by signals.
- Campaign.FileIsKeptDiffs: campaigns in which a trial that ends in a restart was caught in the hole are excluded, and so are kills during the persisting write, which is atomic.
- UnifiedDiff.PrintThenParseHeader: digits are the ASCII ones; the pattern of the program also accepts other decimal digits, and conversion to int refuses numbers of thousands of digits.
- Guard.IntraIterationGuard.Loop: the control file is assumed writable; the program sets the flag also if writing fails. Threads and the lock are not modelled: a tick is atomic.
- The search for the most recent errors and logs, and the formatting of prompts and summaries, are text only.
- The parameter policy, the fallback policy and the routing of proposals to executors are not modelled beyond their kind.
- Rotation.FilesHoldSuffix: limits are the same for all limited events, and sizes of records are given numbers of bytes.
- Masks: square root, rounding and the generator are arbitrary draws within what the code then clamps; validation of the hyperparameters is not modelled.
- Gae, Trend: reals instead of floats, so rounding is not modelled; other episode statistics are library calls.
- Targets, deployment, the HTTP client with its retries, training code, losses, probes and the neural policies are not part of this model.
