# Verified model of the container process supervisor

A Dafny model, with proofs, of the part of the repository that supervises a child process in a
container: the hand-off of its log file to concurrent readers, its restarts, the path of its
output, the detection and storage of its errors, and its log store. Two transactions from
elsewhere in the repository are modelled too: the conversation clean-up of
`debug-tools/migration_tester.py` and the var/secret exchange of `scripts/deploy.ts`.

| module | what it models |
|---|---|
| `LogHandoff` | `logs get` processes and one appender over a shared directory: lock file, rename, re-create, read, unlink, in any interleaving |
| `ProcessSupervisor` | `ProcessMonitor` start, stop, restart, exit handler and restart timer, as `ProcessRunner` drives them |
| `StreamPipeline`, `LogBuffers` | the bounded chunk queue, the drain, stderr reassembly with its flush timer, the circular buffer |
| `KeywordIndex` | the inverted keyword index of `ErrorDetector` and the choice it makes |
| `ErrorSuppression`, `Truncation` | duplicate detection in front of the error table, truncation of detected errors |
| `ErrorTable` | the upsert table of errors, clearing, clean-up, summary |
| `LogStore` | the sequence counter, transactional batches, pagination, grouped statistics |
| `LogFile`, `LogEntries`, `OverlappingTrims` | `SimpleLogManager`: append, trim, reset, and what happens when they overlap |
| `Migration`, `DeployVars` | the two transactions |
| `Options`, `Sequences`, `StableSorting`, `Tallies`, `Text` | shared vocabulary |

`dafny verify dfyconfig.toml` checks the whole project.

## How the source's form is kept

Objects that update their fields are classes (`ProcessMonitor`, `LogBuffer`, `StreamMonitor`,
`ErrorDetector`, `ErrorHandler`, `ErrorStorage`, `StorageManager`, `LogStorage`,
`SimpleLogManager`, `DeploymentManager`). Each method is proved equal to a specification function on values, and the
theorems over whole runs are about those functions. A run is any finite sequence of events; an
event that is not enabled changes nothing, so the order of events is unrestricted. Every
outcome that the environment decides - a failing statement or file operation, a spawn, an exit
code, a timer firing - is a parameter of the event. The log hand-off is a state machine over a value and not a class,
because its actors are separate operating-system processes and every file operation is one step.

## Where a promised property fails

The code is modelled as it is. These are the places where a promise holds only under a condition;
each has a proof of the exact condition.

- No log line is lost in a reset: false when an append falls between the rename and the
  re-create, because the re-create overwrites the new file (`AppendInWindowIsLost`). Delivery is complete exactly
  when no event trims lines away, fails to read a temp file that has lines, or re-creates the file after an append in
  its window (`ExactlyOnce`).
- `maxRestarts` bounds restarts: false as soon as fatal-severity detections occur and any restart is
  allowed, since `handleFatalError` overwrites `restartTimer` without clearing it (`FatalTwice`, `BudgetOverAllRunsIff`).
- `ProcessRunner.stop` is final: false when a `restart()` call is between its own stop and its
  start, or a child is running with budget left (`StopIsFinalIff`, `StopMayNotBeFinal`).
- A multi-line error is reassembled whole: exactly when no arrival cut the buffer (`ReassembledIffNeverCut`; a cut one is in `LongErrorIsCut`).
- The keyword index agrees with trying every pattern: exactly when nothing matches or some best match is proposed
  (`FastChoiceIff`; a miss is in `IndexCanMiss`). The fallback pattern for stderr has no keyword and priority 30, so it can
  never be chosen (`LowFallbackIsDead`).
- Stored errors are pairwise unrelated: at every moment of a run exactly when no detection with a failed read stores a
  new key that is related to a row of the instance (`SeparationIff`); such runs exist (`FailedReadBreaksSeparation`).
- Repetitions are counted: the duplicate check comes before the upsert that would count them, so a stored key is counted
  exactly when its detection is accepted (`RepeatIsCountedIff`), and all counts stay 1 exactly when no event stores a
  stored key (`CountsStayOneIff`), in every environment and for every file name. For the declared row type, one monitor and
  errors of which no two different ones share a key, this means a repetition is counted exactly when it is stored
  and its read fails (`OwnCountsStayOneIff`, `RepeatsAreNeverCounted`). Errors can share a key only through a `|` in a file
  name (`BarFreeSharesNoKey`); then two different errors are counted as one (`SharedKeyIsCounted`). An error that another
  instance stored first, and that matches no row of this one, is announced at every repetition and never gets a row of its
  own (`ForeignErrorIsAlwaysNew`).
- A check of the log file bounds it: exactly when `maxLines` is at least 2 (`CheckBoundsIff`);
  `slice(-0)` keeps every line.
- The log file is an unbroken end of what was appended: exactly when no trim writes back after an append that came in since
  it read the file, which happens because appends are not awaited (`GaplessIffNeverLate`; a lost line is in `AppendDuringTrimIsLost`).
- A deployment restores the vars: exactly unless the parallel set-up fails after a clash was
  removed, which exits without restoring (`VarsRoundTripIff`, `FailedSetupLosesVars`).
- Truncation limits are exceeded by the marker text: 2,014 and 10,014 characters, not the nominal 2,000 and 10,000.

## Assumptions

- SHA-256 is injective, so `error_hash` is its input. It is unique over the whole table and not per instance.
- `getErrors` and `getErrorSummary` are modelled by their declared row type `StoredError`; the statement is
  `SELECT *` over snake_case columns, so at run time fields such as `occurrenceCount`, `lastOccurrence` and
  `sourceFile` would be undefined. In `ErrorSuppression` what comes back for a row is therefore a given function.
  `SeparationIff`, `RowsStaySeparated` and `AcceptedOnce` need only that it keeps `category`, `severity` and
  `message`, which have the same name in both forms, and `RepeatIsCountedIff` and `CountsStayOneIff` need nothing;
  `SameErrorIsCountedIff`, `OwnCountsStayOneIff` and `RepeatsAreNeverCounted` are about the declared type, and `SecondCategoryIsCounted` shows what differs without it. The summary is about the declared type.
- Lower-casing, the word split, signature extraction, regular-expression matching, keyword extraction and
  the integer reader of the migration are arbitrary functions.
- Rows that tie in an `ORDER BY` come in insertion order. A missing line number never equals
  another (`null` against `undefined`). A limit of 0 means 100, a negative `LIMIT` or `OFFSET` is read as SQLite does.
- Lengths count characters as Unicode code points; the source counts UTF-16 code units.
- `SimpleLogManager` is modelled with each append and trim as one step; what overlapping ones do is in `OverlappingTrims`.
- Jaccard similarity is compared exactly, as a ratio of two counts, where the source compares floating-point quotients.
- `restart()` is called by the restart timer only. The child is the environment: it may exit at any time, and a kill() of a
  child that has not exited may or may not work; `killed` is set when it works. The wait in `stop()` can end at any time.
- Chunks arrive as decoded text. A circular buffer of capacity 0 keeps nothing (in the source its
  size stays 0, so nothing is ever read back).
- In `DeployVars` the vars parsed at construction are those in the file when conflicts are resolved.
- `Math.floor(maxLines * 0.7)` may come out one too low for multiples of ten; both values are allowed.
- In the hand-off one append is one line, a trim is one step, and a killed process is one that takes no further event.

## Model

| member | source | states |
|---|---|---|
| LogHandoff.MutualExclusion | container/cli-tools.ts:785-814 | in every interleaving of any number of `logs get` processes at most one is between lock acquire and release, and the lock file names it |
| LogHandoff.InOrderDelivery | container/cli-tools.ts:817-841 | in every run the batches in lock order followed by the file are an in-order selection of the appended lines, and miss exactly the lines counted as lost |
| LogHandoff.CompleteIffNothingLost | container/cli-tools.ts:817-841 | they are all appended lines exactly when nothing was lost |
| LogHandoff.AtMostOnce | container/cli-tools.ts:817-841 | whatever an earlier reset got was appended before whatever a later reset gets or the file still holds, so no line is handed out twice |
| LogHandoff.ExactlyOnce | container/cli-tools.ts:816-857 | batches and file are exactly all appended lines in order if and only if every event was harmless: no trim of lines, no failed read of a temp file with lines, no successful re-create after an append in its window |
| LogHandoff.AppendInWindowIsLost | container/cli-tools.ts:820-823 | there is a run in which no operation fails and a line appended between rename and re-create is lost |
| LogHandoff.ReturnsASnapshot | container/cli-tools.ts:816-857 | whatever a `logs get` returns, reset or read-only, is exactly what the file held at one moment while that process had the lock; the one exception is a failed read of the temp file |
| LogHandoff.OutcomeIff | container/cli-tools.ts:785-857 | in every interleaving the outcome follows from the process's own operations, in both modes: refused exactly after five refused attempts, failed exactly when its rename or read of an existing file failed, otherwise it has exactly what the file held then, or nothing after a failed read of its temp file |
| LogHandoff.WorkingGetSucceeds | container/cli-tools.ts:785-857 | when its own operations work and the lock was free within five attempts, a process that is over has returned what the file held when it took it |
| LogHandoff.ModeIsKept | container/cli-tools.ts:769-773 | a process exists exactly if it was started, and keeps the mode it was started with |
| LogHandoff.LockFileIffInside | container/cli-tools.ts:785-800 | while no unlink of the lock fails, there is a lock file exactly when some process is inside |
| LogHandoff.NoTempStaysBehind | container/cli-tools.ts:826-834 | while no unlink of a temp file fails, the only temp files are those of resets still at work |
| LogHandoff.FileIsUnbrokenEnd | container/process-monitor.ts:50-64 | over every run the file is an unbroken end of everything appended |
| LogHandoff.HistoryIsAppends | container/process-monitor.ts:50-64 | the history is what the appends said, in their order |
| LogHandoff.ProcessEnds | container/cli-tools.ts:802-857 | a `logs get` never goes back to an earlier step and makes at most eleven operations; it is over exactly when its rank is 0, and until then its next operation is possible and, whether it works or fails, lowers the rank |
| LogHandoff.ProcessFinishes | container/cli-tools.ts:802-857 | from any state a process comes to its end by its own operations, however each turns out |
| LogHandoff.OrphanedForever | container/cli-tools.ts:785-814 | once a lock file outlives its creator's section, no process ever enters again, in any continuation |
| LogHandoff.FailedReleaseOrphans | container/cli-tools.ts:794-800 | a failed unlink of the lock, which is ignored, leaves such a lock behind |
| LogHandoff.KilledInsideForever | container/cli-tools.ts:785-857 | a process killed inside the section keeps the lock in every continuation, and nobody else enters |
| LogHandoff.LockStep | container/cli-tools.ts:785-814 | one attempt to create the lock keeps the lock discipline and every batch; it enters the section only if there was no lock file, which then names it, and otherwise leaves the lock alone |
| LogHandoff.SectionStep | container/cli-tools.ts:816-857 | every step inside the section is taken by the lock holder and leaves the other batches, the order and the history alone |
| LogHandoff.AccountStep | container/cli-tools.ts:816-857 | every step keeps the selection invariant and balances appended = reachable + lost |
| ProcessSupervisor.RestartBudget | container/process-monitor.ts:1557-1608 | without fatal detections, restarts made, armed and in flight never exceed `maxRestarts`, at most `maxRestarts` + 1 children are spawned, and of living children, armed timers and restarts in flight there is at most one in total |
| ProcessSupervisor.RestartsAnswerCrashes | container/process-monitor.ts:1560-1608 | without fatal detections every restart made, armed or in flight answers an unexpected non-zero exit of its own, so a clean exit or an exit during a stop never leads to one |
| ProcessSupervisor.CrashesEnd | container/process-monitor.ts:1123-1149 | every such run comes to rest: at most 8 actions per allowed restart and two more |
| ProcessSupervisor.ExitLeaves | container/process-monitor.ts:1560-1608 | an exit with a code other than 0 of a running child leaves `crashed` and, within the budget, one more timer; any other exit leaves `stopped`; no exit changes the counts, the restarts or the handle |
| ProcessSupervisor.StateAfter | container/process-monitor.ts:998-1149 | the reported state after every other event |
| ProcessSupervisor.CleanExitIsFinal | container/process-monitor.ts:1560-1608 | after a clean exit of the running child nothing is ever spawned or reported as running again |
| ProcessSupervisor.RunningHasOneChild | container/process-monitor.ts:998-1056 | without fatal detections, exactly one child is alive while the state is `running` |
| ProcessSupervisor.HandleIsNewest | container/process-monitor.ts:1005-1018 | the handle names the newest child or a spawn that failed, and is marked killed only after a kill that worked |
| ProcessSupervisor.TimerFires | container/process-monitor.ts:1598-1604 | a timer that fires is spent and starts one restart call |
| ProcessSupervisor.StopStretch | container/process-monitor.ts:1061-1090 | stop() disarms the timer of the field, signals a child that was not signalled and waits exactly for that |
| ProcessSupervisor.LaterSignals | container/process-monitor.ts:1088-1110 | the kill timeout and the stop of the runner signal a child that was not signalled yet |
| ProcessSupervisor.RestartStretches | container/process-monitor.ts:1123-1149 | the rest of a restart in its order: stopped, counted once, delayed exactly if there is a delay, started |
| ProcessSupervisor.StartLeaves | container/process-monitor.ts:998-1056 | a start leaves a new unsignalled living child, or the handle of a failed spawn |
| ProcessSupervisor.RunnerBegins | container/cli-tools.ts:411-444 | the runner starts once, is active after start() returned and gives up after a failed spawn |
| ProcessSupervisor.RunnerStops | container/cli-tools.ts:446-466 | the runner stops at once when the state is `stopped`, otherwise through stop() and its wait, and cleans up last |
| ProcessSupervisor.TokenStep | container/process-monitor.ts:998-1149 | one step moves the single right to have a child between a child, a timer and a restart call, and never duplicates it |
| ProcessSupervisor.StopIsFinalIff | container/process-monitor.ts:1061-1149 | after the clean-up of `ProcessRunner.stop` a further child can be spawned exactly when a restart call was in flight or a child was running with budget left |
| ProcessSupervisor.StopMayNotBeFinal | container/process-monitor.ts:1061-1149 | for every setting that allows a restart there is a run in which `ProcessRunner.stop` returns while a restart is between its own stop and its start |
| ProcessSupervisor.RestartSpawns | container/process-monitor.ts:1123-1149 | from any of its waiting points a restart call can run to its end, waiting for the child exactly when the source does, counting once and spawning one child |
| ProcessSupervisor.CrashSpawns | container/process-monitor.ts:1560-1608 | a crash with budget left leads, through its timer and the wait for the child that is gone, to exactly one counted restart and one new child |
| ProcessSupervisor.FatalTwice | container/process-monitor.ts:1537-1552 | two fatal detections on one child end above the budget with two children alive, for every setting that allows a restart |
| ProcessSupervisor.BudgetOverAllRunsIff | container/process-monitor.ts:1537-1552 | over all runs, fatal detections included, the restart limit holds exactly for the settings that allow no restart |
| ProcessSupervisor.ProcessMonitor.Start | container/process-monitor.ts:998-1056 | refuses when running, otherwise has one more child or, if the spawn fails, is stopped |
| ProcessSupervisor.ProcessMonitor.OnExit | container/process-monitor.ts:1560-1608 | an unexpected non-zero exit is a crash and arms the timer only within the budget; any other exit only stops |
| ProcessSupervisor.ProcessMonitor.HandleFatalError | container/process-monitor.ts:1537-1552 | arms a further timer within the budget and leaves an earlier one armed |
| ProcessSupervisor.ProcessMonitor.OnRestartTimer | container/process-monitor.ts:1061-1068 | the timer callback enters `restart()` and its `stop()`, up to the first await |
| ProcessSupervisor.ProcessMonitor.ResumeRestart | container/process-monitor.ts:1061-1149 | each further stretch of `restart()` between two awaits: stop() waits exactly when there is a child whose `killed` flag is not set, and the count comes after the stop and before the start |
| ProcessSupervisor.ProcessMonitor.KillChild | container/process-monitor.ts:1088-1110 | sets the `killed` flag of the current child only if it was not set, the child has not exited and the signal works |
| ProcessSupervisor.ProcessMonitor.Cleanup | container/process-monitor.ts:1676-1695 | disarms the one restart timer that the field names |
| LogBuffers.RingAdd | container/process-monitor.ts:926-932 | writing at the head of the circular array and moving on is appending and keeping the last `maxSize` |
| LogBuffers.LogBuffer.Add | container/process-monitor.ts:926-932 | the buffered lines become the last `maxSize` of the old ones and the new one, whatever the head index |
| LogBuffers.LogBuffer.GetRecentLines | container/process-monitor.ts:934-944 | the modular indices read exactly the last `count` lines, oldest first; none for a negative count |
| LogBuffers.LogBuffer.Clear | container/process-monitor.ts:946-949 | no line is left |
| StreamPipeline.ChunksConserved | container/process-monitor.ts:1195-1268 | arrived = processed + dropped + queued, over every history of arrivals, drains, flushes and clean-ups |
| StreamPipeline.VisibleAreSurvivors | container/process-monitor.ts:1214-1268 | without a clean-up, the recorded lines are the non-blank trimmed lines of the chunks that survived the queue, in order |
| StreamPipeline.SurvivorsInOrder | container/process-monitor.ts:1195-1268 | the processed chunks are an in-order selection of the arrived ones, all before those still waiting |
| StreamPipeline.DrainRefines | container/process-monitor.ts:1214-1268 | processing the queued chunks one by one has the effect of one abstract drain of the last 100 chunks since the previous drain or clean-up |
| StreamPipeline.DrainTakesLastHundred | container/process-monitor.ts:1195-1268 | a drain adds exactly the last 100 of the chunks that arrived since the previous drain or clean-up |
| StreamPipeline.KeepLinesAre | container/process-monitor.ts:1240-1262 | the recorded lines are the non-blank lines of a chunk, in order, trimmed and with its stream |
| StreamPipeline.OutputIsReported | container/process-monitor.ts:1232-1236 | over every history detection gets exactly the trimmed non-blank stdout chunks that survived, in order |
| StreamPipeline.ErrorsAreReported | container/process-monitor.ts:1273-1295 | over every history without a clean-up or a cut, the trimmed non-blank stderr chunks that survived fall into consecutive groups, each report is the newline-join of one, and the pending buffer is that of the rest |
| StreamPipeline.NothingStaysBehind | container/process-monitor.ts:1289-1294 | a flush leaves no pending text, a drain no waiting chunk, a clean-up neither and no line |
| StreamPipeline.BlankChunkHasNoLines | container/process-monitor.ts:1221-1224 | skipping a blank chunk early skips no line |
| StreamPipeline.BufferIsRecentSuffix | container/process-monitor.ts:1273-1283 | the stderr buffer is always a suffix of the newline-join of the texts since the last flush and ends with the newest |
| StreamPipeline.BufferBound | container/process-monitor.ts:1273-1283 | its length stays within MAX/2 + 1 + max(MAX/2, longest text) |
| StreamPipeline.ReassembledIffNeverCut | container/process-monitor.ts:1273-1283 | the buffer is the whole join exactly when no arrival found it over half the limit with the two together over the limit |
| StreamPipeline.LongErrorIsCut | container/process-monitor.ts:1273-1283 | an error of 40,000 characters followed by one of 30,000 is not reassembled whole |
| StreamPipeline.StreamMonitor.ProcessStreamData | container/process-monitor.ts:1195-1209 | the queue holds the last 100 chunks since the previous drain or clean-up, and a waiting chunk always has a drain that will run |
| StreamPipeline.StreamMonitor.ProcessQueuedData | container/process-monitor.ts:1214-1268 | a drain processes exactly those chunks and keeps the invariant that ties queue, buffer, timers, log lines and ring to the history |
| StreamPipeline.StreamMonitor.BufferMultiLineErrors | container/process-monitor.ts:1273-1295 | afterwards the buffer is not empty and exactly one flush timer is pending |
| StreamPipeline.StreamMonitor.FlushErrors | container/process-monitor.ts:1289-1294 | the flush hands the trimmed buffer to detection once, exactly if it has any text, and empties it |
| StreamPipeline.StreamMonitor.Cleanup | container/process-monitor.ts:1676-1695 | queue, buffer and ring are empty, no flush is pending, and no later chunk loses its wake-up |
| StreamPipeline.StreamMonitor.GetRecentLogs | container/process-monitor.ts:1161-1163 | the last min(count, capacity) recorded lines, in order |
| StreamPipeline.RunMonitor | container/process-monitor.ts:1187-1295 | whatever happens to a new monitor, in whatever order, it ends in the state its history says; a callback that is not scheduled is one with nothing to do |
| StreamPipeline.RecentLogsAfter | container/process-monitor.ts:1161-1268 | after any run without a clean-up, getRecentLogs is exactly the last min(count, capacity) non-blank trimmed lines of the chunks that survived the queue |
| KeywordIndex.ErrorDetector.constructor | container/process-monitor.ts:421-425 | the patterns end up in descending priority, a permutation of those given, and fully indexed |
| KeywordIndex.ErrorDetector.InitializeOptimizedPatterns | container/process-monitor.ts:431-454 | every bucket holds exactly the patterns with that keyword or severity, in descending priority; the fallbacks are exactly the keyword-free patterns |
| KeywordIndex.FilterDescends | container/process-monitor.ts:431-454 | so each bucket is in descending priority and free of duplicates |
| KeywordIndex.ErrorDetector.GetCandidatePatterns | container/process-monitor.ts:581-609 | the candidates are duplicate-free, in descending priority, and exactly the patterns hit by one of the first ten words, plus the high-priority fallbacks when fewer than five were hit |
| KeywordIndex.ProposedIff | container/process-monitor.ts:581-609 | a pattern is a candidate exactly if one of the first ten words is its keyword, or it has none, has priority 80 or more and at most four patterns are hit |
| KeywordIndex.OnlyTenWordsMatter | container/process-monitor.ts:581-609 | texts with the same first ten words have the same candidates in the same order |
| KeywordIndex.CandidatesAreProposed | container/process-monitor.ts:581-609 | the list collected bucket by bucket is the duplicate-free list of proposed patterns in descending priority |
| KeywordIndex.AddAllIsUnion | container/process-monitor.ts:581-609 | collecting candidates in a set is their duplicate-free union |
| KeywordIndex.FirstMatchIsTop | container/process-monitor.ts:553-558 | in a list of descending priority the first match is a match of the highest priority |
| KeywordIndex.FirstMatching | container/process-monitor.ts:553-558 | the candidate loop returns the first match, or none exactly when nothing matches |
| KeywordIndex.ErrorDetector.ChoosePattern | container/process-monitor.ts:544-558 | the choice is the first match of the candidates, absent only when no proposed pattern matches, and as good as that of a full scan exactly when nothing matches or some best match is proposed |
| KeywordIndex.FastChoiceIff | container/process-monitor.ts:544-609 | index and full scan agree if and only if nothing matches or some matching pattern of the highest priority is proposed |
| KeywordIndex.IndexCanMiss | container/process-monitor.ts:581-609 | they disagree on one matching keyword-free pattern below priority 80 |
| KeywordIndex.LowFallbackIsDead | container/process-monitor.ts:271-280 | a keyword-free pattern below priority 80 is never chosen |
| ErrorSuppression.RowsStaySeparated | container/process-monitor.ts:1320-1376 | with successful reads, over every run of one monitor with clears, clean-ups and other instances in between, no two stored rows of its instance are related, whatever getErrors does to the other fields |
| ErrorSuppression.SeparationIff | container/process-monitor.ts:1320-1376 | over every run the rows of the instance are unrelated at every moment if and only if no detection with a failed read stores a new key that is related to one of them |
| ErrorSuppression.StepKeepsSeparatedIff | container/process-monitor.ts:1409-1460 | the same for one event on a table whose rows are unrelated |
| ErrorSuppression.OneRowPerSignature | container/process-monitor.ts:1484-1532 | so an instance has at most one row per category, severity and signature |
| ErrorSuppression.AcceptedIff | container/process-monitor.ts:1409-1505 | with a working read and store an error is accepted if and only if, for every row of its instance, message or file differ, category, severity, signature and words keep them apart, and the 5-second rule does not apply |
| ErrorSuppression.AcceptedIsStored | container/process-monitor.ts:1320-1376 | an accepted error with a new key becomes a row with its own fields; one not accepted, or not stored, changes nothing |
| ErrorSuppression.UnrelatedIsStored | container/process-monitor.ts:1484-1505 | an error that shares no word, signature or message with the rows of its instance is accepted, and so is one of another category |
| ErrorSuppression.TruncatedIs | container/process-monitor.ts:1326-1332 | what is stored and announced has the error's own fields, with message and raw output shortened as stated |
| ErrorSuppression.RelatedIsSymmetric | container/process-monitor.ts:1465-1505 | relatedness of two errors does not depend on which came first |
| ErrorSuppression.FailedReadBreaksSeparation | container/process-monitor.ts:1409-1414 | in every environment a run of two stored detections, of which only the second could not read the table, leaves two related rows |
| ErrorSuppression.RepeatIsCountedIff | container/process-monitor.ts:1320-1376 | in every environment and for every file name, a detection of a stored key adds one occurrence if and only if it is accepted |
| ErrorSuppression.SameErrorIsCountedIff | container/process-monitor.ts:1409-1460 | for the declared row type and a row of the same message and file: if and only if the store works and either the read fails, or the row is another instance's and no row of this one matches |
| ErrorSuppression.CountsStayOneIff | container/process-monitor.ts:1320-1376 | over every run, with any other instances, all counts are 1 at every moment if and only if no event stores an error whose key is in the table |
| ErrorSuppression.OwnCountsStayOneIff | container/process-monitor.ts:1409-1460 | when only this monitor stores and no two different errors share a key, if and only if no repetition meets a failed read |
| ErrorSuppression.RepeatsAreNeverCounted | container/process-monitor.ts:1409-1460 | so with successful reads as well every occurrence count is 1 and no error is ever reported as repeated |
| ErrorSuppression.SharedKeyIsCounted | container/storage.ts:428-437 | two different errors whose message and file join to one key end as one row of count 2, although every read succeeds |
| ErrorSuppression.BarFreeSharesNoKey | container/storage.ts:428-437 | without a bar in the file names no two different errors of a run share a key |
| ErrorSuppression.AcceptedOnce | container/process-monitor.ts:1484-1505 | once an error has a row of this instance, no later detection with its category, severity and message changes the table until something is deleted or a read fails, whatever the file says and however it comes back |
| ErrorSuppression.SecondCategoryIsCounted | container/storage.ts:299-303 | when the file comes back undefined, an equal message and file under a second category reaches count 2 although every read succeeds |
| ErrorSuppression.ForeignErrorIsAlwaysNew | container/storage.ts:288-297 | an error that another instance stored first, and that matches no row of this one, is accepted at every repetition, each counted on the other row, and this instance never gets a row for it |
| ErrorSuppression.KeyDetermines | container/storage.ts:428-437 | message and file can be read back from their hash input when file names have no bar |
| ErrorSuppression.ErrorHandler.GetErrors | container/storage.ts:340-350 | exactly the rows of the instance, unless the read fails |
| ErrorSuppression.ErrorHandler.CheckForDuplicateError | container/process-monitor.ts:1409-1460 | true exactly when the read succeeds and some row of the instance matches by message and file, by recent similar text at the same place, or by relatedness |
| ErrorSuppression.ErrorHandler.HandleDetectedError | container/process-monitor.ts:1320-1376 | an invalid error and a duplicate change nothing; any other is stored truncated, and logged, announced and, if fatal, handed to the restart logic exactly if the store succeeded |
| Truncation.MessageTruncation | container/process-monitor.ts:1328-1332 | idempotent, keeps the first 2,000 characters, at most 2,014 long |
| Truncation.RawTruncation | container/process-monitor.ts:1382-1404 | idempotent, keeps the first 7,000 and last 2,950 characters exactly, at most 10,014 long |
| ErrorTable.CountsAreStores | container/storage.ts:288-338 | over every run there is at most one row per key, and its count is the number of successful stores of the key since the row was created |
| ErrorTable.OccurrencesConserved | container/storage.ts:287-426 | live occurrences and those deleted with their rows are together all successful stores, over all instances |
| ErrorTable.UpsertCounts | container/storage.ts:288-297 | an upsert keeps keys unique and adds one occurrence to its key and to no other |
| ErrorTable.DeleteKeeps | container/storage.ts:309-316 | a deletion leaves the remaining rows, their counts and the uniqueness of keys as they were |
| ErrorTable.DeletedAre | container/storage.ts:309-316 | a clear leaves exactly the rows of other instances, a clean-up exactly the rows created at the cutoff or later |
| ErrorTable.RowsRemember | container/storage.ts:288-338 | over every run a row has the instance, fields and first time of the store that created it and the time of the last store of its key |
| ErrorTable.SelectedAre | container/storage.ts:299-303 | exactly the rows of the instance are selected, most recent first |
| ErrorTable.OldestIsLeastRecent | container/storage.ts:382-389 | the oldest error of a summary is the first occurrence of a row that was seen least recently |
| ErrorTable.OldestIsNotEarliest | container/storage.ts:382-389 | of two errors, one seen first and again last, the oldest error is the first occurrence of the other |
| ErrorTable.RetriedIff | container/storage.ts:181-209 | a further call is made exactly after a busy throw |
| ErrorTable.SummaryAddsUp | container/storage.ts:352-398 | total = unique + repeated, where repeated are the occurrences after the first of each row and each row counts the stores of its key since creation; the category and the severity counts each sum to unique and are what a scan finds |
| ErrorTable.LatestIsMostRecent | container/storage.ts:299-303 | the latest error is the maximum of the last occurrences of the instance |
| ErrorTable.StorageManager.RetryOperation | container/storage.ts:181-209 | at most three calls, each running its store again, a further one only after a busy throw; the table holds every call's effect and the result is that of the last call |
| ErrorTable.CallsAreCounted | container/storage.ts:181-209 | every call whose statement works is counted, also when the call throws afterwards |
| ErrorTable.BusyAfterInsertIsCountedAgain | container/storage.ts:181-209 | a store that threw "busy" after its insert would be counted three times |
| ErrorTable.ReturningCallIsTheOnlyOne | container/storage.ts:181-209 | a first call that comes back is the only one, so the table takes exactly its step |
| ErrorTable.StorageManager.StoreError | container/storage.ts:117-123 | whatever each of three possible calls would do, the table takes exactly one step, that of the first, because storeError returns its failures instead of throwing them |
| ErrorTable.ErrorStorage.StoreError | container/storage.ts:319-338 | one upsert, or no change and a failure result; never a throw |
| ErrorTable.ErrorStorage.ClearErrors | container/storage.ts:400-414 | removes exactly the rows of the instance and returns how many, or changes nothing |
| ErrorTable.ErrorStorage.CleanupOldErrors | container/storage.ts:416-426 | removes exactly the rows created before the cutoff and returns how many, or changes nothing |
| ErrorTable.ErrorStorage.GetErrorSummary | container/storage.ts:352-398 | the accumulation loops give the tallies of the selected rows |
| LogStore.NumbersAreFresh | container/storage.ts:534-582 | over every run with failing inserts, rolled-back batches and deletions, stored numbers are below the counter and strictly increase in insertion order, and no number is returned twice |
| LogStore.BatchAllOrNothing | container/storage.ts:560-582 | a batch whose BEGIN, inserts and COMMIT all work appends all logs in order under the consecutive numbers it returns; otherwise the table is as it was and the counter has advanced, unless BEGIN failed or the batch is empty |
| LogStore.OneStored | container/storage.ts:539-558 | a stored log comes last, as given, under the number returned; a failing insert uses the number up |
| LogStore.DeletedAre | container/storage.ts:622-710 | a clear leaves exactly the rows of other instances, a clean-up exactly those at the cutoff or later; the counter stays |
| LogStore.LogStorage.constructor | container/storage.ts:534-537 | the counter starts above every stored number |
| LogStore.LogStorage.StoreLog | container/storage.ts:539-558 | the number is used up whether or not the insert succeeds |
| LogStore.LogStorage.StoreLogs | container/storage.ts:560-582 | succeeds exactly when BEGIN, every insert and COMMIT do, returning consecutive numbers; otherwise the table is unchanged and the counter may have moved |
| LogStore.PagesAreTheTable | container/storage.ts:584-619 | for any positive page size, stepping the offset until `hasMore` is false ends, and the pages are exactly the rows of the instance in strictly descending sequence |
| LogStore.NewestIsReverse | container/storage.ts:502-507 | newest-first is the reverse of the insertion order |
| LogStore.CursorIsMaximum | container/storage.ts:584-619 | the cursor is the largest number on the page, for any limit and offset |
| LogStore.PageCounts | container/storage.ts:584-619 | the total counts the rows of the instance, a page is as long as the limit and the rest allow, and more follow exactly if it ends before the total |
| LogStore.NegativeLimits | container/storage.ts:502-507 | a negative limit is none and a negative offset starts at the first row |
| LogStore.MaxSequence | container/storage.ts:594 | the maximum of a non-empty list of sequence numbers |
| LogStore.LogStorage.GetLogs | container/storage.ts:584-619 | the page, its cursor, the total and whether there is more |
| LogStore.StatsEqualScan | container/storage.ts:638-698 | for any grouping by level and stream, total, by-level and by-stream counts equal a scan of the rows, and both breakdowns sum to the row count |
| LogStore.ExtremesAreTrue | container/storage.ts:638-698 | oldest and newest are the true minimum and maximum timestamp, present exactly when there are rows |
| LogStore.GroupWeight | container/storage.ts:638-698 | adding group totals by one column counts the rows by that column |
| LogStore.LogStorage.GetLogStats | container/storage.ts:638-698 | the accumulation loop gives these sums and extremes of the groups |
| LogFile.CheckBoundsIff | container/process-monitor.ts:107-148 | right after a check the file is at most 50,000 bytes or at most `maxLines` lines, for every content exactly when `maxLines` is at least 2 |
| LogEntries.CheckedIs | container/process-monitor.ts:107-148 | a check keeps exactly the last lines of a file over the size limit, or over 50,000 bytes and the line limit, and leaves any other alone |
| LogEntries.EntryIsOneLine | container/process-monitor.ts:50-55 | an entry without newlines adds exactly one line |
| LogEntries.EntryTellsApart | container/process-monitor.ts:50-55 | different entries give different text, so time, stream and content can be read back |
| LogEntries.KeepIsSevenTenths | container/process-monitor.ts:140-141 | the number of lines kept is seven tenths of the limit, rounded down |
| LogEntries.BytesAre | container/process-monitor.ts:109-113 | the size of a text is between one and four bytes a character, and equal to its length exactly for ASCII |
| LogFile.TrimKeepsLineSuffix | container/process-monitor.ts:135-148 | a trim keeps an end of the file that begins at a line start, with exactly `keepLines` lines if there are so many |
| LogFile.SplitOfJoin | container/process-monitor.ts:137-143 | splitting a join of newline-free pieces gives the pieces back |
| LogFile.SimpleLogManager.AppendLog | container/process-monitor.ts:50-64 | when appends are one at a time, the file stays an end, cut at a line start, of what was appended since the last reset, and is bounded after every hundredth append |
| LogFile.SimpleLogManager.TrimLogIfNeeded | container/process-monitor.ts:107-130 | trims exactly when the file is over the size limit, or over 50,000 bytes and the line limit |
| LogFile.SimpleLogManager.TrimLogFile | container/process-monitor.ts:135-148 | keeps that invariant while keeping the last 70 % of the line limit, when nothing comes in between its read and its write-back |
| LogFile.SimpleLogManager.GetAllLogsAndReset | container/process-monitor.ts:70-102 | returns the whole file, which is an end of what was appended since the last reset, and leaves it empty |
| OverlappingTrims.GaplessIffNeverLate | container/process-monitor.ts:50-148 | with appends and trims that overlap, the file is at every moment an unbroken end of what was appended if and only if no trim writes back after an append that came in since its read |
| OverlappingTrims.RaceKeepsOrder | container/process-monitor.ts:50-148 | whatever overlaps, no line appears twice or out of order |
| OverlappingTrims.AppendDuringTrimIsLost | container/process-monitor.ts:135-148 | an append between the read and the write-back of a trim that drops nothing is lost |
| Migration.FirstOccurrencesAre | debug-tools/migration_tester.py:52-70 | the deduplication keeps exactly the first message of every key, with no key twice and none missing |
| Migration.Deduplicate | debug-tools/migration_tester.py:52-70 | the loop with its set of seen keys is that deduplication |
| Migration.KeyIs | debug-tools/migration_tester.py:56-66 | messages with ids are duplicates exactly if the ids are equal; without ids, for one role, exactly if the first hundred characters are |
| Migration.TimestampIs | debug-tools/migration_tester.py:34-43 | the timestamp is the number after the prefix, and 0 for an id without the prefix or without a number |
| Migration.MemoIff | debug-tools/migration_tester.py:90 | a memo is a text that contains one of the two marks |
| Migration.ResultIsDetermined | debug-tools/migration_tester.py:72-73 | the sorted list is the only one in timestamp order that keeps the order of first occurrences inside every timestamp |
| Migration.SurvivorsAre | debug-tools/migration_tester.py:52-104 | a message survives exactly when it is the first of its key and is no memo or at most 25 keys are left |
| Migration.MigrationIsIdempotent | debug-tools/migration_tester.py:45-121 | migrating the result again changes and removes nothing |
| Migration.SeparateMemos | debug-tools/migration_tester.py:79-96 | the partition loop loses no message |
| Migration.ApplyMigrationAlgorithm | debug-tools/migration_tester.py:45-121 | the result is the filtered stable sort of the deduplication, and original = final + duplicates removed + memos removed |
| DeployVars.VarsRoundTripIff | scripts/deploy.ts:1690-1752 | on every ended run with successful writes - success, failed deploy or secrets, a signal at any point - the vars are the original ones, exactly unless the set-up failed after a clash was removed |
| DeployVars.FailedSetupLosesVars | scripts/deploy.ts:1697-1728 | for all vars and secrets that clash, a run whose set-up fails ends with other vars than it found |
| DeployVars.DeployedVarsAreClean | scripts/deploy.ts:1690-1738 | when `.prod.vars` exists and the configuration can be rewritten, the vars at `wrangler deploy` share no name with the secrets |
| DeployVars.FinishedMeansAllWorked | scripts/deploy.ts:1697-1764 | success is reported only after set-up, deploy and secret update worked |
| DeployVars.SecretsAreKept | scripts/deploy.ts:1537-1574 | existing secrets are never replaced, missing ones may be created by the secret update, and nothing is marked for clean-up after success |
| DeployVars.FailedRestoreChangesNothing | scripts/deploy.ts:1408-1441 | a restore that cannot write leaves the file as it is |
| DeployVars.RestoreUndoesRemove | scripts/deploy.ts:1336-1441 | restoring after removing gives the original vars, restoring twice is restoring once, and exactly the clashing names are removed |
| DeployVars.DeploymentManager.ReadSecretNames | scripts/deploy.ts:1336-1403 | the names defined by the non-comment lines of `.prod.vars` |
| DeployVars.SecretNameIs | scripts/deploy.ts:1351-1357 | a line name=value defines the trimmed name; a comment or a line without an equals sign defines nothing |
| DeployVars.NamesAre | scripts/deploy.ts:1349-1357 | a name is a secret exactly when some line defines it |
| DeployVars.DeploymentManager.RemoveConflictingVars | scripts/deploy.ts:1336-1403 | the key-by-key loops remove exactly the clashing vars and return them with their values, or change nothing and return null |
| DeployVars.DeploymentManager.RestoreOriginalVars | scripts/deploy.ts:1408-1441 | merges the removed vars over the file; nothing to restore changes nothing |
| DeployVars.DeploymentManager.DeployFromConflicts | scripts/deploy.ts:1688-1764 | without a signal the vars come back exactly unless the set-up fails after a removal, also when deploy or secrets fail |
| DeployVars.DeploymentManager.GracefulExit | scripts/deploy.ts:115-142 | the signal handler restores what is still marked for clean-up |
| StableSorting.StableIsUnique | debug-tools/migration_tester.py:72-73 | sorted by key and stable inside every key leaves only one result |
| Text.JoinOfSplit | container/process-monitor.ts:137-143 | joining the pieces of a split gives the text back |
| Text.TrimIs | container/process-monitor.ts:1221-1224 | trimming takes away only blanks, at the two ends |
| Text.SpacesAre | container/process-monitor.ts:1221-1224 | which characters trimming removes, and that it removes no visible ASCII character |

## Left out

- A trim that races with a CLI reset: `trimLogFile` reads and writes back without the lock; a trim is one atomic step in `LogHandoff`.
- `SimpleLogManager.getAllLogsAndReset` as a concurrent actor: it takes no lock and nothing in the repository calls it beside a CLI reset.
- The removal of the log file by `ProcessMonitor.cleanup`, and the CLI's printing.
- Failing file operations of `SimpleLogManager` in `LogFile`; they are caught and logged in the source.
- The health check, event emitters, process information records and timestamps of log lines.
- A second `ProcessRunner.stop` and calls of `restart()` from outside; nothing in `ProcessRunner` makes them.
- The content of the pattern table, keyword and word extraction, message cleaning, path extraction, log levels; `handleClientError` and the JSON repairs.
- `parseError` before and after its candidate loop: the skip test and the fallback error for unmatched stderr.
- The columns process id, stack trace, column number and raw output of an error row, and source and metadata of a log row.
- ErrorTable.OldestIsLeastRecent: `oldestError` is not the minimum of the first occurrences, because the source reads it from the last selected row.
- Log filters of `getLogs` other than limit and offset: the source ignores them too.
- ErrorTable.StorageManager.RetryOperation: does not model the busy wait between calls.
- A second process on the same database, SQLite pragmas, schema set-up and database files.
- The longest message, the list of unique ids and the printed report of the migration.
- DeployVars.DeploymentManager.RemoveConflictingVars: vars are a map; the text edits of the JSONC file, comments and key order are not modelled.
- Git, wrangler, Cloudflare calls, zone and route updates of the deployment: their outcomes are parameters.
- Web application, workers and benchmarks: not part of this model.
