# TELEVAULT, a verified model

TELEVAULT backs up directories to remote storage. This project models five of its components in
Dafny and proves what they are for:

* **Schedules.** Cron fields and the cron search over the proleptic Gregorian calendar, the daily and
  weekly searches, the per-profile guard and the loop that handles due schedules, and the printer of
  RFC 3339 timestamps (`Calendar`, `CronField`, `CronSearch`, `CronCycle`, `NextRun`, `Guards`,
  `SchedulerRuns`, `Scheduler`, `Rfc3339`).
* **Incremental backup over the catalog.** Change detection, the catalog's statements as maps with
  their constraints, and the backup engine, which executes a plan statement by statement while any
  statement, read or upload may fail (`ChangeDetector`, `Catalog`, `BackupSpec`, `BackupPlan`,
  `BackupResults`, `Summaries`, `Backup`).
* **Chunking.** The streaming pipeline over a reader with arbitrary short reads, and the manifest
  validator (`Pipeline`, `Manifest`).
* **Transfer.** The job state machine, the upload worker, the retry loop over an arbitrary provider
  and the bounded queue with cancellation (`TransferState`, `Transfer`, `Queue`).
* **Chunk identity.** Identifiers, captions and the authenticated context bytes (`Identifiers`,
  `Caption`, `Aad`).

`dafny verify dfyconfig.toml` checks everything.

## How the backup is modelled

`Catalog.Tables` holds the catalog's tables; each SQL statement is a function to the new tables, or to
nothing when a key, uniqueness or reference constraint fails. `Backup.Database` applies one statement
at a time and keeps a ghost trace of every committed state, so a crash after any prefix of writes is
a state of that trace. `BackupSpec.StepOk` is what every state of a run obeys: the catalog's
invariant (every chunk row agrees with the manifest it names, paths of a profile and indices of a
file are unique, references have their targets), nothing earlier lost, and the snapshot complete only
if every scanned file has its version. `BackupPlan.Accomplished` is what a successful
run has achieved. The database also counts, as a ghost, the statements that failed although the
constraints allowed them, so contracts can say what happens when none did: vanished files are marked,
jobs are recorded, the snapshot of a run that fails is marked failed. Refused statements and unreadable
sources are counted too, so that a run reports such an error only if one occurred. `Summaries.Tells` says what the
summary reports in terms of the scan and the earlier rows alone.

Some propositions are sealed (`Sealing`): `Held` is the sealed `StepOk`, `Standing` what has been
achieved so far, `Traced` that every committed state obeys the rules. A sealed proposition means the
same; proofs open it where they need to.

## How the scheduler is modelled

`SchedulerRuns.World` is one schedule over a run: time passes, the loop lists it when due, reads the
clock, writes its next run or fails to, and others write too, possibly what they computed long
before. Every row of `Scheduler.SchedulerService` carries a ghost history of such events, and every
method is proved to extend it by exactly the events it stands for, so what holds of all runs of the
machine holds of whatever the methods do, in any order. `Guards.ExecutionGuard` is tied to its
machine of workers in the same way, and `Queue.TransferQueue` to its own. The service keeps ghost
records of the backups it ran, with their results, and of failed database calls.

`Transfer.Log` records every check, upload and verification of a staged upload; `Transfer.Justified`
and `Transfer.GaveUpRightly` say over that log alone which uploads may be followed by another and when
the loop may stop.

## Where the code does not keep what one might expect

* A cron search gives up after 1830 days. `CronCycle.NeverErrsIffNoLongGap` says exactly which
  schedules never err; for unrestricted weekdays that is those with a date of every year
  (`CronSearch.NeverErrsIffAnnualDate`), so a leap-day schedule searched on 2096-03-01 errs, and with
  restricted weekdays an annual date is not enough (`CronCycle.RestrictedWeekdayErrs`). A handling
  that finds no next run leaves its row due and is repeated (`SchedulerRuns.SpacedIffUndisturbed`,
  `SchedulerRuns.AlwaysRearmedIffNoLongGap`).
* A cron step near the 32-bit limit wraps (the arithmetic of a release build) and selects values below the field's minimum:
  `CronField.FieldInRangeIffNoWrap`, `CronField.WrappingStepExample`.
* The chunk count is truncated to 32 bits: `Pipeline.LimitsIffCountFits` and
  `Pipeline.StagedBytesAreTheStream` say exactly when this matters.
* A new file whose path or identifier already has a row is refused by the catalog, and the backup
  fails: exactly if a scanned path is missing from the compared listing although the catalog has a
  row in its place, or two such paths share an identifier (`Backup.BackupEngine.ExecuteProfileBackup`
  with `BackupResults.NoneReturns`). This happens to a file that was deleted in one backup and comes
  back (`BackupResults.DeletedFileReturns`, `BackupResults.DeletedFileExample`), to a file whose
  backup was interrupted before its version was bound (`BackupResults.InterruptedFileReturns`), and
  to a path that another profile has too (`BackupResults.OtherProfilesFileReturns`).
* Saving the manifest of a file whose content did not change overwrites the references of the earlier
  version until the transfer ends; a crash in between leaves that version without references, also
  after reconciliation: `BackupResults.FirstSaveSparesIffUnnamed`,
  `BackupResults.TouchedFileIsNotSpared`, `Backup.BackupEngine.SaveInitial`.
* Requeueing a job that is already pending hands it to two workers:
  `Queue.ExclusiveIffNoPendingRequeue`, `Queue.PendingRequeueHandsOutTwice`.
* A next run computed by another writer before a handling and written after it makes the schedule
  fire again for the same instant, exactly if it has an occurrence in between:
  `SchedulerRuns.SpacedIffUndisturbed`, `SchedulerRuns.LateWriteFiresTwice`.
* The timestamp printer counts years in 32 bits and is right exactly up to the year 2147483647:
  `Rfc3339.FormatRfc3339`.

Where comments and code disagree the model follows the code: giving up on an upload leaves the job
retrying, finishing a job may overwrite a cancelled entry, identifiers are validated trimmed and
stored untrimmed, cron requires both day fields to match, and the compared snapshot is named
explicitly because the latest one is chosen by a constant timestamp.

## Model

| member | source | states |
|---|---|---|
| `Calendar.YearLength` | crates/televault-scheduler/src/expression.rs:336-382 | closed-form day counts of consecutive years differ by the length of the year |
| `Calendar.DayNumberMonotone` | crates/televault-scheduler/src/expression.rs:336-382 | calendar order of dates is the order of their day numbers |
| `Calendar.CivilOf` | apps/desktop/src/commands/backup.rs:325-358 | every day number, negative ones too, has a valid Gregorian date with that day number |
| `Calendar.CivilUnique` | apps/desktop/src/commands/backup.rs:325-358 | and that date is the only one |
| `Calendar.WeekdayIsZeller` | crates/televault-scheduler/src/expression.rs:352 | for every valid date the weekday of its day number is the one Zeller's rule gives from year, month and day |
| `Calendar.AnniversaryWithinAYear` | crates/televault-scheduler/src/expression.rs:10 | a (month, day) pair of every year falls within 366 days of any day, across leap years and centuries |
| `CronSearch.SkippingSearch` | crates/televault-scheduler/src/expression.rs:336-382 | the search that skips days and hours equals minute-by-minute search, for any day test |
| `CronSearch.FindNextFrom` | crates/televault-scheduler/src/expression.rs:336-382 | for every matcher and start the result is the first matching minute of the 1830-day window, or none |
| `CronSearch.FirstMatchIsLeast` | crates/televault-scheduler/src/expression.rs:336-382 | minute-by-minute search finds the least member of the window, and nothing exactly when there is none |
| `CronSearch.AnnualDateFound` | crates/televault-scheduler/src/expression.rs:10 | full weekdays and one date of every year give an answer in under 367 days from any start |
| `CronSearch.NoLeapDayAfter2096` | crates/televault-scheduler/src/expression.rs:10 | the window that opens on 2096-03-01 holds no leap day |
| `CronSearch.NeverErrsIffAnnualDate` | crates/televault-scheduler/src/expression.rs:302-382 | with full weekdays the search succeeds from every start if and only if some selected date exists in every year |
| `CronCycle.CivilShift` | crates/televault-scheduler/src/expression.rs:336-382 | the calendar repeats after 146097 days, with month and day |
| `CronCycle.DaysRepeat` | crates/televault-scheduler/src/expression.rs:354-358 | so the selected days of any matcher repeat, weekdays included |
| `CronCycle.ReachableEverywhere` | crates/televault-scheduler/src/expression.rs:10 | what holds of the days of one cycle holds of all days |
| `CronCycle.NeverErrsIffNoLongGap` | crates/televault-scheduler/src/expression.rs:302-382 | for every parsed matcher the search succeeds from every start if and only if from each day of one 400-year cycle some selected day is less than 1830 days away |
| `CronCycle.RestrictedWeekdayErrs` | crates/televault-scheduler/src/expression.rs:336-382 | a concrete search with an annual date and one weekday that errs |
| `CronCycle.MondayChristmasFound` | crates/televault-scheduler/src/expression.rs:336-382 | from 2017-12-25, a Monday, the search for a Monday 25 December finds that noon |
| `CronCycle.Monday2023` | crates/televault-scheduler/src/expression.rs:336-382 | 25 December 2023 is a Monday with no such Monday in the 1830 days before it |
| `CronCycle.WindowReaches1829Days` | crates/televault-scheduler/src/expression.rs:10 | an isolated day is found from 1829 days before it |
| `CronCycle.WindowEndsAfter1830Days` | crates/televault-scheduler/src/expression.rs:10 | and from 1830 days before it is not |
| `NextRun.SearchWeekly` | crates/televault-scheduler/src/expression.rs:227-244 | the seven-step search and its fallback give the closed form, so the fallback is on the target weekday |
| `NextRun.CalculateNextRun` | crates/televault-scheduler/src/expression.rs:155-288 | all four kinds of schedule (UTC branches) compute the specified next run |
| `NextRun.NextDailyIsNext` | crates/televault-scheduler/src/expression.rs:166-181 | the daily result is the first occurrence strictly after the start |
| `NextRun.NextWeeklyIsNext` | crates/televault-scheduler/src/expression.rs:227-244 | so is the weekly result |
| `NextRun.DailyIsCron` | crates/televault-scheduler/src/expression.rs:166-181 | a daily schedule names the same instants as the cron schedule of that time |
| `NextRun.WeeklyIsCron` | crates/televault-scheduler/src/expression.rs:227-244 | a weekly schedule names the same instants as the cron schedule of that weekday and time |
| `NextRun.FirstSunday` | crates/televault-scheduler/src/expression.rs:227-244 | Sunday 03:00 after 1970-01-01 is 1970-01-04 at 03:00 |
| `NextRun.IntervalUnits` | crates/televault-scheduler/src/expression.rs:162-165 | an interval of 60 seconds is a minute of the calendar, one of 86400 seconds a day |
| `NextRun.NextCronIsNext` | crates/televault-scheduler/src/expression.rs:280-286 | so is the cron result; an error means no occurrence inside the window |
| `NextRun.NextRunIsNext` | crates/televault-scheduler/src/expression.rs:155-284 | every calendar schedule's next run is its next occurrence |
| `NextRun.NextRunLater` | crates/televault-scheduler/src/expression.rs:155-288 | a next run, of an interval too, lies strictly after its start |
| `NextRun.NextRunStable` | crates/televault-scheduler/src/expression.rs:155-284 | starting later, but before the answer, gives the same answer |
| `NextRun.NextRunMonotone` | crates/televault-scheduler/src/expression.rs:155-284 | the next run is monotone in its start |
| `NextRun.RunsListEveryOccurrence` | crates/televault-scheduler/src/expression.rs:155-284 | iterating lists every occurrence once, in order, with none skipped |
| `CronField.StepsAreMultiples` | crates/televault-scheduler/src/expression.rs:454-469 | without wrap-around a step denotes exactly min, min + step, ... up to max, and the loop ends |
| `CronField.ParseItem` | crates/televault-scheduler/src/expression.rs:449-509 | one item adds exactly what it denotes (all, step, range, single), or its error |
| `CronField.ParseField` | crates/televault-scheduler/src/expression.rs:440-519 | an accepted field is the non-empty union of its items; a refused one has a bad item or none |
| `CronField.ItemInRange` | crates/televault-scheduler/src/expression.rs:449-509 | an accepted item's values are in range unless its step wraps |
| `CronField.FieldInRangeIffNoWrap` | crates/televault-scheduler/src/expression.rs:440-519 | an accepted field is in range if and only if no step item wraps to a value below the minimum |
| `CronField.WrappingStepExample` | crates/televault-scheduler/src/expression.rs:460-469 | a concrete step that selects a value below the field's minimum |
| `CronField.StarItem` | crates/televault-scheduler/src/expression.rs:450-453 | a star denotes every value of the field |
| `CronField.NumberItem` | crates/televault-scheduler/src/expression.rs:499-509 | a printed number, with sign or zeros before it, denotes itself or is out of bounds |
| `CronField.RangeItem` | crates/televault-scheduler/src/expression.rs:470-498 | two printed numbers with a hyphen denote everything between them, or are out of bounds |
| `CronField.StepItem` | crates/televault-scheduler/src/expression.rs:454-469 | a star, slash and printed step denote min and every step-th value after it |
| `CronField.CommaItems` | crates/televault-scheduler/src/expression.rs:448-449 | the items of a field are its comma-separated parts without the white space around them |
| `CronField.NormalizeWeekdays` | crates/televault-scheduler/src/expression.rs:316-324 | the loop maps 7 to 0 and keeps the others |
| `CronField.WeekdaysModSeven` | crates/televault-scheduler/src/expression.rs:316-324 | which is exactly reduction modulo 7 |
| `CronField.ParseCron` | crates/televault-scheduler/src/expression.rs:302-333 | an expression is accepted exactly with five acceptable white-space separated fields, and the matcher holds what their items denote; a refusal is a wrong number of fields or the error of the first refused field |
| `CronField.SpacedFields` | crates/televault-scheduler/src/expression.rs:303-311 | words with any white space around them are accepted exactly as the words are |
| `CronField.HalfPastTwo` | crates/televault-scheduler/src/expression.rs:302-333 | "30 2 * * *" is accepted and means half past two on every day |
| `Text.WordsAreSplit` | crates/televault-scheduler/src/expression.rs:303 | splitting words separated by any non-empty white space gives exactly the words |
| `Text.WhitespaceCharacters` | crates/televault-scheduler/src/expression.rs:303 | which characters count as white space |
| `Text.TrimTakesPadding` | crates/televault-scheduler/src/expression.rs:449 | trimming takes away exactly the white space around a text |
| `Text.ParsesIffDecimal` | crates/televault-scheduler/src/expression.rs:455-505 | a text parses as a number exactly if it is an optional plus sign, zeros and the printed number below the bound |
| `Guards.ExecutionGuard.TryAcquire` | crates/televault-scheduler/src/guard.rs:49-67 | one acquisition step of the machine of workers; succeeds exactly on a free profile and an unpoisoned lock |
| `Guards.ExecutionGuard.Release` | crates/televault-scheduler/src/guard.rs:24-30 | one drop step: unregisters the profile, unless the lock is poisoned |
| `Guards.RunsNeverOverlap` | crates/televault-scheduler/src/guard.rs:24-67 | in every interleaving of any number of workers, poisoned lock included, no two run one profile |
| `Guards.RefusedIffRunning` | crates/televault-scheduler/src/guard.rs:49-67 | without poisoning an acquisition is refused exactly while some worker runs the profile |
| `Guards.RegisteredIffHeld` | crates/televault-scheduler/src/guard.rs:24-67 | the registry is exactly the set of running profiles: no profile stays locked |
| `Scheduler.SchedulerService.ExecuteSingle` | crates/televault-scheduler/src/service.rs:401-554 | each branch with its outcome, row, status, error code, history record and clock reading; a backup runs exactly if the profile is known, enabled and free, and Completed or BackupFailed is its result; without a database failure everything is recorded; the guard is released on every exit |
| `Scheduler.SchedulerService.RunGuarded` | crates/televault-scheduler/src/service.rs:475-554 | exactly one backup runs; Completed exactly if it succeeded and a next run exists, BackupFailed exactly if it failed and one exists; both record and reschedule from the end of the run |
| `Scheduler.SchedulerService.RunUnlessBusy` | crates/televault-scheduler/src/service.rs:449-554 | a busy profile or a poisoned lock skips the run, anything else runs it with the guard held |
| `Scheduler.SchedulerService.Skip` | crates/televault-scheduler/src/service.rs:431-473 | a skipped handling reschedules from its start and keeps no error code |
| `Scheduler.SchedulerService.UpdateStatus` | crates/televault-db/src/db.rs:1769-1805 | rewrites timing and status of one row and keeps its configuration |
| `Scheduler.SchedulerService.UpdateSchedule` | crates/televault-scheduler/src/service.rs:193-255 | accepted exactly if the edited schedule is valid and has a next run where one is needed; a timing change reschedules from now, any other edit keeps the row; an interval under 60 seconds is refused |
| `Scheduler.SchedulerService.PrepareUpdate` | crates/televault-scheduler/src/service.rs:194-234 | the first half: what will be written and which clock reading its next run comes from |
| `Scheduler.SchedulerService.CommitUpdate` | crates/televault-scheduler/src/service.rs:236-251 | the second half writes what was prepared, whatever happened since: one edit of the history |
| `Scheduler.SchedulerService.CreateSchedule` | crates/televault-scheduler/src/service.rs:120-169 | succeeds exactly for a new identifier, a known profile and an accepted schedule with a next run if enabled; an interval under 60 seconds is refused; its history begins |
| `Scheduler.SchedulerService.TriggerNow` | crates/televault-scheduler/src/service.rs:289-301 | a run by hand adds no handling of the loop to the history |
| `Scheduler.SchedulerService.DuePass` | crates/televault-scheduler/src/service.rs:344-359 | lists what is due and, unless stopped, handles every listed schedule exactly once in its history, and touches no other |
| `Scheduler.SchedulerService.ListDueRows` | crates/televault-db/src/db.rs:1716-1733 | exactly the enabled rows whose next run is not after now, each once, earliest first, unless the query fails |
| `Scheduler.SchedulerService.HandleDue` | crates/televault-scheduler/src/service.rs:344-359 | a handling extends the history by exactly listing, reading the clock, and writing or not |
| `Scheduler.SchedulerService.HandlingsSpaced` | crates/televault-scheduler/src/service.rs:344-554 | after any calls of the service, consecutive handlings of a schedule have a scheduled instant between them unless an event disturbed it |
| `SchedulerRuns.StepKeepsGood` | crates/televault-scheduler/src/service.rs:332-359 | every event, failed writes and late writes included, keeps the spacing invariant of a state that is not stale |
| `SchedulerRuns.OccurrenceBetweenHandlings` | crates/televault-scheduler/src/service.rs:344-554 | in every undisturbed run two consecutive handlings have a scheduled instant between them, however many were missed |
| `SchedulerRuns.DueInstantsIncrease` | crates/televault-scheduler/src/service.rs:344-554 | in every undisturbed run no instant is handled twice |
| `SchedulerRuns.StaleIffDisturbed` | crates/televault-scheduler/src/service.rs:222-251 | a state becomes stale exactly by a late write over a missed occurrence or by a handling without a write |
| `SchedulerRuns.SpacedIffUndisturbed` | crates/televault-scheduler/src/service.rs:193-255 | from any reachable state, an event lets every further undisturbed run stay spaced if and only if it does not disturb |
| `SchedulerRuns.LateWriteHandlesTwice` | crates/televault-scheduler/src/service.rs:222-251 | whatever the schedule, a next run written late lets the loop handle the same instant twice |
| `SchedulerRuns.LateWriteFiresTwice` | crates/televault-scheduler/src/service.rs:222-251 | one noon of a daily schedule is such an instant |
| `SchedulerRuns.AlwaysRearmedIffNoLongGap` | crates/televault-scheduler/src/service.rs:485-491 | a cron handling always finds a next run exactly when no long gap occurs in one cycle |
| `Rfc3339.SubtractYears` | apps/desktop/src/commands/backup.rs:325-358 | the year loop ends at the year of the day if and only if its 32-bit counter can hold it |
| `Rfc3339.SubtractMonths` | apps/desktop/src/commands/backup.rs:331-354 | the month loop ends at the date; the 12-31 fallback is unreachable |
| `Rfc3339.FormatRfc3339` | apps/desktop/src/commands/backup.rs:312-359 | the printed text is that of the unique date and time if and only if the year fits the counter |
| `Rfc3339.MinutePrintsAsSeen` | apps/desktop/src/commands/backup.rs:317-323 | hours and minutes of the printer are those the cron search sees |
| `Rfc3339.EpochStamp` | apps/desktop/src/commands/backup.rs:312-359 | second 0 prints as 1970-01-01T00:00:00Z |
| `Rfc3339.BillionStamp` | apps/desktop/src/commands/backup.rs:312-359 | second 1000000000 prints as 2001-09-09T01:46:40Z |
| `Rfc3339.StampRoundTrip` | apps/desktop/src/commands/backup.rs:312-359 | reading such a text back gives the second count, for every second count |
| `Rfc3339.StampOrder` | apps/desktop/src/commands/backup.rs:312-359 | up to year 9999 string order is time order |
| `ChangeDetector.DetectChanges` | crates/televault-backup/src/change_detector.rs:116-187 | the loops and the sort compute the specified change set |
| `ChangeDetector.ChangeMembers` | crates/televault-backup/src/change_detector.rs:116-187 | exactly the entries of scanned files and of vanished rows are listed |
| `ChangeDetector.ChangeSetSorted` | crates/televault-backup/src/change_detector.rs:116-187 | for unique paths the list is strictly sorted: every path once |
| `ChangeDetector.ChangeSetPartition` | crates/televault-backup/src/change_detector.rs:116-187 | New, Modified and Unchanged are exactly the scan with the right kinds, Deleted exactly the paths not scanned |
| `ChangeDetector.BytesConserved` | crates/televault-backup/src/change_detector.rs:93-108 | transfer bytes plus reused bytes are the scan's total, for all inputs |
| `ChangeDetector.EntriesConserved` | crates/televault-backup/src/change_detector.rs:48-79 | every scanned file is counted under exactly one of New, Modified and Unchanged, every vanished row once as Deleted |
| `ChangeDetector.SortSorted` | crates/televault-backup/src/change_detector.rs:180-186 | sorting yields order by path |
| `Manifest.ValidateChunks` | crates/televault-manifest/src/manifest.rs:115-142 | the loop accepts exactly valid, contiguously numbered chunks with distinct identifiers and a 64-bit sum; every error names a fault some chunk has |
| `Manifest.CheckChunk` | crates/televault-manifest/src/manifest.rs:115-142 | the checks of one chunk in order, each error with its fault |
| `Manifest.Validate` | crates/televault-manifest/src/manifest.rs:80-153 | accepts exactly the well-formed manifests; every error names a fault the manifest has |
| `Manifest.SafePathComponents` | crates/televault-core/src/validation.rs:47-67 | a path is safe exactly if it is relative and none of its components is the parent |
| `Manifest.ParentComponentRefused` | crates/televault-manifest/src/manifest.rs:80-153 | no manifest with a parent component in its path is well-formed |
| `Manifest.RefusedReferences` | crates/televault-manifest/src/types.rs:207-245 | which storage references are proper |
| `Manifest.HexDigits` | crates/televault-manifest/src/types.rs:57-58 | the characters of a digest |
| `Manifest.RefUpdateKeepsWellFormed` | crates/televault-backup/src/engine.rs:240-247 | replacing a storage reference by a proper one keeps a manifest valid |
| `Pipeline.LimitsIffCountFits` | crates/televault-manifest/src/chunk.rs:20-27 | the 32-bit count covers the file within the size limit exactly when the true count fits 32 bits |
| `Pipeline.ChunkCountInBytes` | crates/televault-manifest/src/chunk.rs:9-27 | one chunk below 2 GiB, otherwise the least count whose 1800 MiB chunks hold the file |
| `Pipeline.ChunkSizesInBytes` | crates/televault-manifest/src/chunk.rs:9-27 | all chunks but the last are 1800 MiB, the last is the rest |
| `Pipeline.ReadChunk` | crates/televault-backup/src/pipeline.rs:119-155 | whatever the short reads, the chunk is the next bytes of the stream, hashed and staged alike |
| `Pipeline.StageChunk` | crates/televault-backup/src/pipeline.rs:102-223 | each chunk and manifest entry describe exactly its piece of the stream |
| `Pipeline.ProcessFile` | crates/televault-backup/src/pipeline.rs:86-262 | the result describes the stream: chunks, entries, hashes, sizes, identifiers; an error means a failed read or an invalid chunk identifier |
| `Pipeline.HashesAreOfStagedBytes` | crates/televault-backup/src/pipeline.rs:102-223 | chunk and entry agree on identifier, index, size and on the digest of exactly the staged bytes, without a reference yet |
| `Pipeline.ChunkIdExample` | crates/televault-backup/src/pipeline.rs:103 | the identifier of one chunk, character by character |
| `Pipeline.ManifestIdTells` | crates/televault-backup/src/pipeline.rs:256 | equal manifest identifiers mean the same file and the same first 16 digest characters |
| `Pipeline.FileNameIsLast` | crates/televault-backup/src/pipeline.rs:227-230 | the file name of a path is its last component |
| `Pipeline.StagedBytesAreTheStream` | crates/televault-backup/src/pipeline.rs:94-262 | staged chunks concatenate to the first min(size, stream length) bytes, exactly when the count is not truncated to zero; the file hash is theirs |
| `Pipeline.PieceSizes` | crates/televault-backup/src/pipeline.rs:106-113 | no chunk exceeds its target; a full stream fills every chunk |
| `Pipeline.PipelineManifestValid` | crates/televault-backup/src/pipeline.rs:225-262 | for a valid path and identifiers the manifest passes the validator |
| `TransferState.TerminalIsFinal` | crates/televault-transfer/src/state.rs:32-86 | no sequence of attempted transitions leaves a terminal state |
| `TransferState.AllowedMoves` | crates/televault-transfer/src/state.rs:32-70 | the nineteen moves between different states |
| `TransferState.NoCompletionWithoutTransfer` | crates/televault-transfer/src/state.rs:32-70 | whatever is attempted, a job that never transferred is not verified, retried or completed |
| `TransferState.NoTransferWithoutPreparation` | crates/televault-transfer/src/state.rs:32-70 | a pending job that was never prepared gets nowhere |
| `TransferState.RetryableErrors` | crates/televault-transfer/src/error.rs:74-102 | retryable are exactly failed uploads and downloads marked so, a missing provider and four kinds of interrupted input or output |
| `Transfer.TransferJob.Transition` | crates/televault-transfer/src/state.rs:72-80 | moves exactly along allowed transitions and otherwise changes nothing |
| `Transfer.HandleUploadError` | crates/televault-transfer/src/worker.rs:81-101 | a failed upload or download marked retryable or a missing provider, below the limit, counts and leaves the job retrying, any other error fails it, a cancelled token cancels it |
| `Transfer.VerifyUpload` | crates/televault-transfer/src/worker.rs:103-149 | success only after a positive verification; a verification error leaves the job verifying |
| `Transfer.AskProvider` | crates/televault-transfer/src/worker.rs:108-149 | the provider's verdict decides: completed, failed, or still verifying |
| `Transfer.BeginUpload` | crates/televault-transfer/src/worker.rs:43-63 | the first check and the transitions up to the transfer; a job that is verifying is rejected |
| `Transfer.SendContent` | crates/televault-transfer/src/worker.rs:74-101 | exactly one upload, and the reaction to its failure |
| `Transfer.SendAndVerify` | crates/televault-transfer/src/worker.rs:74-149 | upload and verification of a transferring job, and which answer belongs to which error |
| `Transfer.ExecuteUpload` | crates/televault-transfer/src/worker.rs:37-150 | one attempt: what success proves, how many uploads, which states a retryable failure can leave |
| `Transfer.UploadStream` | crates/televault-transfer/src/engine.rs:112-122 | the attempt, and the queue then knows the job's final state |
| `Transfer.Settle` | crates/televault-transfer/src/engine.rs:156-176 | clean up after success, try again exactly on a retryable error below the limit, otherwise drop the file |
| `Transfer.TryAndSettle` | crates/televault-transfer/src/engine.rs:153-176 | after an attempt the loop may go on, or it ends with reason |
| `Transfer.OneRound` | crates/televault-transfer/src/engine.rs:148-177 | one turn of the loop: goes on exactly on a retryable failure below the limit; over the log, every upload but the last failed transiently |
| `Transfer.ExecuteStagedUpload` | crates/televault-transfer/src/engine.rs:141-178 | terminates for every provider; over the log, an upload is followed by another only if it failed with a transient error, and a last upload that failed so reached the limit, saw a cancellation or could not reopen its file; Ok(r) only if r was verified, stored, uncancelled throughout; upload and retry counts; the staging file is gone unless removing it failed; every error has its cause: a check that saw the cancellation, a refusal of the provider, a failure of the staged file, or a job that could not start |
| `Transfer.StagingFile.Cleanup` | crates/televault-storage/src/temp.rs:34-45 | ownership ends, and the file is gone unless removing it failed |
| `Transfer.StagingFile.Drop` | crates/televault-storage/src/temp.rs:54-61 | an owned file is gone unless removing it failed; any other is left alone |
| `Queue.TransferQueue.SubmitJob` | crates/televault-transfer/src/queue.rs:43-62 | one step of the queue's state machine; an identifier in use is refused |
| `Queue.TransferQueue.CancelJob` | crates/televault-transfer/src/queue.rs:65-83 | the job's own token is cancelled and no other |
| `Queue.TransferQueue.PopLive` | crates/televault-transfer/src/queue.rs:126-136 | the pop loop ends at the first live id, or drops all |
| `Queue.TransferQueue.AcquireNextJob` | crates/televault-transfer/src/queue.rs:119-139 | the pop loop is one acquire step of the state machine |
| `Queue.TransferQueue.FinishJob` | crates/televault-transfer/src/queue.rs:142-150 | one finish step; the stored entry is overwritten |
| `Queue.TransferQueue.RequeueJob` | crates/televault-transfer/src/queue.rs:153-162 | one requeue step |
| `Queue.StepKeepsInv` | crates/televault-transfer/src/queue.rs:43-162 | every operation keeps the active set within its limit and every token with a job |
| `Queue.ActiveNeverExceedsLimit` | crates/televault-transfer/src/queue.rs:119-139 | over every run active jobs never exceed the limit |
| `Queue.NoJobIsLost` | crates/televault-transfer/src/queue.rs:43-162 | over every run a submitted job neither cancelled nor finished is pending or active |
| `Queue.CancelledForGood` | crates/televault-transfer/src/queue.rs:65-83 | a cancelled token stays cancelled under any operations |
| `Queue.CancelledNeverAcquired` | crates/televault-transfer/src/queue.rs:119-139 | no later acquire returns a cancelled job |
| `Queue.AcquireTakesEarliestLive` | crates/televault-transfer/src/queue.rs:119-139 | acquire returns the earliest live job and drops only cancelled or tokenless ones before it |
| `Queue.FirstComeFirstServed` | crates/televault-transfer/src/queue.rs:43-162 | over every run jobs are handed out in the order they arrived, cancelled ones left out |
| `Queue.CapacityIsUsed` | crates/televault-transfer/src/queue.rs:29-40 | a queue for n workers has at most n active jobs (one if n is 0) and hands one out whenever fewer are active and a live one waits |
| `Queue.CancelMarks` | crates/televault-transfer/src/queue.rs:65-83 | cancelling leaves a completed or failed job as it is, marks any other cancelled and touches no other job |
| `Queue.FinishAndRequeue` | crates/televault-transfer/src/queue.rs:142-162 | both free the slot and store the entry; requeueing also appends the job |
| `Queue.ExclusiveIffNoPendingRequeue` | crates/televault-transfer/src/queue.rs:153-162 | pending is duplicate-free and disjoint from active throughout exactly when no pending job is requeued |
| `Queue.ExclusiveHandsOutOnce` | crates/televault-transfer/src/queue.rs:119-139 | then no active job is handed out again |
| `Queue.PendingRequeueHandsOutTwice` | crates/televault-transfer/src/queue.rs:153-162 | a concrete run that hands one job to two workers |
| `Identifiers.ValidIdShape` | crates/televault-core/src/validation.rs:16-44 | an accepted identifier is allowed characters with white space around |
| `Identifiers.ValidIdCharacters` | crates/televault-core/src/validation.rs:16-44 | so it holds no separator used by captions |
| `Identifiers.AllowedCharacters` | crates/televault-core/src/validation.rs:33-42 | letters, digits, hyphen and underscore, each listed |
| `Caption.ParseCaption` | crates/televault-telegram/src/contracts.rs:102-144 | the loop computes the specified header or refuses |
| `Caption.CaptionRoundTrip` | crates/televault-telegram/src/contracts.rs:89-144 | parsing the printed caption gives the header back, identifiers with surrounding white space included |
| `Caption.CaptionExample` | crates/televault-telegram/src/contracts.rs:89-99 | the caption of one header, character by character |
| `Caption.ParsedHeaderStable` | crates/televault-telegram/src/contracts.rs:89-144 | any parsed header survives printing and parsing again |
| `Aad.ToAadBytes` | crates/televault-crypto/src/aad.rs:44-59 | the appended fields are the specified bytes |
| `Aad.Layout` | crates/televault-crypto/src/aad.rs:34-59 | every field can be read back at its offset, in little-endian order |
| `Aad.MagicText` | crates/televault-crypto/src/aad.rs:34-59 | the first 19 bytes are the version text and a zero byte |
| `Aad.EncodeInjective` | crates/televault-crypto/src/aad.rs:44-59 | different contexts have different bytes, wrapping length prefix included |
| `Aad.PrefixWraps` | crates/televault-crypto/src/aad.rs:44-59 | identifiers of lengths 65536 apart share a length prefix |
| `Catalog.FileKeepsInv` | crates/televault-db/src/db.rs:413-438 | creating or updating a file row keeps the catalog's invariant |
| `Catalog.RewriteNotRefused` | crates/televault-db/migrations/V1__initial_schema.sql:29 | a row that keeps its path can always be rewritten, since paths of a profile are unique |
| `Catalog.PutKeepsInv` | crates/televault-db/src/db.rs:660-689 | saving a manifest keeps it when the rows naming it agree with its new content |
| `Catalog.PutIsUnderOwnFile` | crates/televault-db/src/db.rs:660-689 | a manifest identifier belongs to one file, so saving never moves a manifest |
| `Catalog.ChunkKeepsInv` | crates/televault-db/src/db.rs:810-834 | inserting a chunk row that agrees with its manifest keeps it |
| `Catalog.DeleteKeepsInv` | crates/televault-db/src/db.rs:1004-1012 | deleting a file's chunk rows keeps it, and none remain |
| `Catalog.VersionKeepsInv` | crates/televault-db/src/db.rs:1218-1234 | binding a version to its file's manifest keeps it |
| `Catalog.SnapshotKeepsInv` | crates/televault-db/src/db.rs:1019-1034 | snapshot statements keep it |
| `Catalog.JobKeepsInv` | crates/televault-db/src/db.rs:1344-1372 | recording a transfer job keeps it |
| `Catalog.ReconcileSettles` | crates/televault-db/src/db.rs:212-243 | nothing is in flight afterwards, nothing becomes complete, and a second call changes nothing and returns (0, 0) |
| `Catalog.ReconcileFailsInterrupted` | crates/televault-db/src/db.rs:212-243 | exactly the scanning and backing-up snapshots and the transferring jobs become failed, every other row is kept, and the counts are theirs |
| `Catalog.ReconcileKeepsInv` | crates/televault-db/src/db.rs:212-243 | reconciliation keeps the invariant |
| `Catalog.PruneRemovesExactly` | crates/televault-db/src/db.rs:1905-1955 | a batch removes exactly its snapshots and their versions, or is refused exactly when an identifier is unknown or repeated |
| `Catalog.PrunedKeepsInv` | crates/televault-db/src/db.rs:1905-1955 | pruning any set of snapshots keeps the invariant |
| `Catalog.RepairKeepsInv` | crates/televault-db/src/db.rs:2267-2343 | a consistent chunk repair keeps the invariant |
| `Backup.Database.Exec` | crates/televault-db/src/db.rs:110-125 | a statement that the constraints allow commits one state that obeys the rules or counts as a failure; any other changes nothing |
| `Backup.Database.PruneSnapshots` | crates/televault-db/src/db.rs:1905-1955 | all of the batch with the right count, or nothing; without a failure exactly if every identifier is known and none repeated |
| `Backup.Database.RepairChunk` | crates/televault-db/src/db.rs:2267-2343 | row and manifest together, or nothing; without a failure exactly if the manifest is valid and both rows exist |
| `Backup.Database.ReconcileInterrupted` | crates/televault-db/src/db.rs:212-243 | nothing is in flight afterwards, a second call would change nothing and return (0, 0), the invariant is kept, or the transaction changed nothing |
| `Backup.SettleSnapshots` | crates/televault-db/src/db.rs:216-229 | the update fails exactly the scanning and backing-up snapshots and counts them |
| `Backup.SettleJobs` | crates/televault-db/src/db.rs:231-239 | the update fails exactly the transferring jobs and counts them |
| `BackupSpec.StartOk` | crates/televault-backup/src/engine.rs:81-85 | the state before a run obeys its rules |
| `BackupSpec.CreateSnapshotOk` | crates/televault-backup/src/engine.rs:81-85 | opening the snapshot keeps the rules of a run |
| `BackupSpec.SetStatusOk` | crates/televault-backup/src/engine.rs:323-353 | so does any status, completion only when the plan is covered |
| `BackupSpec.CreateFileOk` | crates/televault-backup/src/engine.rs:191-195 | so does a new file row |
| `BackupSpec.UpdateFileOk` | crates/televault-backup/src/engine.rs:196-199 | so does a rewritten row of the same path |
| `BackupSpec.DeleteChunksOk` | crates/televault-backup/src/engine.rs:200-202 | so does deleting a file's chunk rows |
| `BackupSpec.PutManifestOk` | crates/televault-backup/src/engine.rs:206-209 | so does saving a planned manifest that agrees with its rows; earlier versions keep their references if none names it |
| `BackupSpec.CreateChunkOk` | crates/televault-backup/src/engine.rs:249-265 | so does recording a transferred chunk |
| `BackupSpec.CreateVersionOk` | crates/televault-backup/src/engine.rs:279-293 | so does binding a version |
| `BackupSpec.UpsertJobOk` | crates/televault-backup/src/engine.rs:268 | so does recording a job |
| `BackupSpec.StoredStable` | crates/televault-backup/src/engine.rs:148-294 | what was stored for one file survives the processing of another |
| `BackupSpec.TransferAddsUp` | crates/televault-backup/src/engine.rs:174-293 | record, save, transfer, save, bind: rows are exactly the manifest's entries, references included |
| `BackupSpec.LandedRestores` | crates/televault-backup/src/engine.rs:234-247 | reading the stored chunks back in order gives what was staged |
| `BackupPlan.DetectedPlanFits` | crates/televault-backup/src/engine.rs:50-66 | a detected plan fits the catalog its rows were read from |
| `BackupPlan.ProcessedIsUsable` | crates/televault-backup/src/engine.rs:164-172 | the pipeline's result is what the transfer needs: owned identifier, matching entries, the file's bytes and hash |
| `BackupPlan.AchieveOneMore` | crates/televault-backup/src/engine.rs:115-294 | carrying out one more change keeps all earlier ones and one version per file |
| `BackupPlan.LinkAchieves` | crates/televault-backup/src/engine.rs:115-138 | linking an unchanged file carries it out |
| `BackupPlan.TransferAchieves` | crates/televault-backup/src/engine.rs:148-294 | transferring a new or modified file carries it out |
| `BackupPlan.UpdateKeepsStanding` | crates/televault-backup/src/engine.rs:296-303 | marking a vanished file undoes nothing |
| `BackupPlan.FreeIsNotRefused` | crates/televault-backup/src/engine.rs:190-195 | if the places of all new files are free, the catalog refuses none of them at any point of the run |
| `BackupPlan.AccomplishedIsFree` | crates/televault-backup/src/engine.rs:190-195 | an accomplished plan had free places for all its new files |
| `BackupPlan.StandingAccomplishes` | crates/televault-backup/src/engine.rs:296-329 | with every scanned file done, the plan is accomplished and covered |
| `BackupResults.SnapshotListsScan` | crates/televault-db/src/db.rs:1081-1145 | every listing of the new snapshot holds exactly the scanned paths, once each, with the scan's size and time |
| `BackupResults.SameScanFindsNothing` | crates/televault-backup/src/change_detector.rs:116-187 | the same scan against such a listing is all Unchanged |
| `BackupResults.CrashThenReconcile` | crates/televault-db/src/db.rs:212-243 | from every state of every run: nothing in flight, complete only if covered, consistent, second reconcile (0, 0) |
| `BackupResults.PruneKeepsEntries` | crates/televault-db/src/db.rs:1905-1955 | pruning leaves every file's rows exactly its manifest's entries |
| `BackupResults.RepairKeepsEntries` | crates/televault-db/src/db.rs:2267-2343 | so does a consistent repair, references included |
| `BackupResults.FirstSaveSparesIffUnnamed` | crates/televault-backup/src/engine.rs:206-209 | the first save keeps every version's references exactly when no version names the manifest |
| `BackupResults.TouchedFileIsNotSpared` | crates/televault-backup/src/pipeline.rs:254-257 | a modified file with unchanged content is saved under its earlier version's manifest |
| `BackupResults.FreeIffNoneReturns` | crates/televault-backup/src/change_detector.rs:116-187 | the new files of a detected plan find their places free exactly when no scanned path returns and no two new ones share an identifier |
| `BackupResults.DeletedFileReturns` | crates/televault-backup/src/engine.rs:296-303 | a deleted file keeps its row, so its path returns in every later run compared with that snapshot |
| `BackupResults.DeletedFileExample` | crates/televault-backup/src/engine.rs:190-195 | concrete tables and runs in which this happens |
| `BackupResults.InterruptedFileReturns` | crates/televault-backup/src/engine.rs:190-195 | a new file whose run ended before its version was bound returns |
| `BackupResults.OtherProfilesFileReturns` | crates/televault-backup/src/change_detector.rs:190-199 | a path that another profile has returns, since identifiers depend on the path only |
| `Backup.BackupEngine.UploadStaged` | crates/televault-backup/src/engine.rs:231-238 | success stores the payload under a real reference and the queue knows the job as completed |
| `Backup.BackupEngine.StopIfCancelled` | crates/televault-backup/src/engine.rs:116-119 | reports a cancellation exactly if the token is cancelled, with the snapshot marked failed |
| `Backup.BackupEngine.RecordChunk` | crates/televault-backup/src/engine.rs:249-268 | the row of the chunk, and its job unless that fails |
| `Backup.BackupEngine.TransferChunk` | crates/televault-backup/src/engine.rs:212-268 | success adds exactly the chunk's row, with the provider's reference, and records the completed job unless that fails; a cancelled run uploads nothing and marks its snapshot failed |
| `Backup.BackupEngine.TransferChunks` | crates/televault-backup/src/engine.rs:212-272 | success adds exactly the rows of all entries; the manifest holds their references and restores the content; chunks and bytes are counted |
| `Backup.BackupEngine.SaveManifest` | crates/televault-db/src/db.rs:660-689 | only a well-formed manifest is saved, under its own file |
| `Backup.BackupEngine.ReadSource` | crates/televault-backup/src/engine.rs:158-172 | the processed file is the one of its path; an unreadable source is reported only if opening failed, a pipeline error only if a read failed or a chunk identifier is invalid |
| `Backup.BackupEngine.SaveInitial` | crates/televault-backup/src/engine.rs:206-209 | the first save; if a version names the manifest, that version has no references afterwards, nor after a crash and reconciliation |
| `Backup.BackupEngine.RecordFile` | crates/televault-backup/src/engine.rs:174-204 | the file's row is the one of this scan, its chunk rows are gone, nothing else changed |
| `Backup.BackupEngine.BindVersion` | crates/televault-backup/src/engine.rs:279-293 | adds exactly one version under a new identifier |
| `Backup.BackupEngine.TransferAndFinish` | crates/televault-backup/src/engine.rs:211-293 | rows, final manifest and version of one file, all of them or an error |
| `Backup.BackupEngine.TransferFile` | crates/televault-backup/src/engine.rs:148-294 | a new or modified file is stored, described and bound, and nothing of another file changed; a cancelled run touches no row but its snapshot |
| `Backup.BackupEngine.LinkUnchanged` | crates/televault-backup/src/engine.rs:116-138 | an unchanged file is bound to its earlier manifest; a cancelled run binds nothing |
| `Backup.BackupEngine.LinkAll` | crates/televault-backup/src/engine.rs:115-138 | the first pass carries out every unchanged file |
| `Backup.BackupEngine.TransferAll` | crates/televault-backup/src/engine.rs:140-294 | the second pass carries out every new and modified file |
| `Backup.BackupEngine.MarkDeleted` | crates/televault-backup/src/engine.rs:296-303 | the third pass undoes nothing, changes at most the rows of deleted files into their earlier row marked deleted, and marks all of them unless an update fails |
| `Backup.BackupEngine.FailSnapshot` | crates/televault-backup/src/engine.rs:345-352 | only the status of the run's snapshot changes, to failed, unless the update fails |
| `Backup.BackupEngine.ExecuteOpened` | crates/televault-backup/src/engine.rs:96-332 | three passes, completion and summary of an opened snapshot |
| `Backup.BackupEngine.ExecuteOrFail` | crates/televault-backup/src/engine.rs:87-94 | an error of the opened run marks its snapshot failed unless that update fails |
| `Backup.BackupEngine.ExecuteBackup` | crates/televault-backup/src/engine.rs:69-332 | Ok: the plan is accomplished, the snapshot complete and the summary that of the plan; Err: never complete in any state and marked failed unless an update fails; cancelled at the start: nothing happens; a cancellation is reported only if the token is cancelled; every committed state obeys the rules; a database error or unreadable source is reported only if one occurred |
| `Summaries.SentIsPlanned` | crates/televault-backup/src/engine.rs:270-271 | counted bytes never exceed the plan's transfer total, and equal it if the sources still hold what was scanned |
| `Summaries.SummaryAccountsForScan` | crates/televault-backup/src/engine.rs:305-321 | the summary's files are the scan's, and its transferred plus reused bytes the scan's bytes if the sources are complete, never more |
| `Summaries.SummaryTells` | crates/televault-backup/src/engine.rs:104-108 | new, modified, unchanged and deleted are the numbers of scanned files without a row, with a row of another size or time, with a row of equal size and time, and of rows not scanned; bytes are theirs; the identifiers are those given |
| `Summaries.SentAreAddedRows` | crates/televault-backup/src/engine.rs:249-271 | transferred chunks are the number of chunk rows of transferred files, and all other rows are as before |
| `Backup.BackupEngine.ExecuteProfileBackup` | crates/televault-backup/src/engine.rs:335-342 | after Ok the snapshot lists exactly the scan, the same scan finds nothing to do, the summary tells what scan and earlier rows amount to and its chunks are the rows added; after Err it was never complete; fails if a path returns, and otherwise no new file is refused; without failures vanished files are marked deleted |

## Left out

- Local-timezone schedules: they depend on the host's timezone database.
- Parsers of interval, daily and weekly expressions: schedules enter with their expression parsed; only cron text is modelled.
- Interval arithmetic beyond the range of chrono's instants: instants are unbounded integers.
- Due schedules are listed by instant, where the catalog compares the printed timestamps as text.
- Scheduler.SchedulerService.ExecuteSingle: the backup it runs is any result after any time, and the file and byte counts of a history record are left out.
- Scheduler.SchedulerService.RunGuarded: the file and byte counts of a history record are left out.
- Scheduler.SchedulerService.DuePass: rows hold parsed schedules, so skipping a record that does not parse is not modelled, nor is the sleep and notification logic around the pass.
- Queue.TransferQueue.SubmitJob: the error of a poisoned lock is not modelled.
- Queue.TransferQueue.CancelJob: the error of a poisoned lock is not modelled.
- Queue.TransferQueue.PopLive: the empty answer of a poisoned lock is not modelled.
- Queue.TransferQueue.AcquireNextJob: the empty answer of a poisoned lock is not modelled.
- Queue.TransferQueue.FinishJob: the silent return on a poisoned lock is not modelled.
- Queue.TransferQueue.RequeueJob: the silent return on a poisoned lock is not modelled.
- Manifest.Validate: the check of encryption metadata is not modelled.
- ChangeDetector.BytesConserved: totals are unbounded integers, where the program adds 64-bit values.
- Backup.Database.PruneSnapshots: the retention history record of the transaction is not modelled.
- Backup.Database.RepairChunk: the repair history record of the transaction is not modelled.
- Encryption, compression, key handling, JSON and hashing: the unencrypted pipeline is modelled with the digest as any function to 64 hexadecimal characters.
- Widths of counters that the program does not check, other than the year, step and chunk counts above, are unbounded integers.
- Paths follow the slash-separated rules; drive prefixes are not modelled.
- The context's file identifier is a byte sequence; its UTF-8 encoding is not modelled.
- Downloads, backoff times, progress callbacks and provider drivers: foreign calls or easy state assignments.
- Real references: that a provider answers with a proper, unused reference and keeps what it stored is an assumption (`realReferences`) of the claims about restoring.
- The elapsed time and error text of a backup summary, and the snapshot's metadata column.
- A chunk row's reference column holds the reference itself, where the program stores its debug text.
- A staged chunk is represented by its bytes until it is transferred; the staging file is then an object of its own.
- Plans are built from rows of the catalog that the run starts from; other writers during a run are not modelled.
- The SQL text, migrations, search and remaining tables; restore, retention and verification engines except the transactions they call.
- Scanning, filters, desktop commands, configuration and credentials.
