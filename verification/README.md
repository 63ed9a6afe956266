# Verified model of the platform's shared-table protocols

The platform keeps its long-running work in database tables and a Redis store,
and lets many processes work on them at once. This project models those
protocols in Dafny and proves what they keep, for every input and every
interleaving.

Each SQL statement, transaction or Redis command is one atomic step. Where a use
case makes several of them, the model has a state machine in which any number
of processes run the use case a step at a time, may crash between two steps,
and meet completions, sweeps and purges by anybody. The theorems are about all
runs of that machine. Beside each machine stand classes whose methods follow
the source's own repositories and use cases, run by one caller; their
postconditions are the statement functions the machine steps with, so the two
views speak about the same operations.

| area | machine and theorems | methods |
|---|---|---|
| batch operations | `BatchTables`, `BatchPipeline`, `BatchLiveness`, `BatchClosing`, `BatchStranded` | `BatchRepository` |
| recurring series | `Calendar`, `RecurrenceEngine`, `RecurringSeries`, `RecurringEvents` | `RecurrenceEngine`, `RecurringSeries` |
| idempotency | `Idempotency`, `IdempotencyClaims`, `IdempotencyAnswers`, `IdempotencyCache`, `IdempotencyReplays`, `IdempotencyHashes`, `IdempotencyKeys` | `IdempotencyRepository` |
| import | `ImportRows`, `ImportJobs`, `ImportValidation`, `ImportExecution`, `ImportWorkers`, `ImportVerdicts` | `ImportStages`, `ImportParse`, `CsvText` |
| inbox | `Inbox`, `InboxAnswers`, `InboxHistory`, `InboxRetries` | `InboxRepository` |
| outbox | `Outbox`, `OutboxHistory` | `OutboxRepository` |
| distributed lock | `DistributedLock` | `LockAdapter` |
| numbering | `Numbering` | `Numbering` |

The statements that machine and methods share are pinned down column by column in
`BatchStatements`, `IdempotencyStatements`, `ImportStatements`, `InboxStatements` and
`OutboxStatements`, and the cells and header rows of a sheet in `ImportCells`.

`Fencing` is the token discipline that batch and import rows share; both tables
are proved to refine it. `Common` holds small datatypes and set facts.

## Promises the code keeps only under a condition

- Idempotency claims are exclusive when each claim is written no later than
  ttl - lease after its call read the clock. A ttl of at least the lease is not
  enough: `LateClaimBreaksExclusivity` builds the violating run for every later
  claim.
- An ACQUIRED answer names the one live claim when a takeover is read back within a
  lease (`AcquiredMeansExclusive`). For every later read-back there is a run in which
  it hands out a dead reservation beside a live one
  (`LateReadBackBreaksExclusivity`). The same holds of late inbox answers
  (`LateAnswerBreaksExclusivity`).
- Cache entry and row expire together when the cache write lands in the tick its time
  to live was computed in (`LateCacheWriteDisagrees` for any later one). Replays stay
  those of the ledger up to one tick of lateness; from two ticks on a purged result
  can come back beside a newer claim (`LateCacheWriteIsVisible`).
- A cache hit replays without looking at the request hash. Up to one tick of lateness
  the cache is invisible exactly if no hit meets another hash
  (`CacheIsInvisibleExactly`), and any two different hashes can meet
  (`HashClashIsVisible`).
- A reclaim honours the inbox backoff in a run exactly if no failure and no sweep puts
  the row off between the read and the reclaim of a receive
  (`RunHonoursBackoffExactly`); both can happen as soon as there is a backoff
  (`FailureIsOverrun`, `SweepIsOverrun`).
- A TIME template that also names an event misses a date whenever that event fires
  it, so its run dates are a prefix of the grid exactly if no such firing precedes a
  later date (`PrefixLawExactly`).
- The first occurrence is never compared with the end date
  (`EndDateIsKeptExactly`), and a monthly or yearly series stops after 10000 dates
  (`WalkFailsExactly`).
- An import row that is claimed but gets neither a re-validation verdict nor an
  execution answer stays PROCESSING while the job is closed, possibly as
  COMPLETED (`CountersFallShortByTheSilent`).
- Even with handlers that answer every row, an import job can be COMPLETED over rows
  that then fail, exactly when execute workers overlap or crash
  (`CompletedCanBeUntrueExactly`): a worker that finds nothing left to claim does not
  look for rows another one holds.
- A handler that answers PENDING keeps the validation loop or the execution loop
  on the same rows for ever (`PendingVerdictsPinTheLoop`,
  `PendingAnswersPinTheLoop`).
- Fencing tokens are ordered like their draws. They are ordered like the holders when
  each is drawn before any later acquisition of the key, and a later acquirer that
  is still to draw can overtake (`LaterAcquirerCanOvertake`).
- A lock key can be the name of a fence counter exactly if the tenant is "fence" or
  begins with "fence:" (`LockMeetsFenceExactly`), and a number series is shared exactly if
  company or key holds the separator (`SeriesIsItsOwnExactly`).
- An idempotency identity shares its cache key exactly if some part of it holds the
  separator (`KeyIsItsOwnExactly`). The ledger tells all identities apart; the cache is
  invisible among those in use exactly if no two share a key
  (`CacheIsInvisibleAmongExactly`), and otherwise one is answered with the result of
  the other.
- A quoted CSV matrix comes back exactly if no record is without fields and no field
  holds a line feed (`QuotedMatrixComesBackExactly`).
- An open batch job with waiting rows can still be closed exactly if the reconciler may
  resume it, a message of it is queued, or a process carries it on
  (`OpenJobCanStillCloseExactly`). A synchronous job whose caller crashed stays open
  (`CrashedCallerStrandsSyncJob`), and so does a cancelled one whose messages were
  consumed while a dead worker's row was in flight (`LostMessageStrandsCancelledJob`).

## Where code and documentation differ

The model follows the code.

- The recurrence engine's comment cites RFC 5545, whose section 3.3.10 skips
  invalid dates. The code clamps to the last day of the month, which is
  SKIP=BACKWARD of section 4.1 of RFC 7529.
- The numbering documentation says the padding is frozen with the series. The
  code pads with the option of each call; only the prefix is frozen. The same
  document allows gaps, from rolled-back callers; without rollbacks there are none.
- The idempotency adapter's comment says cache and row expire together. The time to
  live is computed one step before it is used, so they do only under the condition
  above.
- The inbox sweep is described as parking poison. It parks only claims that
  expired, because `fail` clears the claim time (`OnlySilentClaimsAreParked`).

## Model

| member | source | states |
|---|---|---|
| BatchPipeline.CountersHoldInEveryInterleaving | src/platform/platform-common/batch-operation/repositories/prisma-batch-operation-job.repository.ts:155-308 | In every interleaving of submissions, chunk workers, cancel requests and the reconciler each job has as many rows as its total, processed is success + failed + skipped, every counter is row truth while the job is open, only skipped lags afterwards (by the abandoned rows), and a recount changes nothing |
| BatchPipeline.RecountChangesNothing | src/platform/platform-common/batch-operation/repositories/prisma-batch-operation-job.repository.ts:155-176 | The reconciler recount changes no state that any interleaving can reach |
| BatchPipeline.CancelDecisionIsSafe | src/platform/platform-common/batch-operation/batch-operation.worker.ts:38-55 | If the processed counter read first and the PENDING rows read later reach the total, no row is PROCESSING at the second read, whatever ran in between |
| BatchPipeline.FinalisedVerdictIsForever | src/platform/platform-common/batch-operation/repositories/prisma-batch-operation-job.repository.ts:114-134 | A job closed by finaliseJob has all rows settled and its verdict is the verdict of the rows, then and in every later state |
| BatchPipeline.TerminalIsForever | src/platform/platform-common/batch-operation/repositories/prisma-batch-operation-job.repository.ts:126-154 | A closed job never changes status and a settled row never changes at all |
| BatchPipeline.OneCompletionEventPerJob | src/platform/platform-common/batch-operation/batch-operation.worker.ts:57-63 | However many workers and reconcilers race, a job has at most one completion event, and it carries the final status |
| BatchPipeline.CompletedMeansEveryRowSettled | src/platform/platform-common/batch-operation/repositories/prisma-batch-operation-job.repository.ts:114-125 | COMPLETED and COMPLETED_WITH_ERRORS are reached through finaliseJob alone: every row is settled, COMPLETED exactly when none failed, and errors come with a success |
| BatchPipeline.RowsAreFencedInEveryInterleaving | src/platform/platform-common/batch-operation/repositories/prisma-batch-operation-job.repository.ts:237-288 | Claim tokens of a row increase, at most one settlement lands and it belongs to the latest claim, in every interleaving |
| BatchClosing.OpenJobCanStillCloseExactly | src/platform/platform-common/batch-operation/batch-operation-reconciliation.consumer.ts:63-110 | From every reachable state, with messages delivered any number of times, consumed or lost: an open job can still be closed by some continuation if and only if it has no waiting row, or is asynchronous and has not been asked to cancel, or a message of it is queued, or a process works on it, other than a worker about to decide a cancel on counters that are out of date |
| BatchClosing.QuietJobCanStillCloseExactly | src/platform/platform-common/batch-operation/batch-operation-reconciliation.consumer.ts:63-110 | In particular an open job that nobody works on and that has no message left in the queue can still be closed if and only if it has no waiting row, or is asynchronous and has not been asked to cancel |
| BatchLiveness.ResumableJobCanBeFinished | src/platform/platform-common/batch-operation/batch-operation-reconciliation.consumer.ts:63-110 | From every reachable state the reconciler and a worker can still finish an open asynchronous job that nobody asked to cancel |
| BatchLiveness.CancelClosesIdleJob | src/platform/platform-common/batch-operation/usecases/cancel-batch-operation-job.usecase.ts:35-49 | A cancel request closes an open job that has no waiting row |
| BatchStranded.CrashedCallerStrandsSyncJob | src/platform/platform-common/batch-operation/usecases/create-batch-operation-job.usecase.ts:96-100 | A synchronous submission whose caller crashes leaves a job that no continuation closes |
| BatchStranded.LostMessageStrandsCancelledJob | src/platform/platform-common/batch-operation/batch-operation.worker.ts:38-55 | So does, for every submission of two or more records sent in two messages, this run: a worker claims the first row and dies, the job is cancelled, the workers of both messages stop because a row is in flight and the messages are consumed, and a reset hands the row back; then every row waits and no continuation closes the job |
| BatchTables.CountersMatchRows | src/platform/platform-common/batch-operation/repositories/prisma-batch-operation-job.repository.ts:247-288 | The counter facts for every sequence of statements, not only those the use cases produce |
| BatchTables.RecountIsIdentity | src/platform/platform-common/batch-operation/repositories/prisma-batch-operation-job.repository.ts:155-176 | A recount is the identity on every state with well-formed tables and true counters |
| BatchTables.HeaderVerdictIsRowVerdict | src/platform/platform-common/batch-operation/repositories/prisma-batch-operation-job.repository.ts:119-124 | The verdict derived from the counters is the verdict read off the rows |
| BatchTables.BatchRowsAreFenced | src/platform/platform-common/batch-operation/repositories/prisma-batch-operation-job.repository.ts:237-308 | Every run of the statements refines the token-fencing machine |
| BatchStatements.ResetWrites | src/platform/platform-common/batch-operation/repositories/prisma-batch-operation-job.repository.ts:290-299 | A row goes back to PENDING, under its next token, if and only if it was PROCESSING, last written before the cutoff, and its job is PENDING or RUNNING; nothing else changes |
| BatchStatements.YoungClaimSurvives | src/platform/platform-common/batch-operation/repositories/prisma-batch-operation-job.repository.ts:237-299 | A row claimed at a time is still held under that claim after any statements of anybody, as long as nobody settles it, its job stays open and no reset has a later cutoff |
| BatchStatements.AbandonWrites | src/platform/platform-common/batch-operation/repositories/prisma-batch-operation-job.repository.ts:300-308 | The second reconcile statement skips exactly the PROCESSING rows of ended jobs and marks them abandoned |
| BatchStatements.ClaimWrites | src/platform/platform-common/batch-operation/repositories/prisma-batch-operation-job.repository.ts:237-245 | A claim takes the named row if it is PENDING, under its next token and the present time |
| BatchStatements.SettleWrites | src/platform/platform-common/batch-operation/repositories/prisma-batch-operation-job.repository.ts:247-288 | A settlement lands if and only if the row is held under the token; then, and only then, the header counts it under its outcome |
| BatchStatements.StatusWrites | src/platform/platform-common/batch-operation/repositories/prisma-batch-operation-job.repository.ts:107-153 | Which statement writes which status and flag of a job, and when |
| BatchStatements.CreateWrites | src/platform/platform-common/batch-operation/repositories/prisma-batch-operation-job.repository.ts:30-67 | The columns of a new job and of its rows |
| BatchStatements.VerdictMeans | src/platform/platform-common/batch-operation/repositories/prisma-batch-operation-job.repository.ts:114-125 | COMPLETED without a failed row, FAILED with failed rows and no success, COMPLETED_WITH_ERRORS with both |
| BatchStatements.RecountWrites | src/platform/platform-common/batch-operation/repositories/prisma-batch-operation-job.repository.ts:155-176 | A recount gives every open job with rows its counters from the rows, whatever they were, and touches no other |
| BatchClosing.MachineChecksAlone | src/platform/platform-common/batch-operation/batch-operation.worker.ts:38-64 | Left alone, a worker of the machine at its closing check does what the sequential check does |
| BatchStatements.MachineHandlesRow | src/platform/platform-common/batch-operation/usecases/process-batch-operation-row.usecase.ts:38-89 | Left alone, a worker of the interleaved machine claims a waiting row and settles it with the outcome of its handler, and touches no other |
| BatchStatements.MachineHandsBack | src/platform/platform-common/batch-operation/usecases/process-batch-operation-row.usecase.ts:44-56 | A cancel that lands between claim and handler ends the row SKIPPED |
| BatchRepository.BatchOperationRepository.CreateJobWithRows | src/platform/platform-common/batch-operation/repositories/prisma-batch-operation-job.repository.ts:30-67 | One header and one PENDING row per entity; the ids of the new rows |
| BatchRepository.BatchOperationRepository.MarkJobRunning | src/platform/platform-common/batch-operation/repositories/prisma-batch-operation-job.repository.ts:107-112 | PENDING and not cancelled becomes RUNNING, nothing else changes |
| BatchRepository.BatchOperationRepository.FinaliseJob | src/platform/platform-common/batch-operation/repositories/prisma-batch-operation-job.repository.ts:114-134 | Answers the job exactly to the caller whose CAS closed it, with the header verdict |
| BatchRepository.BatchOperationRepository.FinaliseCancelled | src/platform/platform-common/batch-operation/repositories/prisma-batch-operation-job.repository.ts:136-146 | Closes an open job as CANCELLED and answers it to the caller that did |
| BatchRepository.BatchOperationRepository.MarkJobFailed | src/platform/platform-common/batch-operation/repositories/prisma-batch-operation-job.repository.ts:148-153 | Closes an open job as FAILED |
| BatchRepository.BatchOperationRepository.ClaimRow | src/platform/platform-common/batch-operation/repositories/prisma-batch-operation-job.repository.ts:237-245 | A PENDING row becomes PROCESSING under the next token, which is answered |
| BatchRepository.BatchOperationRepository.SettleRow | src/platform/platform-common/batch-operation/repositories/prisma-batch-operation-job.repository.ts:247-288 | Row status and header counters move together, only under the presented token |
| BatchRepository.BatchOperationRepository.ResetStuckRows | src/platform/platform-common/batch-operation/repositories/prisma-batch-operation-job.repository.ts:290-308 | Both reconcile statements, row by row: rows held since before the cutoff under open jobs are handed back, held rows of ended jobs are skipped, every other row stays; the answer is the number handed back |
| BatchRepository.BatchOperationRepository.RecountJobCounters | src/platform/platform-common/batch-operation/repositories/prisma-batch-operation-job.repository.ts:155-176 | Open jobs with rows get their counters from the rows; the number of jobs that differed |
| BatchRepository.ProcessRow | src/platform/platform-common/batch-operation/usecases/process-batch-operation-row.usecase.ts:38-89 | One row with both cancel checks: a waiting row of a job not cancelled ends with the outcome, or SKIPPED when a cancel lands after the claim; any other row stays; and which answer each case gets |
| BatchRepository.FinaliseIfComplete | src/platform/platform-common/batch-operation/batch-operation.worker.ts:38-64 | Closes with the rows' verdict when all are settled, as CANCELLED when a cancel is wanted and nothing is in flight, otherwise leaves the job alone |
| BatchRepository.ProcessChunk | src/platform/platform-common/batch-operation/batch-operation.worker.ts:25-36 | A worker alone, in whatever state it finds the job: which rows move and how, and when and how the job is closed |
| BatchRepository.SelectEntities | src/platform/platform-common/batch-operation/usecases/create-batch-operation-job.usecase.ts:50 | The distinct non-blank ids, no other, in the order in which the input first names them |
| BatchRepository.CreateBatchOperation | src/platform/platform-common/batch-operation/usecases/create-batch-operation-job.usecase.ts:35-113 | Rejects empty and oversized selections unchanged; a small selection ends as a finished job with one settled row per distinct record; a large one waits PENDING, or, when the queue cannot be reached, is closed as FAILED over PENDING rows and the call fails |
| Calendar.AddDaysCountsExactly | src/platform/platform-common/recurring/recurrence-engine.ts:53-56 | Adding n days moves the proleptic Gregorian day count by exactly n |
| Calendar.ClampSkipsBackward | src/platform/platform-common/recurring/recurrence-engine.ts:53-56 | The anchor day where the target month has it, and otherwise the day whose next day begins the month after |
| Calendar.GridIsMonotone | src/platform/platform-common/recurring/recurrence-engine.ts:38-47 | Clamped month and year steps, and day steps, are strictly increasing in the step number |
| Calendar.StepWithoutAnchorExactly | src/platform/platform-common/recurring/recurrence-engine.ts:38-40 | A plain step from one month or year date lands on the next if and only if the month it leaves had the anchor day or is at least as long as the one it enters |
| Calendar.DayGridSteps | src/platform/platform-common/recurring/recurrence-engine.ts:53-56 | Stepping from a day or week grid date lands on the next grid date |
| Calendar.DayGridCounts | src/platform/platform-common/recurring/recurrence-engine.ts:10-15 | The k-th date of a daily series is interval * k days after the anchor, and of a weekly one 7 * (interval * k) days |
| Calendar.StepMeans | src/platform/platform-common/recurring/recurrence-engine.ts:10-15 | One step of n units is n days, 7n days, n months, or n years, with the day clamped to the month |
| Calendar.GridKeepsAnchorDay | src/platform/platform-common/recurring/recurrence-engine.ts:38-47 | The k-th date of a monthly or yearly series lies k * interval months or years on, with the anchor day where that month has it and else its last day |
| Calendar.BeforeCountsLess | src/platform/platform-common/recurring/recurrence-engine.ts:44-46 | Dates are ordered exactly like their day counts |
| Calendar.OrdinalInClosedForm | src/platform/platform-common/recurring/recurrence-engine.ts:53-56 | The day count is the closed form of the Gregorian calendar with years that begin in March, in which no month length occurs |
| Calendar.FebruaryLength | src/platform/platform-common/recurring/recurrence-engine.ts:53-56 | February has 29 days if and only if 400 divides the year, or 4 does and 100 does not |
| RecurrenceEngine.NextRunDate | src/platform/platform-common/recurring/recurrence-engine.ts:26-57 | The bounded search meets its specification, and in days and months: interval days or 7 * interval days after the given date; that many months or years after it without an anchor; a multiple of them, at most 10000, after the anchor with one; an error exactly for an interval that is not positive or a walk used up |
| RecurrenceEngine.SpecIsFunctional | src/platform/platform-common/recurring/recurrence-engine.ts:26-57 | The specification determines the answer |
| RecurrenceEngine.AnswerIsLeastGridDate | src/platform/platform-common/recurring/recurrence-engine.ts:40-47 | With an anchor the answer is strictly after `from`, and no grid date lies between |
| RecurrenceEngine.AnswerMovesForward | src/platform/platform-common/recurring/recurrence-engine.ts:53-56 | Without an anchor the answer is strictly after `from` |
| RecurrenceEngine.WalkFailsExactly | src/platform/platform-common/recurring/recurrence-engine.ts:48-50 | The walk fails if and only if its 10000th candidate is not after `from` |
| RecurrenceEngine.WeeklyAnswerStaysOnGrid | src/platform/platform-common/recurring/recurrence-engine.ts:53-56 | From whole intervals of weeks after the anchor, the answer lies exactly one interval of weeks further |
| RecurrenceEngine.EngineFollowsGrid | src/platform/platform-common/recurring/recurrence-engine.ts:26-57 | From the k-th date of a series the engine answers the next one, until the walk is used up |
| RecurringSeries.RunDatesAreGridPrefix | src/platform/platform-common/recurring/recurring-generation.handler.ts:49-183 | However often and in whatever order a TIME template is fired, paused, cancelled, reported on or swept, its run dates are a prefix of the clamped grid and each has at most one event |
| RecurringSeries.EndDateIsKeptExactly | src/platform/platform-common/recurring/recurring-generation.handler.ts:175-179 | No run date is past the end date if and only if the series has not run or starts on or before it |
| RecurringSeries.ActiveFiringAdvances | src/platform/platform-common/recurring/recurring-generation.handler.ts:110-159 | A firing of an active template claims the next grid date, appends its event exactly if the condition passes, and stays active exactly if the following date is not past the end |
| RecurringSeries.FiringIsExact | src/platform/platform-common/recurring/recurring-generation.handler.ts:49-183 | m firings run exactly the next m occurrences, or all that are left |
| RecurringSeries.SeriesFromCreationIsExact | src/platform/platform-common/recurring/recurring-generation.handler.ts:49-183 | m firings from creation run exactly the first m occurrences there are |
| RecurringSeries.SettledExecutionsStay | src/platform/platform-common/recurring/repositories/prisma-recurring-execution.repository.ts:83-116 | A settled execution never changes again |
| RecurringSeries.FiringWrites | src/platform/platform-common/recurring/recurring-generation.handler.ts:113-186 | A firing on an active template: the execution is IN_PROGRESS, SKIPPED by its condition or FAILED as the condition passes, is not met or throws; the event is appended in the first case only; the template notes its run date and moves on, or completes past the end |
| RecurringSeries.OtherFiringsWrite | src/platform/platform-common/recurring/recurring-generation.handler.ts:90-112 | A claimed key and an engine error change nothing; on a template that is not active the execution is skipped |
| RecurringSeries.ReportWrites | src/platform/platform-common/recurring/repositories/prisma-recurring-execution.repository.ts:67-120 | Consumer reports and the stale sweep write executions in progress only |
| RecurringEvents.EventFiringSkipsADate | src/platform/platform-common/recurring/recurring-generation.handler.ts:68-70 | With or without an end date, an event that fires first takes the place of the start date: the next firing runs the second date, or skips the start date if the event has completed the series |
| RecurringEvents.RunDatesOfListener | src/platform/platform-common/recurring/recurring-generation.handler.ts:49-183 | For every template, listening or not, the run dates are a strictly increasing part of the grid, missing exactly the dates whose place an event firing took; each date has at most one event and a missing one none |
| RecurringEvents.PrefixLawExactly | src/platform/platform-common/recurring/recurring-generation.handler.ts:68-70 | The run dates are a prefix of the grid if and only if no event firing took the place of a date before a later date ran |
| RecurringSeries.RecurringGenerationHandler.Claim | src/platform/platform-common/recurring/repositories/prisma-recurring-execution.repository.ts:24-48 | Insert-as-claim on the unique trigger key |
| RecurringSeries.RecurringGenerationHandler.SettleIfInProgress | src/platform/platform-common/recurring/repositories/prisma-recurring-execution.repository.ts:96-116 | Terminal writes touch an IN_PROGRESS execution only |
| RecurringSeries.RecurringGenerationHandler.Reschedule | src/platform/platform-common/recurring/recurring-generation.handler.ts:161-183 | The template moves to the engine's next date or completes; an engine error is reported |
| RecurringSeries.RecurringGenerationHandler.HandleFiring | src/platform/platform-common/recurring/recurring-generation.handler.ts:49-159 | Claim, condition, event and reschedule as one transaction, rolled back whole on an engine error |
| Fencing.FencingHolds | src/platform/platform-common/import/repositories/prisma-import-job-row.repository.ts:85-159 | For any rows and any operations by anybody: claim tokens increase, one settlement per row, by the latest claim |
| Fencing.OvertakenClaimNeverLands | src/platform/platform-common/batch-operation/repositories/prisma-batch-operation-job.repository.ts:247-274 | A claim whose token has been overtaken never settles anything again |
| Fencing.ResetVoidsEarlierClaims | src/platform/platform-common/batch-operation/repositories/prisma-batch-operation-job.repository.ts:290-299 | A reset overtakes every claim ever made on the rows it hands back |
| IdempotencyClaims.ClaimsAreExclusive | src/platform/platform-common/idempotency/usecases/reserve-idempotency.usecase.ts:50-105 | No claim on an identity is written to the ledger while an earlier one is unsettled and inside its lease, in every run whose claims are written early enough that the row outlives the lease; what the ACQUIRED answers mean is stated in IdempotencyAnswers |
| IdempotencyClaims.LateClaimBreaksExclusivity | src/platform/platform-common/idempotency/usecases/reserve-idempotency.usecase.ts:33-34 | With a claim written later than ttl - lease after the clock was read, a purge and a second claim fit inside the first lease; ttl >= lease alone is not enough |
| IdempotencyAnswers.PromptAnswersAreExclusive | src/platform/platform-common/idempotency/usecases/reserve-idempotency.usecase.ts:50-105 | In every run of timely claims an ACQUIRED answer read back within a lease of its takeover owns the row, and every other claim on the identity is settled or over, unless somebody has already settled under its token |
| IdempotencyAnswers.AcquiredMeansExclusive | src/platform/platform-common/idempotency/usecases/reserve-idempotency.usecase.ts:101-103 | With reservations settled only by those they were answered to, every such answer owns its row and is the one live claim |
| IdempotencyAnswers.LateReadBackBreaksExclusivity | src/platform/platform-common/idempotency/repositories/prisma-idempotency.repository.ts:99-137 | For every read-back later than a lease after its takeover there is a run of timely claims in which it answers ACQUIRED with a dead reservation while another claim is live |
| IdempotencyAnswers.AnswerOwnsOrIsDead | src/platform/platform-common/idempotency/repositories/prisma-idempotency.repository.ts:125-136 | However late it comes, an answered reservation owns its row or can never complete or delete anything |
| IdempotencyAnswers.AnsweredReservationsFindTheirRow | src/platform/platform-common/idempotency/repositories/prisma-idempotency.repository.ts:140-179 | For every reservation ever answered, completing or failing the row found by id is completing or failing the row of its identity |
| IdempotencyClaims.DeadForever | src/platform/platform-common/idempotency/repositories/prisma-idempotency.repository.ts:140-179 | A reservation that no longer owns its row can neither complete nor delete anything, ever |
| IdempotencyClaims.TakeoverKills | src/platform/platform-common/idempotency/repositories/prisma-idempotency.repository.ts:99-137 | A takeover ends the reservation it takes the row from, for good |
| IdempotencyClaims.OneSettlementPerRow | src/platform/platform-common/idempotency/repositories/prisma-idempotency.repository.ts:140-179 | In every run each stored row is completed or released at most once and shows the result it was completed with |
| IdempotencyClaims.StoredResultIsFinal | src/platform/platform-common/idempotency/repositories/prisma-idempotency.repository.ts:182-187 | A stored row stays exactly as it is until it is past its expiry |
| IdempotencyCache.CacheAgreesWithLedger | src/platform/platform-common/idempotency/usecases/complete-idempotency.usecase.ts:21-36 | Whenever the cache holds a live entry the ledger row is COMPLETED with that result and that expiry, in every run, about identities that do not share cache keys, whose cache writes land in the tick their time to live was computed in |
| IdempotencyCache.LatenessIsTheSlack | src/platform/platform-common/idempotency/usecases/complete-idempotency.usecase.ts:32-35 | Among identities that do not share cache keys, and with cache writes at most d ticks late, an entry with d ticks to live mirrors a COMPLETED row whose expiry precedes its own by at most d |
| IdempotencyCache.CacheShowsLedgerResults | src/platform/platform-common/idempotency/usecases/complete-idempotency.usecase.ts:21-36 | Among identities that do not share cache keys, and with cache writes at most one tick late, every live entry is the result of the COMPLETED row |
| IdempotencyCache.LateCacheWriteDisagrees | src/platform/platform-common/idempotency/usecases/complete-idempotency.usecase.ts:32-35 | For every cache write that lands any later there is a run from the initial state in which entry and row expire apart |
| IdempotencyReplays.LateCacheWriteOutlivesRow | src/platform/platform-common/idempotency/usecases/reserve-idempotency.usecase.ts:85-89 | For every cache write two or more ticks late there is a run from the initial state in which the entry is live although its row has been purged |
| IdempotencyReplays.ReplaysAreLatestResults | src/platform/platform-common/idempotency/usecases/reserve-idempotency.usecase.ts:44-48 | Among identities that do not share cache keys, and with cache writes at most one tick late, every replay, from either store, is the result of the latest claim on the identity |
| IdempotencyReplays.LateCacheWriteIsVisible | src/platform/platform-common/idempotency/usecases/reserve-idempotency.usecase.ts:85-91 | For every cache write two or more ticks late there is a run that replays a purged result beside a newer claim, with answers no run without the cache can give |
| IdempotencyCache.CacheIsInvisible | src/platform/platform-common/idempotency/usecases/reserve-idempotency.usecase.ts:44-48 | Every run, about identities that do not share cache keys, whose cache writes are at most one tick late, if no hit meets another request hash, ends in the same state with the same answers as a run in which no reserve reads the cache |
| IdempotencyHashes.CacheIsInvisibleExactly | src/platform/platform-common/idempotency/usecases/reserve-idempotency.usecase.ts:44-48 | For every run, about identities that do not share cache keys, whose cache writes are at most one tick late: some run in which no reserve reads the cache has its answers (and its whole state) if and only if no hit meets a row stored under another request hash |
| IdempotencyHashes.HashClashIsVisible | src/platform/platform-common/idempotency/usecases/reserve-idempotency.usecase.ts:45-48 | For every two requests on one identity with different non-empty hashes there is a run from the initial state, every cache write in its own tick, that replays the result of the one to the other, with answers no run without the cache can give |
| IdempotencyHashes.LedgerKeepsHashes | src/platform/platform-common/idempotency/usecases/reserve-idempotency.usecase.ts:76-83 | In every run in which no reserve reads the cache, where a replay's request and the latest settlement of its identity both carry a non-empty hash, the two are the same text |
| IdempotencyCache.CacheIsInvisibleToHashlessCalls | src/platform/platform-common/idempotency/usecases/reserve-idempotency.usecase.ts:44-48 | For requests without a hash, about identities that do not share cache keys, the cache is invisible in every run whose cache writes are at most one tick late |
| IdempotencyCache.HitSkipsHashCheck | src/platform/platform-common/idempotency/usecases/reserve-idempotency.usecase.ts:45-48 | The step at which it happens: a hit under another hash replays where the inspection of the ledger answers KEY_MISMATCH |
| IdempotencyKeys.CacheIsInvisibleAmongExactly | src/platform/platform-common/idempotency/adapters/redis-idempotency-cache.adapter.ts:28-33 | For any set of identities: every run about them, with cache writes at most one tick late and no hit under another request hash, has the answers of some run without the cache if and only if no two of them share a cache key |
| IdempotencyKeys.ResultCrossesOver | src/platform/platform-common/idempotency/usecases/reserve-idempotency.usecase.ts:44-48 | For any two identities that share a cache key there is a run, every cache write in its own tick and no request with a hash, that answers one with the result of the other, which no run without the cache does |
| IdempotencyCache.CleanIdentitiesAreApart | src/platform/platform-common/idempotency/adapters/redis-idempotency-cache.adapter.ts:28-33 | Identities without the separator in tenant, company and scope never share a cache key |
| Idempotency.KeyIsItsOwnExactly | src/platform/platform-common/idempotency/adapters/redis-idempotency-cache.adapter.ts:28-33 | Among all identities one has its cache key to itself if and only if no part of it holds the separator |
| Idempotency.SeparatorCollides | src/platform/platform-common/idempotency/adapters/redis-idempotency-cache.adapter.ts:28-33 | A separator in the tenant, company, scope or key gives another identity the same cache key |
| Idempotency.HashesDifferExactly | src/platform/platform-common/idempotency/usecases/reserve-idempotency.usecase.ts:77-81 | Hashes differ if and only if both are present and not empty and the texts are unequal |
| IdempotencyStatements.InspectionDecides | src/platform/platform-common/idempotency/usecases/reserve-idempotency.usecase.ts:62-91 | What a process of the machine that inspects the row answers, by the two hashes and the status |
| IdempotencyStatements.InsertWrites | src/platform/platform-common/idempotency/repositories/prisma-idempotency.repository.ts:72-92 | The columns of a claim on a free identity; a taken one stays as it is |
| IdempotencyStatements.TakeoverWrites | src/platform/platform-common/idempotency/repositories/prisma-idempotency.repository.ts:99-124 | A takeover moves the row if and only if it is IN_PROGRESS since before the cutoff; id and hash stay |
| IdempotencyStatements.CompleteWrites | src/platform/platform-common/idempotency/repositories/prisma-idempotency.repository.ts:140-166 | A completion stores the result on exactly the IN_PROGRESS row of that id, token and version |
| IdempotencyStatements.FailDeletes | src/platform/platform-common/idempotency/repositories/prisma-idempotency.repository.ts:169-179 | A release deletes exactly that row |
| IdempotencyStatements.PurgeDeletes | src/platform/platform-common/idempotency/repositories/prisma-idempotency.repository.ts:182-187 | A purge deletes exactly the rows whose expiry has passed |
| IdempotencyStatements.SettlingDecides | src/platform/platform-common/idempotency/usecases/complete-idempotency.usecase.ts:21-36 | A settling process whose reservation still owns its row settles it and goes on to the cache; any other is done |
| IdempotencyStatements.CompletionGoesOn | src/platform/platform-common/idempotency/usecases/complete-idempotency.usecase.ts:27-36 | A completion that landed writes what is left of its row's life to the cache, if anything is |
| IdempotencyRepository.PrismaIdempotencyRepository.InsertClaim | src/platform/platform-common/idempotency/repositories/prisma-idempotency.repository.ts:72-92 | Insert-as-claim on the unique identity; none on a duplicate, and on a call that failed, with or without its effect |
| IdempotencyRepository.PrismaIdempotencyRepository.TakeoverExpiredClaim | src/platform/platform-common/idempotency/repositories/prisma-idempotency.repository.ts:99-137 | Takes over an IN_PROGRESS row claimed before the cutoff, with a new token and version |
| IdempotencyRepository.PrismaIdempotencyRepository.CompleteCas | src/platform/platform-common/idempotency/repositories/prisma-idempotency.repository.ts:140-166 | Stores the result on the row found by id, token and version; answers its expiry |
| IdempotencyRepository.PrismaIdempotencyRepository.FailDeleteCas | src/platform/platform-common/idempotency/repositories/prisma-idempotency.repository.ts:169-179 | Deletes the row found by id, token and version |
| IdempotencyRepository.PrismaIdempotencyRepository.PurgeExpired | src/platform/platform-common/idempotency/repositories/prisma-idempotency.repository.ts:182-187 | Deletes exactly the expired rows and counts them |
| IdempotencyRepository.RedisIdempotencyCache.Get | src/platform/platform-common/idempotency/adapters/redis-idempotency-cache.adapter.ts:35-48 | A live value, or nothing when expired, missing or unreachable |
| IdempotencyRepository.RedisIdempotencyCache.Set | src/platform/platform-common/idempotency/adapters/redis-idempotency-cache.adapter.ts:50-61 | Stores with the time to live; nothing when it is not positive or the server is away |
| IdempotencyRepository.RedisIdempotencyCache.Delete | src/platform/platform-common/idempotency/adapters/redis-idempotency-cache.adapter.ts:63-73 | Evicts when the server answers |
| IdempotencyRepository.IdempotencyUseCases.Reserve | src/platform/platform-common/idempotency/usecases/reserve-idempotency.usecase.ts:31-106 | Cache, insert, inspection, and the second insert when the row is missing: the first that decides gives the answer and the new contents of both stores, for every way the inserts may fail; on a cache miss an existing row is answered as Inspect says |
| IdempotencyRepository.IdempotencyUseCases.Inspect | src/platform/platform-common/idempotency/usecases/reserve-idempotency.usecase.ts:76-105 | KEY_MISMATCH if and only if row and request both carry a non-empty hash and the texts differ; then the stored result with back-fill; then the row if its claim is older than the lease; else BUSY |
| IdempotencyRepository.IdempotencyUseCases.Complete | src/platform/platform-common/idempotency/usecases/complete-idempotency.usecase.ts:21-36 | Ledger and cache change together, or not at all when ownership was lost |
| IdempotencyRepository.IdempotencyUseCases.Fail | src/platform/platform-common/idempotency/usecases/fail-idempotency.usecase.ts:22-34 | Row and cache entry go together, or not at all when ownership was lost |
| IdempotencyRepository.MachineReservesAlone | src/platform/platform-common/idempotency/usecases/reserve-idempotency.usecase.ts:31-106 | Uninterrupted, the interleaved reserve process does exactly what the sequential one does |
| ImportRows.ImportRowsAreFenced | src/platform/platform-common/import/repositories/prisma-import-job-row.repository.ts:85-223 | Every run of claims, settlements, resets and abandonments without a re-parse refines the token-fencing machine, so row fencing holds |
| ImportRows.SettledIsForever | src/platform/platform-common/import/repositories/prisma-import-job-row.repository.ts:136-159 | A settled row keeps its outcome and token in every later state |
| ImportRows.ResetVoidsTheClaim | src/platform/platform-common/import/repositories/prisma-import-job-row.repository.ts:202-212 | After a reset the former worker can settle nothing, whatever happens in between |
| ImportRows.ClaimRowsEffect | src/platform/platform-common/import/repositories/prisma-import-job-row.repository.ts:105-119 | A claim of several rows moves exactly the claimable ones among them, each under its next token |
| ImportRows.SettleAllEffect | src/platform/platform-common/import/repositories/prisma-import-job-row.repository.ts:136-159 | A batch of settlements leaves each held row with the first one that names it under its token and moves it |
| ImportRows.LandedCountsTheFreed | src/platform/platform-common/import/repositories/prisma-import-job-row.repository.ts:136-159 | With final statuses, the settlements that land are as many as the rows they take out of PROCESSING |
| ImportRows.ApplyVerdictsEffect | src/platform/platform-common/import/repositories/prisma-import-job-row.repository.ts:124-134 | A batch of verdicts leaves each row with the last one that names it |
| ImportRows.LowestLeavesOutTheHigher | src/platform/platform-common/import/repositories/prisma-import-job-row.repository.ts:110-116 | A row is left out of a claim only if the batch is full of lower rows |
| ImportJobs.EndedIsForever | src/platform/platform-common/import/repositories/prisma-import-job.repository.ts:203-217 | An ended job keeps status and history and writes no further terminal event |
| ImportJobs.AtMostOneTerminalEvent | src/platform/platform-common/import/repositories/prisma-import-job.repository.ts:189-229 | However many finalisers race, at most one terminal event is written, and it names the state the job ends in |
| ImportJobs.HistoryEndsInStatus | src/platform/platform-common/import/repositories/prisma-import-job.repository.ts:132-140 | The history only grows and its last entry names the current state |
| ImportJobs.CountersMissTheOpen | src/platform/platform-common/import/repositories/prisma-import-job.repository.ts:285-308 | After a recount the outcome counters miss exactly the rows left PROCESSING, and whether all others are APPLIED shows in them |
| ImportExecution.PassDecides | src/platform/platform-common/import/usecases/run-import-execution.usecase.ts:90-167 | For every row: what one pass of the loop settles it with, given arbitrary verdicts and answers |
| ImportExecution.PassEffect | src/platform/platform-common/import/usecases/run-import-execution.usecase.ts:87-167 | One pass moves exactly the claimed rows, each to its own outcome |
| ImportExecution.PassShrinks | src/platform/platform-common/import/usecases/run-import-execution.usecase.ts:75-88 | The measure of the loop: each pass uses up the rows it claims |
| ImportExecution.PendingAnswersPinTheLoop | src/platform/platform-common/import/repositories/prisma-import-job-row.repository.ts:136-157 | A handler that answers PENDING hands the same rows back for ever, hence the restriction to final answers |
| ImportExecution.DrainedRunSettlesExactlyTheAnswered | src/platform/platform-common/import/usecases/run-import-execution.usecase.ts:74-181 | A run neither cancelled nor aborted settles every VALID row but those that got neither a verdict nor an answer, and leaves exactly those PROCESSING |
| ImportExecution.OneVerdictPerRowIsEnough | src/platform/platform-common/import/usecases/run-import-execution.usecase.ts:103-116 | A verdict for every claimed row leaves none behind |
| ImportExecution.CountersFallShortByTheSilent | src/platform/platform-common/import/usecases/run-import-execution.usecase.ts:171-178 | The closing counters fall short of the total by exactly the rows left behind; COMPLETED means every other row is APPLIED |
| ImportExecution.CompletedMeansAllApplied | src/platform/platform-common/import/usecases/run-import-execution.usecase.ts:171-178 | With a verdict per row: applied + failed + invalid is the total, and COMPLETED holds exactly when every row is APPLIED |
| ImportWorkers.CompletedIsTrueExactly | src/platform/platform-common/import/usecases/run-import-execution.usecase.ts:171-178 | Whatever overlapping and crashing workers, sweeps and cancel requests did: a job closed with a verdict carries that of its rows at one recount, settled rows stay as they were, and COMPLETED is true of the rows as they are now exactly if all rows unsettled at that recount have been applied |
| ImportVerdicts.OneAfterTheOtherIsTrue | src/platform/platform-common/import/usecases/run-import-execution.usecase.ts:40-196 | With handlers that answer every row, and workers that follow one another without a crash, a job closed with a verdict has every VALID row settled and is COMPLETED exactly when all rows are APPLIED, whatever is reset meanwhile |
| ImportVerdicts.CompletedCanBeUntrueExactly | src/platform/platform-common/import/usecases/run-import-execution.usecase.ts:171-182 | With handlers that answer every row: a job can be COMPLETED and have a FAILED or SKIPPED row if and only if workers may overlap or may crash, and the stage starts with something to claim, nothing failed or invalid, and no cancel request |
| ImportVerdicts.EndingsHaveTheirCause | src/platform/platform-common/import/usecases/run-import-execution.usecase.ts:76-85 | Whoever runs beside, a job becomes CANCELLED only if a cancel was asked for and FAILED only if a worker threw |
| ImportVerdicts.CauseDecidesEnding | src/platform/platform-common/import/usecases/run-import-execution.usecase.ts:182-192 | A worker that sees a cancel ends the open job CANCELLED, one that throws ends it FAILED |
| ImportVerdicts.WorkerGoesOn | src/platform/platform-common/import/usecases/run-import-execution.usecase.ts:167-182 | What a worker does after its chunk, when nothing is left, and when it ends: both recounts take the rows as they are |
| ImportValidation.PassGivesRowVerdict | src/platform/platform-common/import/usecases/validate-import-job.usecase.ts:96-128 | For every row: the verdict one pass leaves it with, named, listed or neither |
| ImportValidation.PassShrinks | src/platform/platform-common/import/usecases/validate-import-job.usecase.ts:117-128 | For a handler that never answers PENDING the PENDING rows strictly decrease |
| ImportValidation.PendingVerdictsPinTheLoop | src/platform/platform-common/import/usecases/validate-import-job.usecase.ts:117-128 | A handler that answers PENDING makes the loop list the same rows for ever |
| ImportValidation.ValidatedMeansAllJudged | src/platform/platform-common/import/usecases/validate-import-job.usecase.ts:81-137 | The loop ends by itself only with no row PENDING, and touches no execution state |
| ImportStages.ImportJobRowRepository.ClaimForExecution | src/platform/platform-common/import/repositories/prisma-import-job-row.repository.ts:85-122 | Claims the lowest claimable rows up to the limit |
| ImportStages.ImportJobRowRepository.ApplyValidationVerdicts | src/platform/platform-common/import/repositories/prisma-import-job-row.repository.ts:124-134 | The update loop is the fold of its verdicts |
| ImportStages.ImportJobRowRepository.ApplyExecutionResults | src/platform/platform-common/import/repositories/prisma-import-job-row.repository.ts:136-159 | The update loop is the fold of its settlements, and the answer is how many of them landed |
| ImportStages.ImportJobRepository.TransitionStatus | src/platform/platform-common/import/repositories/prisma-import-job.repository.ts:108-143 | Flips status and appends history exactly when the job is in an allowed state |
| ImportStages.ImportJobRepository.MarkTerminal | src/platform/platform-common/import/repositories/prisma-import-job.repository.ts:189-229 | Ends an open job once |
| ImportStages.ImportJobRepository.RecountCounters | src/platform/platform-common/import/repositories/prisma-import-job.repository.ts:285-308 | Counters become row counts; a job without rows keeps its own |
| ImportStages.RunImportExecution.SettleChunk | src/platform/platform-common/import/usecases/run-import-execution.usecase.ts:90-167 | Skips, results and unanswered rows are settled as the pass function says |
| ImportStages.RunImportExecution.ExecuteLoop | src/platform/platform-common/import/usecases/run-import-execution.usecase.ts:74-169 | The loop terminates and leaves rows, ending and counters as the run function says |
| ImportStages.RunImportExecution.RunExecute | src/platform/platform-common/import/usecases/run-import-execution.usecase.ts:33-196 | Rows, job state, history, counters and exactly one terminal event for each way the stage ends: CANCELLED exactly when a cancel was seen, FAILED when it raises, COMPLETED_WITH_ERRORS exactly when a row is spoiled |
| ImportStages.ExecuteEndings | src/platform/platform-common/import/usecases/run-import-execution.usecase.ts:74-196 | A cancel seen ends the job CANCELLED, a throw ends it FAILED, and a drained run ends it COMPLETED_WITH_ERRORS if and only if a row is FAILED, SKIPPED, INVALID or DUPLICATE, else COMPLETED; the history says so |
| ImportStages.CancelledBeforeTheFirstPass | src/platform/platform-common/import/usecases/run-import-execution.usecase.ts:74-86 | A job asked to cancel before its first pass ends CANCELLED with its rows untouched |
| ImportStages.ThrownInTheFirstPass | src/platform/platform-common/import/usecases/run-import-execution.usecase.ts:87-103 | A re-validation that throws at once ends the job FAILED and leaves claimed rows PROCESSING |
| ImportStages.ValidateImportJob.CheckStructure | src/platform/platform-common/import/usecases/validate-import-job.usecase.ts:96-106 | Splits a chunk into structural rejections and candidates |
| ImportStages.ValidateImportJob.ValidateLoop | src/platform/platform-common/import/usecases/validate-import-job.usecase.ts:81-131 | The loop terminates and leaves rows and counters as the run function says |
| ImportStages.ValidateImportJob.RunValidate | src/platform/platform-common/import/usecases/validate-import-job.usecase.ts:35-152 | Rows, job state, history and events for each way the stage ends: VALIDATED, CANCELLED or FAILED |
| ImportStages.ValidatedRowsAreReady | src/platform/platform-common/import/usecases/validate-import-job.usecase.ts:133-137 | Unexecuted rows that drain the validate stage meet what the execute stage starts from |
| ImportStages.ValidateEndings | src/platform/platform-common/import/usecases/validate-import-job.usecase.ts:81-152 | A drained run leaves the job VALIDATED, a cancel seen CANCELLED, a throw FAILED, with the history of each |
| ImportStages.ValidateCounts | src/platform/platform-common/import/usecases/validate-import-job.usecase.ts:129-131 | The counters of a validated job are those of its final rows; after a throw, those of its last recount |
| ImportStatements.PassOutcomes | src/platform/platform-common/import/usecases/run-import-execution.usecase.ts:90-167 | A claimed row that re-validation rejects ends SKIPPED; a confirmed one ends FAILED when the batch throws or leaves it out, and else as the first final answer about it says |
| ImportStatements.ValidationOutcomes | src/platform/platform-common/import/usecases/validate-import-job.usecase.ts:96-128 | A row the handler names takes its last verdict; a listed row it passes over becomes INVALID |
| ImportStatements.UnsoundRowsAreInvalid | src/platform/platform-common/import/usecases/validate-import-job.usecase.ts:96-106 | A pass whose listed rows are all unsound asks nobody and makes them INVALID |
| ImportStatements.ClaimWrites | src/platform/platform-common/import/repositories/prisma-import-job-row.repository.ts:105-119 | A claim takes the row if it is VALID and waits, under its next token and the present time |
| ImportStatements.SettleWrites | src/platform/platform-common/import/repositories/prisma-import-job-row.repository.ts:136-159 | A settlement lands if and only if the row is held under its token |
| ImportStatements.SweepWrites | src/platform/platform-common/import/repositories/prisma-import-job-row.repository.ts:202-223 | A row is handed back if and only if it is PROCESSING since before the cutoff; the second statement skips PROCESSING rows |
| ImportStatements.YoungClaimStands | src/platform/platform-common/import/repositories/prisma-import-job-row.repository.ts:202-212 | A row claimed at a time survives every reset with no later cutoff |
| ImportStatements.InsertWrites | src/platform/platform-common/import/repositories/prisma-import-job-row.repository.ts:19-39 | The columns of a new row; a taken number keeps its row |
| ImportStatements.RecountWrites | src/platform/platform-common/import/repositories/prisma-import-job.repository.ts:285-308 | Each of the five counters is the number of rows it names |
| ImportStatements.StatusWrites | src/platform/platform-common/import/repositories/prisma-import-job.repository.ts:108-229 | The two ways a job status is written, and the four ended states |
| ImportParse.DetectHeaderRow | src/platform/platform-common/import/import-file.parser.ts:77-88 | The search loop answers what the header function says |
| ImportParse.HeaderFromFindsFirst | src/platform/platform-common/import/import-file.parser.ts:77-88 | That is the first of the leading 30 rows that looks like a header, or row 0 |
| ImportParse.ValuesAreTheLastColumns | src/platform/platform-common/import/import-file.parser.ts:148-157 | Exactly the named columns have a value, each that of the last column of its name |
| ImportParse.ReadLine | src/platform/platform-common/import/import-file.parser.ts:147-157 | The column loop reads the values and tells exactly whether any named cell is filled |
| ImportParse.CollectRows | src/platform/platform-common/import/import-file.parser.ts:144-159 | The row loop collects the data rows up to the limit |
| ImportParse.Materialize | src/platform/platform-common/import/import-file.parser.ts:134-161 | Header and data rows of a sheet |
| ImportParse.LimitIsExact | src/platform/platform-common/import/usecases/parse-import-job.usecase.ts:83-94 | Reading one row beyond the limit tells exactly whether the sheet exceeds it, and loses nothing if it does not |
| ImportParse.AcceptedSheetIsStoredWhole | src/platform/platform-common/import/usecases/parse-import-job.usecase.ts:96-112 | Exactly the data lines of the sheet are stored, each once, under its row number and with its values |
| ImportParse.ParsedRowRepository.BulkInsert | src/platform/platform-common/import/repositories/prisma-import-job-row.repository.ts:19-39 | Inserts row by row, skipping numbers already there |
| ImportParse.ParseImportJob.InsertInChunks | src/platform/platform-common/import/usecases/parse-import-job.usecase.ts:98-112 | The 500-row buffer inserts what one big insert would |
| ImportParse.ParseImportJob.RunParse | src/platform/platform-common/import/usecases/parse-import-job.usecase.ts:44-136 | An accepted sheet replaces whatever was stored and the job becomes MAPPED; a missing file, one that declares too large an extent and one above the limit fail the job and leave the rows alone |
| ImportParse.ParseImportJob.ParseFile | src/platform/platform-common/import/import-file.parser.ts:20-58 | A declared extent beyond the budget is rejected before anything is read |
| ImportParse.HasDataMeans | src/platform/platform-common/import/import-file.parser.ts:150-157 | A line has data exactly if some column under a named header is filled |
| ImportCells.TrimMeans | src/platform/platform-common/import/import-file.parser.ts:80 | Trimming takes white space off both ends and nothing else |
| ImportCells.TrimLeavesNoSpace | src/platform/platform-common/import/import-file.parser.ts:80 | Neither end of what is left is white space |
| ImportCells.SpacesExactly | src/platform/platform-common/import/import-file.parser.ts:80 | Which characters are white space |
| ImportCells.NumericExactly | src/platform/platform-common/import/import-file.parser.ts:82 | A cell is numeric if and only if it is digits, or digits, a point and digits, with or without a minus in front |
| ImportCells.LooksLikeHeaderExactly | src/platform/platform-common/import/import-file.parser.ts:79-86 | A row looks like a header if and only if at least two cells are filled and fewer than half of those hold numbers |
| ImportCells.HeaderExactly | src/platform/platform-common/import/import-file.parser.ts:77-88 | The header is the first such row among the leading 30, or row 0 if there is none |
| ImportCells.StoredValues | src/platform/platform-common/import/import-file.parser.ts:134-161 | Each stored row carries its mapped form, and under each named column the trimmed cell of the last column of that name |
| ImportCells.InsertKeepsStored | src/platform/platform-common/import/repositories/prisma-import-job-row.repository.ts:19-39 | An insert adds the first row of each new number and leaves every stored row as it is |
| ImportCells.AcceptableExactly | src/platform/platform-common/import/usecases/parse-import-job.usecase.ts:83-94 | A file is accepted if and only if it is there, declares at most three rows beyond the limit and 256 columns, and has no more data rows than the limit |
| CsvText.SplitCsvLine | src/platform/platform-common/import/import-file.parser.ts:167-191 | The splitting loop is the recursive reader |
| CsvText.RoundTrip | src/platform/platform-common/import/import-file.parser.ts:60-71 | Every matrix written as section 2 of RFC 4180 has it, with fields quoted or bare and either line end, comes back field for field; only empty lines vanish |
| CsvText.QuotedMatrixComesBack | src/platform/platform-common/import/import-file.parser.ts:60-71 | With every field quoted the matrix comes back whole |
| CsvText.QuotedMatrixComesBackExactly | src/platform/platform-common/import/import-file.parser.ts:60-71 | A matrix comes back from quoted text if and only if no record is without fields and no field holds a line feed |
| CsvText.RoundTripExactly | src/platform/platform-common/import/import-file.parser.ts:60-71 | Properly quoted text in general, with bare fields and either line end, comes back if and only if no quoted field holds a line feed |
| CsvText.ParsedIsFlat | src/platform/platform-common/import/import-file.parser.ts:60-71 | Whatever the text, no record that is read is without fields and no field holds a line feed |
| CsvText.EveryLineIsCutAtEvenCommas | src/platform/platform-common/import/import-file.parser.ts:167-191 | Every line, properly quoted or not, is cut at exactly the commas that an even number of quotes precedes; apart from quotes no character is lost, added or moved |
| CsvText.LineFeedInQuotesSplitsRecord | src/platform/platform-common/import/import-file.parser.ts:61-64 | The illustration: a line feed inside quotes, which RFC 4180 allows, splits the record in two |
| Inbox.ReservationsAreExclusive | src/infrastructure/inbox/usecases/receive-inbox-message.usecase.ts:24-75 | No claim on an identity is written while an earlier reservation is unsettled and inside its lease, in every interleaving of the three-step receive with everything else |
| Inbox.PromptAnswersAreExclusive | src/infrastructure/inbox/usecases/receive-inbox-message.usecase.ts:43-75 | An ACQUIRED answer given inside the lease of its claim owns the row, and every other claim on the identity is over, unless it has itself been settled |
| Inbox.LateAnswerBreaksExclusivity | src/infrastructure/inbox/usecases/receive-inbox-message.usecase.ts:43-75 | For every answer a lease or more after its claim there is a run in which another claim is unsettled and live |
| InboxAnswers.AcquiredMeansExclusive | src/infrastructure/inbox/usecases/receive-inbox-message.usecase.ts:43-75 | With claims settled only by those they were answered to, every ACQUIRED answer inside the lease of its claim owns the row, and every other claim on the identity is over |
| Inbox.BackoffGrowsToTheCeiling | src/infrastructure/inbox/repositories/prisma-inbox.repository.ts:136-152 | The retry delay never falls as attempts grow and stays between base and ceiling |
| InboxStatements.BackoffDoubles | src/infrastructure/inbox/repositories/prisma-inbox.repository.ts:136-152 | The first delay is the base, every further one twice the last up to the ceiling, and the base itself is never cut |
| InboxStatements.DuplicateMeansCompleted | src/infrastructure/inbox/usecases/receive-inbox-message.usecase.ts:45-50 | In every run DUPLICATE is answered only about a row that some claim had completed before |
| InboxStatements.FoundRowDecides | src/infrastructure/inbox/usecases/receive-inbox-message.usecase.ts:45-66 | A receive that finds a PROCESSED row answers DUPLICATE; parked, leased, early and vanished rows are BUSY; any other is reclaimed |
| InboxStatements.InsertWrites | src/infrastructure/inbox/repositories/prisma-inbox.repository.ts:53-78 | The columns of a first claim; a taken identity stays as it is |
| InboxStatements.ReclaimWrites | src/infrastructure/inbox/repositories/prisma-inbox.repository.ts:95-107 | A reclaim moves the row if and only if it is open under the former token |
| InboxStatements.CompleteWrites | src/infrastructure/inbox/repositories/prisma-inbox.repository.ts:110-122 | A completion closes exactly the open row of that id and token |
| InboxStatements.FailWrites | src/infrastructure/inbox/repositories/prisma-inbox.repository.ts:129-156 | A failure leaves exactly that row open and unclaimed, for one delay |
| InboxStatements.SweepWrites | src/infrastructure/inbox/repositories/prisma-inbox.repository.ts:162-197 | The sweep touches a row if and only if its claim is older than the lease, and parks it if and only if its attempts exceed the ceiling |
| InboxStatements.DeleteRemoves | src/infrastructure/inbox/repositories/prisma-inbox.repository.ts:200-206 | Retention removes exactly the PROCESSED rows older than the cutoff |
| InboxRetries.RunHonoursBackoffExactly | src/infrastructure/inbox/repositories/prisma-inbox.repository.ts:95-107 | For every run: no reclaim is ever about to land before the attempt time if and only if no failure and no sweep puts a row off while a receive stands between its read of the row and a reclaim that would land |
| InboxRetries.BackoffHonouredExactly | src/infrastructure/inbox/repositories/prisma-inbox.repository.ts:95-107 | For every configuration: no run can reclaim a row before its attempt time if and only if the retry base is not positive, that is, if there is no backoff at all |
| InboxRetries.SweepIsOverrun | src/infrastructure/inbox/repositories/prisma-inbox.repository.ts:179-197 | The same by the reconcile sweep alone, with no settlement by anybody |
| InboxRetries.FailureIsOverrun | src/infrastructure/inbox/usecases/receive-inbox-message.usecase.ts:54-75 | The run: for every positive retry base an answered owner fails its message between the read and the reclaim of a second receive, which is handed the message at once, a whole retry base early |
| InboxRetries.OnlyLaterFailuresAreOverrun | src/infrastructure/inbox/usecases/receive-inbox-message.usecase.ts:60-67 | A reclaim that comes before the attempt time has read a row that was due; its claim was given up after that read |
| InboxHistory.AttemptsAreGrants | src/infrastructure/inbox/repositories/prisma-inbox.repository.ts:94-107 | The attempts of a row are the number of claims written for it |
| InboxHistory.ProcessedOnce | src/infrastructure/inbox/repositories/prisma-inbox.repository.ts:110-122 | Each stored row enters PROCESSED at most once and leaves it only by the retention sweep |
| InboxHistory.ParkingIsEarnedAndFinal | src/infrastructure/inbox/repositories/prisma-inbox.repository.ts:171-174 | Only rows handed out more than maxAttempts times are SUSPENDED, and they stay as they are |
| InboxHistory.OnlySilentClaimsAreParked | src/infrastructure/inbox/repositories/prisma-inbox.repository.ts:142-174 | In every run a SUSPENDED row was never settled under its last claim: a message that its consumers fail in time is never parked, whatever its attempts |
| InboxRepository.PrismaInboxRepository.InsertIfAbsent | src/infrastructure/inbox/repositories/prisma-inbox.repository.ts:53-78 | Insert-as-claim; none on a duplicate |
| InboxRepository.PrismaInboxRepository.Reclaim | src/infrastructure/inbox/repositories/prisma-inbox.repository.ts:95-107 | CAS on the previous token, one attempt more |
| InboxRepository.PrismaInboxRepository.Complete | src/infrastructure/inbox/repositories/prisma-inbox.repository.ts:110-122 | IN_PROGRESS becomes PROCESSED under its token |
| InboxRepository.PrismaInboxRepository.Fail | src/infrastructure/inbox/repositories/prisma-inbox.repository.ts:129-156 | The claim is given up with a backoff under its token |
| InboxRepository.PrismaInboxRepository.ReconcileExpiredClaims | src/infrastructure/inbox/repositories/prisma-inbox.repository.ts:162-197 | Each expired claim is parked or backed off by exactly one of two statements, and counted once |
| InboxRepository.PrismaInboxRepository.DeleteProcessedOlderThan | src/infrastructure/inbox/repositories/prisma-inbox.repository.ts:200-206 | Deletes exactly the PROCESSED rows past retention and counts them |
| InboxRepository.ReceiveInboxMessageUseCase.Execute | src/infrastructure/inbox/usecases/receive-inbox-message.usecase.ts:24-75 | DUPLICATE if and only if the identity has a PROCESSED row; BUSY for a parked one, inside a lease and before its time; ACQUIRED, and owned, otherwise; a refusal writes nothing |
| InboxRepository.MachineReceivesAlone | src/infrastructure/inbox/usecases/receive-inbox-message.usecase.ts:24-75 | Uninterrupted, the interleaved receive does and answers exactly what the sequential one does |
| Outbox.NoEventIsLost | src/infrastructure/outbox/repositories/prisma-outbox.repository.ts:91-190 | In every reachable state an appended event is PENDING, or DEAD_LETTER with attempts above the ceiling, or was taken by the broker before it was PUBLISHED or deleted |
| OutboxHistory.AtMostMaxAttemptsFailures | src/infrastructure/outbox/repositories/prisma-outbox.repository.ts:155-181 | At most maxAttempts failures of an event are accepted before the one that parks it |
| OutboxHistory.OneSettlementPerClaim | src/infrastructure/outbox/repositories/prisma-outbox.repository.ts:138-181 | Each claim is settled at most once, and nothing settles after the event is published or parked |
| OutboxHistory.LeaseIsHonoured | src/infrastructure/outbox/repositories/prisma-outbox.repository.ts:91-135 | A claimed event stays with its claim until that claim settles it or the lease is over, whatever competing dispatchers do |
| OutboxHistory.PendingCanBePublished | src/infrastructure/outbox/repositories/prisma-outbox.repository.ts:82-135 | From every reachable state a PENDING event can still be claimed, handed to the broker and PUBLISHED, whoever crashed |
| OutboxRepository.PrismaOutboxRepository.Append | src/infrastructure/outbox/repositories/prisma-outbox.repository.ts:48-79 | A new PENDING row, due at the requested time |
| OutboxRepository.PrismaOutboxRepository.ClaimBatch | src/infrastructure/outbox/repositories/prisma-outbox.repository.ts:91-135 | The oldest due rows up to the batch size, in order, under one token; no due row is passed over for a newer one |
| OutboxRepository.PrismaOutboxRepository.MarkPublished | src/infrastructure/outbox/repositories/prisma-outbox.repository.ts:138-149 | PUBLISHED under its token |
| OutboxRepository.PrismaOutboxRepository.MarkFailed | src/infrastructure/outbox/repositories/prisma-outbox.repository.ts:155-181 | Retry or DEAD_LETTER under its token, by the attempts it read |
| OutboxRepository.PrismaOutboxRepository.DeletePublishedOlderThan | src/infrastructure/outbox/repositories/prisma-outbox.repository.ts:184-190 | Deletes exactly the PUBLISHED rows past retention and counts them |
| OutboxRepository.PublishPendingBatchUseCase.Execute | src/infrastructure/outbox/usecases/publish-pending-batch.usecase.ts:37-58 | One pass: each claimed row is published if the broker takes it, parked beyond the ceiling, backed off otherwise; no other row changes, and a second pass meanwhile does nothing |
| OutboxRepository.PublishPendingBatchUseCase.DispatchOne | src/infrastructure/outbox/usecases/publish-pending-batch.usecase.ts:60-121 | One message: accepted, retried with exponential backoff, or parked |
| OutboxRepository.MachineRunsOnePass | src/infrastructure/outbox/usecases/publish-pending-batch.usecase.ts:37-72 | Left alone, an interleaved dispatcher ends where the sequential pass over the same rows does |
| OutboxStatements.DueMeans | src/infrastructure/outbox/repositories/prisma-outbox.repository.ts:91-118 | A row may be claimed if and only if it is PENDING, its retry time has come, and no claim on it is younger than the lease |
| OutboxStatements.DelayDoubles | src/infrastructure/outbox/usecases/publish-pending-batch.usecase.ts:107-111 | The first retry waits for the base, every further one twice as long, up to the ceiling |
| OutboxStatements.OutcomeMeans | src/infrastructure/outbox/usecases/publish-pending-batch.usecase.ts:60-121 | Published exactly if the broker takes it, parked exactly if it is refused beyond the ceiling, put off otherwise |
| OutboxStatements.ClaimWrites | src/infrastructure/outbox/repositories/prisma-outbox.repository.ts:91-135 | A claim marks the picked rows with its token and time, one attempt more |
| OutboxStatements.PublishWrites | src/infrastructure/outbox/repositories/prisma-outbox.repository.ts:138-149 | A publication settles exactly the PENDING row under its token |
| OutboxStatements.FailWrites | src/infrastructure/outbox/repositories/prisma-outbox.repository.ts:155-181 | A failure gives that row back or parks it |
| OutboxStatements.DeleteRemoves | src/infrastructure/outbox/repositories/prisma-outbox.repository.ts:184-190 | Retention removes exactly the published rows older than the cutoff |
| DistributedLock.LostIsForever | src/platform/platform-common/locking/adapters/redis-distributed-lock.adapter.ts:33-52 | A holder that lost the lock by expiry or release never holds it again |
| DistributedLock.AcquisitionExcludesEarlierOwners | src/platform/platform-common/locking/adapters/redis-distributed-lock.adapter.ts:23-31 | Once the key is acquired no earlier owner holds it in any later state |
| DistributedLock.LeaseIsHonoured | src/platform/platform-common/locking/adapters/redis-distributed-lock.adapter.ts:23-72 | An acquired lock is its owner's for exactly the lease, whatever others try, as long as the owner neither renews nor releases it |
| DistributedLock.StaleOwnerIsHarmless | src/platform/platform-common/locking/adapters/redis-distributed-lock.adapter.ts:33-72 | A stale owner's renewal or release changes nothing |
| DistributedLock.LaterHoldersHaveGreaterTokens | src/platform/platform-common/locking/usecases/acquire-distributed-lock.usecase.ts:42-49 | A holder that drew its token while it held the lock has a smaller token than every later holder |
| DistributedLock.TokenOrderIsDrawOrder | src/platform/platform-common/locking/adapters/redis-distributed-lock.adapter.ts:74-81 | Tokens of one key are ordered exactly like their draws |
| DistributedLock.DrawnBeforeLaterAcquisitions | src/platform/platform-common/locking/usecases/acquire-distributed-lock.usecase.ts:42-49 | A token drawn before any later acquisition of the key, in time or late, is smaller than every later holder's in every continuation |
| DistributedLock.LaterAcquirerCanOvertake | src/platform/platform-common/locking/usecases/acquire-distributed-lock.usecase.ts:42-49 | Once a later owner has acquired the key and is still to draw, it can draw first and the tokens are inverted |
| DistributedLock.LateTokenOvertakes | src/platform/platform-common/locking/usecases/acquire-distributed-lock.usecase.ts:48-49 | The shortest inverted run: a token drawn after the lease overtakes the next holder's |
| DistributedLock.LockMeetsFenceExactly | src/platform/platform-common/locking/lock-key.builder.ts:19-21 | A lock has the name of some fence counter if and only if its tenant is "fence" or begins with "fence:" |
| DistributedLock.LockMeetsAnotherLocksFenceExactly | src/platform/platform-common/locking/lock-key.builder.ts:19-21 | The counter is one that belongs to another lock if and only if, besides, some part of the identity holds the separator |
| DistributedLock.TenantCalledFenceCollides | src/platform/platform-common/locking/adapters/redis-distributed-lock.adapter.ts:5-6 | The illustration: for every lock counter, the lock of a tenant called "fence" that has its name |
| DistributedLock.ClampIsNearest | src/platform/platform-common/locking/usecases/acquire-distributed-lock.usecase.ts:67-69 | The clamped lease is the nearest value between the bounds; the upper one wins when they cross |
| DistributedLock.CommandsWrite | src/platform/platform-common/locking/adapters/redis-distributed-lock.adapter.ts:10-81 | An expired lock is free to take, only its live owner extends or removes one, and each draw adds one to its own counter |
| DistributedLock.KeyIsJoined | src/platform/platform-common/locking/lock-key.builder.ts:19-21 | The key is the four parts joined by colons |
| LockAdapter.RedisDistributedLock.Acquire | src/platform/platform-common/locking/adapters/redis-distributed-lock.adapter.ts:23-31 | SET NX PX, false when held or unreachable |
| LockAdapter.RedisDistributedLock.Renew | src/platform/platform-common/locking/adapters/redis-distributed-lock.adapter.ts:33-52 | Extends the lease of its own live lock only |
| LockAdapter.RedisDistributedLock.Release | src/platform/platform-common/locking/adapters/redis-distributed-lock.adapter.ts:54-72 | Deletes its own live lock only |
| LockAdapter.RedisDistributedLock.NextFencingToken | src/platform/platform-common/locking/adapters/redis-distributed-lock.adapter.ts:74-81 | One above every token drawn so far |
| LockAdapter.AcquireDistributedLock.Execute | src/platform/platform-common/locking/usecases/acquire-distributed-lock.usecase.ts:28-65 | BUSY when held, a ticket with the next token when free, and a lock left behind when the second command fails |
| LockAdapter.MachineAcquiresAlone | src/platform/platform-common/locking/usecases/acquire-distributed-lock.usecase.ts:42-49 | Uninterrupted, the interleaved acquisition does exactly what the sequential one does |
| Numbering.NumberTextParses | src/platform/platform-common/numbering/repositories/numbering.repository.ts:45-48 | The zero-padded decimal text parses back to the number and has the padded length |
| Numbering.DecimalIsCanonical | src/platform/platform-common/numbering/repositories/numbering.repository.ts:45-48 | A number is written without leading zeros |
| Numbering.PaddingIsZeros | src/platform/platform-common/numbering/repositories/numbering.repository.ts:45-48 | Padding puts zeros in front, up to the width, and changes nothing else |
| Numbering.CallWrites | src/platform/platform-common/numbering/repositories/numbering.repository.ts:31-43 | A first call opens its series at 1 under its prefix; a later one takes the next number under the stored prefix |
| Numbering.SeriesBelongsTo | src/shared-kernel/constants/company.ts:22-24 | The series belongs to the company, else the tenant, else the default company |
| Numbering.AnswerIsPrefixAndRank | src/platform/platform-common/numbering/repositories/numbering.repository.ts:24-51 | The n-th call on a series answers the prefix of the first call and the number n |
| Numbering.NumbersAreDistinct | src/platform/platform-common/numbering/repositories/numbering.repository.ts:24-51 | Numbers of one series are pairwise distinct, for any mix of padding options |
| Numbering.NumbersHaveNoGap | src/platform/platform-common/numbering/repositories/numbering.repository.ts:31-43 | Every number up to the count of a series was answered by one of its calls |
| Numbering.SeriesIsItsOwnExactly | src/platform/platform-common/numbering/repositories/numbering.repository.ts:59-61 | A company and a key have their series to themselves among all companies and keys if and only if neither holds the separator |
| Numbering.SharedSeries | src/platform/platform-common/numbering/repositories/numbering.repository.ts:59-61 | A separator in either gives another company and key the same series |
| Numbering.SeriesAreSeparate | src/platform/platform-common/numbering/repositories/numbering.repository.ts:59-61 | Companies without the separator, and the keys of one company, never share a series |
| Numbering.NumberingRepository.NextNumber | src/platform/platform-common/numbering/repositories/numbering.repository.ts:24-51 | The upsert and the text it answers |

## Left out

- PostgreSQL isolation levels, Redis persistence and eviction policy, queues, brokers, object storage, HTTP, configuration and module wiring: foreign calls. Each statement is atomic.
- A key of the cache or of a lock reads as absent from its expiry tick on, while Redis still answers in the expiry millisecond itself: the exact lateness bounds and the lock lease shift by that one tick.
- The reconciler's limit of 100 jobs per query: a step of the batch machine may take up any job that meets the query.
- One global clock drives every process of a machine; clock skew between application, database and Redis is not modelled. The sequential methods take one clock reading for a whole call.
- Generated ids and tokens are fresh numbers in place of UUIDs.
- Random or environment decisions (handler answers, broker replies, lost acknowledgements, crashes, cancel requests) are parameters, and every theorem holds for all of them.
- Time zones and daylight saving in the date library: dates are plain Gregorian dates, as the engine's own comment says. Trigger keys are the dates themselves; the text form is exact for the years 0000 to 9999.
- Resuming a template: it restarts off the grid with a cancelled schedule, so no series law survives it.
- The scheduler, notification, saga and webhook components.
- XLSX decoding and UTF-8 decoding; a sheet arrives as a matrix of text with the extent it declares, a CSV file as text.
- Column mapping and structural field rules: the mapping is an arbitrary function of a row, and structural soundness an arbitrary set of rows. A mapped column called `rowNumber`, which would replace the row number handed to a handler, is not modelled.
- The import stage lock and its heartbeat: execute workers overlap freely in ImportWorkers, and ImportVerdicts says what is gained when they do not. Overlapping parse and validate stages are covered by the status machine only.
- A chunk size of zero, with which the import loops would claim nothing.
- Messages, snapshots, error texts, audit records and timestamps that no decision reads.
- IdempotencyClaims.ClaimsAreExclusive: for claims written in time, because IdempotencyClaims.LateClaimBreaksExclusivity refutes it for every later one. The machine settles the row of a reservation's identity; that this is the row found by id is IdempotencyAnswers.AnsweredReservationsFindTheirRow.
- IdempotencyAnswers.AcquiredMeansExclusive: for prompt read-backs and for settlements by those who were answered, because IdempotencyAnswers.LateReadBackBreaksExclusivity refutes it for later ones and a forged settlement can end any claim.
- IdempotencyCache.CacheAgreesWithLedger: for identities that do not share cache keys, because IdempotencyKeys.CacheIsInvisibleAmongExactly shows that results cross between those that do, and for cache writes in the same tick, because IdempotencyCache.LateCacheWriteDisagrees refutes it for every later one.
- IdempotencyCache.CacheIsInvisible: likewise among identities that do not share cache keys, and for cache writes at most one tick late, because IdempotencyReplays.LateCacheWriteIsVisible refutes it for every later one.
- RecurringSeries.RunDatesAreGridPrefix: for intervals of at least one and templates that name no event; RecurringEvents.PrefixLawExactly is the condition for the others.
- ImportExecution.DrainedRunSettlesExactlyTheAnswered: for handlers whose execution answers are final statuses, because ImportExecution.PendingAnswersPinTheLoop shows that others need not let the run end.
- ImportExecution.CompletedMeansAllApplied: for jobs with at least one row, because a recount leaves the counters of a job without rows as they were.
- ImportVerdicts.OneAfterTheOtherIsTrue: for workers that neither overlap nor crash, because ImportVerdicts.CompletedCanBeUntrueExactly shows that either is enough to break it.
- InboxAnswers.AcquiredMeansExclusive: for answers inside the lease and settlements by those answered, because Inbox.LateAnswerBreaksExclusivity refutes it for later ones and a forged settlement can end any claim.
- ImportRows.ImportRowsAreFenced: without a re-parse, because deleting and re-inserting a job's rows restarts their tokens.
- Outbox.NoEventIsLost: a claim may take any set of due rows, which covers every order and every competing dispatcher; the order by creation is stated by OutboxRepository.PrismaOutboxRepository.ClaimBatch.
- DistributedLock.LaterHoldersHaveGreaterTokens: the lock machine keeps locks and fence counters in two maps, so it speaks of identities whose names DistributedLock.LockMeetsAnotherLocksFenceExactly keeps apart.
- Numbering.SeriesAreSeparate: for companies without the separator, because Numbering.SharedSeries shows that others share series; Numbering.SeriesIsItsOwnExactly is the condition.
- Numbering.NumbersHaveNoGap: for callers that commit; a rolled-back caller takes its number with it.
