# Verification of the webhook delivery engine

A Dafny model of the server's delivery engine (`apps/server/src`) and of the dashboard's view of it
(`apps/client`), with proofs of what the engine guarantees under any interleaving of workers,
recovery passes and crashes. `dafny verify dfyconfig.toml` checks everything.

## What is modelled

The engine is a table of delivery jobs that several worker processes share. A job is taken by a
conditional UPDATE (`claim`), executed under a lease, settled by an UPDATE that carries *no* guard
(`transition`), and handed back by a recovery pass when its lease has run out (`releaseStaleJob`).
The attempt log and the `events.status` projection are written by separate statements in between.

| files | content |
|---|---|
| `DeliveryTypes`, `StatusMachine`, `RetryPolicy`, `Rows` | the rows, the transition table, classification and backoff, and what each SQL statement does to the row it touches |
| `Protocol` | the state machine: one step is one statement, one HTTP exchange or one crash |
| `AnyRegime`, `LeaseRegime`, `SoloSweeps`, `FusedWrites`, `Reachability` | the invariants, by the assumptions they need, and the one induction over runs |
| `Guarantees`, `Progress`, `Scheduling` | what follows for whole runs: safety, bounds, verdicts, the log, termination, bounded bypass |
| `RunBuilder`, `ZombieRegime`, `LateWrites`, `EventStatus`, `ExactConditions` | runs that show where a promise fails, and the exact condition under which it holds |
| `Records` | what the rows record: due times, submitted content, the attempt log's dates and texts, the row REST returns |
| `Passes` | what concurrent recovery passes count and return, against the rows released |
| `Execution`, `Dashboard`, `Ledger` | one execution or sweep from end to end, its messages and counters; the dashboard row against REST; the counters against the tables |
| `Statements`, `Storage`, `Services`, `Worker` | the repositories, services and worker as classes that update tables, proved against functions on whole tables |
| `SoloTick` | a pass of the worker as a run of the protocol, and its drain as a full tick |
| `OneProcess` | the history of a single process, from an empty database: its stream is made of lives, its counters are books |
| `Ingestion`, `SerialQueue` | concurrent idempotent ingestion; the promise queue that serialises transactions on SQLite |
| `Collections`, `Tallies` | counts, sums and least elements; counting the steps of a run by measures of its events |

### The state machine

A `Cell` is all the database holds about one event, together with every execution and every
recovery that was ever started for it, each at its own program point and with the row snapshot it
carries. A `System` is the clock and one cell per accepted event. A worker or recovering process may
die at any point: it just takes no further step. `Crash` and `CrashRecovery` mark a death where the
place matters, between a job write and its event write. The fields after "history variables" in `Cell`
record what has happened (statuses held, requests sent, writes to the attempt log); no step reads
them.

A job row is keyed by its event, and an attempt row by event and number, because both are under
UNIQUE indexes (`apps/server/src/database/migrations/1758300000000-InitialSchema.ts:48`, `:69`);
surrogate ids are not modelled. A timestamp is taken by the step that executes the statement, except
in `recoverStaleJobs`, whose one `now` is read before its SELECT and used to the end, as in the
source: `ReadStale` carries the pass it belongs to and that earlier moment. Times and delays are
integers, and a delay may be negative: the two named delay settings are not checked for it. Each
stale row is read by a step of its own, so a batch may be read at any mixture of later moments.

### The assumptions

They are hypotheses of single lemmas (`Regime`), not of the model.

* **leased**: an execution writes no later than its own claim time plus the lease, or never. The
  source does not enforce it: lease and HTTP timeout are independent settings
  (`apps/server/src/config/configuration.ts:140`, `:152`). Without it, a worker whose lease has run
  out may still settle, over whatever the row holds by then.
* **solo**: a recovery pass reads a stale job only while no other pass is between reading and
  releasing that job.
* **fused**: the job write and the event write that follows it are one statement.

"Any regime" below means none of them. Two more concern single runs (`Discipline`): **finishes**, nobody
dies between its job write and its event write; **ordered**, no job write of an event falls between
another job write and its event write.

### Where the source and its comments disagree

The model follows the code.

* The comment on `events.status` says it is written in the same transaction as the job
  (`apps/server/src/events/entities/event.entity.ts:17-19`); the code uses two statements
  (`apps/server/src/delivery/delivery.repository.ts:163-170`). `EventStatus.EventInStepExactly` says
  what the difference costs: with two statements it is guaranteed to be in step exactly if runs finish
  and are ordered, or finish under the lease with a single attempt.
* Attempt rows are called immutable once completed
  (`apps/server/src/attempts/entities/delivery-attempt.entity.ts:5-11`), but `complete` has no guard.
  `ExactConditions.LogIsHistoryExactly` gives the exact condition.
* `claim` is said to bound retries at the maximum however often processes crash
  (`apps/server/src/delivery/delivery.repository.ts:68-76`). Exactly under the lease discipline, or
  with a single attempt: `ZombieRegime.BudgetHoldsExactly`. In general the bound is
  2 * maxAttempts - 1, and it is reached.
* The release guard is said to keep a revived worker from colliding with the sweep
  (`apps/server/src/delivery/delivery.repository.ts:124-128`). It keeps the sweep from overwriting a
  newer claim (`AnyRegime.SeenIsCurrent`); nothing keeps the worker from overwriting the sweep.
  `LateWrites.LateWorkerOverwritesRelease` and `LateWrites.LateWorkerRevivesFailed` are the runs, and
  `LateWrites.HistoriesLegalExactly`, `LateWrites.TerminalForeverExactly` and
  `LateWrites.VerdictsJustifiedExactly` say exactly when it cannot happen.
* The dashboard says "retry limit reached" also when the receiver rejects the last allowed attempt
  for good: `ExactConditions.ClientReasonCanBeWrong`.

## Model

| member | source | states |
|---|---|---|
| `Guarantees.UnguardedWritesAreSafe` | apps/server/src/delivery/delivery.repository.ts:163-170 | lease regime: whenever an execution opens or closes its attempt or settles the job, the stored row is still DELIVERING with that execution's own attempt number, lock time and worker, and equals the snapshot it carries |
| `Guarantees.HistoriesAreLegal` | apps/server/src/common/delivery-status.enum.ts:29-39 | lease regime: every job's status history, over any interleaving, starts at PENDING and is a path of the transition table |
| `Guarantees.TerminalIsForever` | apps/server/src/common/delivery-status.enum.ts:18-21 | lease regime: once a job is terminal, no continuation of the run changes its row or its attempt log |
| `StatusMachine.TerminalIsLast` | apps/server/src/common/delivery-status.enum.ts:29-39 | a path of the transition table has at most one terminal status, and has it last |
| `StatusMachine.PathsFromPending` | apps/server/src/common/delivery-status.enum.ts:29-39 | from PENDING the paths of the table are exactly PENDING (DELIVERING RETRYING)*, possibly followed by DELIVERING, or by DELIVERING and a terminal status |
| `Guarantees.AttemptsWithinBudget` | apps/server/src/delivery/delivery.repository.ts:68-94 | lease regime: attemptCount never exceeds maxAttempts and every claimable job is below it, for any number of crashes, although claim never checks it |
| `Guarantees.SendsAtMostAttempts` | apps/server/src/delivery/delivery.service.ts:64-84 | any regime: each attempt number reaches the receiver at most once, so requests never outnumber attemptCount |
| `Guarantees.ZombieBound` | apps/server/src/delivery/delivery.repository.ts:77-170 | any regime: attemptCount stays at most 2 * maxAttempts - 1, late writers included |
| `ZombieRegime.ZombieBoundIsTight` | apps/server/src/delivery/delivery.service.ts:181-208 | without the lease discipline some run reaches 2 * maxAttempts - 1, for every configuration |
| `ZombieRegime.BudgetHoldsExactly` | apps/server/src/delivery/delivery.repository.ts:68-76 | the budget of maxAttempts holds on every run if and only if workers keep to their lease or maxAttempts is 1 |
| `Guarantees.BudgetUnlessRequeuedTwice` | apps/server/src/delivery/delivery.repository.ts:68-94 | any regime: a run on which no attempt number is requeued both by its execution and by a sweep stays within the budget |
| `LateWrites.HistoriesLegalExactly` | apps/server/src/delivery/delivery.repository.ts:163-170 | every history is a path of the transition table if and only if workers keep to their lease |
| `LateWrites.TerminalForeverExactly` | apps/server/src/delivery/delivery.repository.ts:163-170 | terminal jobs and their attempts never change if and only if workers keep to their lease |
| `LateWrites.VerdictsJustifiedExactly` | apps/server/src/delivery/delivery.service.ts:100-208 | terminal statuses are backed by the attempt numbered attemptCount if and only if workers keep to their lease or maxAttempts is 1 |
| `LateWrites.VerdictsWereAnswered` | apps/server/src/delivery/delivery.service.ts:86-98 | any regime: a job that was ever DELIVERED, or whose event says so, has been answered with a 2xx; one that was ever FAILED below the budget has been answered with a permanent status |
| `LateWrites.LateWorkerOverwritesRelease` | apps/server/src/delivery/delivery.repository.ts:124-170 | a run whose history is PENDING, DELIVERING, the released status, DELIVERED |
| `LateWrites.LateWorkerRevivesFailed` | apps/server/src/delivery/delivery.repository.ts:163-170 | a run in which a late worker turns a FAILED job into DELIVERED, for every configuration |
| `LateWrites.LateWorkerMisattributes` | apps/server/src/delivery/delivery.service.ts:100-132 | a run that ends DELIVERED at attempt 2 although only attempt 1 ever had an answer |
| `AnyRegime.SeenIsCurrent` | apps/server/src/delivery/delivery.repository.ts:129-148 | any regime, no ABA: a DELIVERING row whose lockedAt is the one a sweep read is still the row of the claim it read |
| `AnyRegime.BasicStep` | apps/server/src/delivery/delivery.repository.ts:77-170 | any regime: every step keeps claims numbered by attemptCount, locks exactly on DELIVERING rows, one live execution per number, at most one release per claim, and one RETRYING write behind every further claim |
| `LeaseRegime.LeasedStep` | apps/server/src/delivery/delivery.service.ts:54-208 | lease regime: every step keeps ownership, the budget, the spacing of claims and a legal history |
| `Guarantees.BackoffRespected` | apps/server/src/delivery/retry-policy.ts:55-63 | lease regime: the m-th claim comes no earlier than the first plus the sum of the first m-1 delays, through failures and crashes alike |
| `Records.RetryDueExactly` | apps/server/src/delivery/delivery.service.ts:206-208 | any regime: a job that is RETRYING was made to by a settling write or a release of the run, and nextAttemptAt is exactly the moment that write counts from plus the delay after its attempt |
| `Records.SettledDue` | apps/server/src/delivery/delivery.service.ts:206-208 | a write that settles attempt n at time T as RETRYING stores T plus the delay after n; a final verdict leaves nextAttemptAt alone; both clear the lock |
| `Records.ReleasedDue` | apps/server/src/delivery/delivery.service.ts:249-257 | a release stores the clock its pass read first plus the delay after the attempt it read, or the date it read when the budget is spent |
| `Records.SettledStatus` | apps/server/src/delivery/retry-policy.ts:15-48 | a settling write makes the job DELIVERED exactly on a 2xx, FAILED exactly on a permanent status or a spent budget, and RETRYING otherwise |
| `Guarantees.VerdictsAreJustified` | apps/server/src/delivery/delivery.service.ts:100-208 | lease regime: DELIVERED is backed by a successful 2xx attempt numbered attemptCount, and FAILED by a spent budget or a permanent status on that attempt |
| `Guarantees.ClientReasonIsRight` | apps/client/components/RetryFlow.tsx:151-154 | lease regime: a terminal event row agrees with the job, "on attempt n" and "permanent failure" are always true, and the reason for a failure is wrong exactly when the last allowed attempt was rejected for good |
| `ExactConditions.ClientReasonCanBeWrong` | apps/client/components/RetryFlow.tsx:151-154 | for every configuration and regime, the lease included, some run in which nobody dies shows the event as FAILED while the dashboard says "retry limit reached" for a permanent rejection |
| `Guarantees.AttemptLogNumbers` | apps/server/src/attempts/attempts.service.ts:26-38 | the log holds numbers within 1..attemptCount in any regime; under the lease an open row means its job is DELIVERING with that number |
| `Records.AttemptsTellTheStory` | apps/server/src/attempts/attempts.service.ts:26-65 | any regime: an attempt row is opened no earlier than the claim of its number and closed no earlier than opened, has a completion exactly when it is not IN_PROGRESS and says nothing of an outcome before; whoever holds an answer has sent that number |
| `Records.AnswerIsRecorded` | apps/server/src/attempts/attempts.service.ts:40-48 | completing an attempt stores the answer's status, its error kind or UNKNOWN, its text up to 1000 characters and the completion time, and touches no other row |
| `Guarantees.AttemptLogWrittenOnce` | apps/server/src/attempts/attempts.service.ts:40-65 | lease regime, sweeps that cannot collide: every attempt row is written at most once after its INSERT, and not at all exactly while it is open |
| `Guarantees.ClosedRowsAreImmutable` | apps/server/src/attempts/entities/delivery-attempt.entity.ts:5-11 | in the same regime a closed attempt row is never changed by any continuation of the run |
| `ExactConditions.LogIsHistoryExactly` | apps/server/src/attempts/attempts.service.ts:40-65 | the log is write-once on every run if and only if workers keep to their lease and sweeps cannot collide (one recoverer at a time, or a single attempt) |
| `ExactConditions.CollidingSweepsRewriteTheLog` | apps/server/src/delivery/delivery.service.ts:238-259 | a run in which two sweeps of one expired claim end with a live worker's attempt row written twice |
| `ExactConditions.LateWorkerRewritesTheLog` | apps/server/src/attempts/attempts.service.ts:40-48 | a run in which a worker past its lease rewrites the row that recovery closed |
| `SoloSweeps.SoloReleaseWins` | apps/server/src/delivery/delivery.repository.ts:129-148 | a sweep nobody interferes with never loses its guarded UPDATE |
| `SoloSweeps.WrittenOnceStep` | apps/server/src/attempts/attempts.service.ts:40-65 | every step keeps the attempt log write-once when sweeps cannot collide |
| `Guarantees.ReleasedAtMostOnce` | apps/server/src/delivery/delivery.repository.ts:129-148 | any number of concurrent recoverers: each expired claim of an event is released by at most one of them, and the UPDATEs that released its row are the sweeps that have counted it, those whose event write is still to come, and those that died before it |
| `Passes.PassesAddUp` | apps/server/src/delivery/delivery.service.ts:257-260 | over all events and any interleaving, rows released = rows counted by the passes + releases whose event write is still to come + releases whose pass died before it; so the counts add up to the rows released if and only if there is none of the latter two |
| `Passes.ReturnsAddUp` | apps/server/src/delivery/delivery.service.ts:238-282 | what the passes return, a dead pass returning nothing, never exceeds the rows released, and equals it exactly if, further, no pass died after counting a row |
| `Passes.TornPassCountsNothing` | apps/server/src/delivery/delivery.service.ts:257-260 | a run in which one row is released and nobody counts it |
| `Guarantees.ProjectionIsPast` | apps/server/src/delivery/delivery.repository.ts:142-152 | any regime: events.status is never DELIVERING and is always a status the job has held |
| `Guarantees.FusedProjectionIsLatest` | apps/server/src/events/entities/event.entity.ts:17-19 | with job and event written by one statement, events.status is the job's latest status other than DELIVERING |
| `EventStatus.EventInStepExactly` | apps/server/src/delivery/delivery.repository.ts:163-170 | events.status equals the job's latest status other than DELIVERING whenever no event write is outstanding, on all runs of a discipline, if and only if job and event are one statement, or nobody dies between its two writes and no other job write falls between them; a single attempt under the lease sees to the latter by itself |
| `EventStatus.InStepRun` | apps/server/src/delivery/delivery.repository.ts:142-170 | on such runs every outstanding event write carries the job's latest status, by any interleaving of executions and sweeps |
| `EventStatus.LateEventWrite` | apps/server/src/delivery/delivery.repository.ts:142-148 | a run in which nobody dies and a sweep writes the event after a later execution has: delivered, and shown as retrying or failed |
| `EventStatus.CrashBetweenWrites` | apps/server/src/delivery/delivery.repository.ts:163-170 | a run that ends delivered and shown as pending, and every continuation of which stays so |
| `Guarantees.StoredEventNeverChanges` | apps/server/src/delivery/delivery.repository.ts:150-152 | any regime: delivery changes nothing of an event row but its status |
| `Records.StoredIsSubmitted` | apps/server/src/events/events.service.ts:66-76 | any regime: the stored type, time and payload of an event are those of its submission |
| `Records.RestRowIsRight` | apps/server/src/events/events.service.ts:182-209 | any regime, at any moment of any run, attempts in flight included: the REST row shows an error exactly when the highest-numbered attempt is closed as FAILED, and then that attempt's status, kind and text; a next attempt exactly while the job is PENDING or RETRYING, and then the job's own time; otherwise the event's type and status and the job's attemptCount |
| `Progress.LocksMatchStatus` | apps/server/src/delivery/delivery.repository.ts:77-122 | any regime: lockedAt and lockedBy are set exactly while the job is DELIVERING |
| `Progress.NothingIsStranded` | apps/server/src/delivery/delivery.worker.ts:92-102 | any regime: a job that is not terminal can be claimed from its due time on, or recovered by a sweep whose pass read its clock, however long before, after lockedAt plus the lease, also after an exception escaped its execution |
| `Progress.RemainingDecreases` | apps/server/src/delivery/delivery.repository.ts:77-147 | lease regime: each claim, settling write and release uses up part of 2 * (maxAttempts - attemptCount) + [DELIVERING]; no other step changes the job |
| `Progress.RemainingZero` | apps/server/src/delivery/delivery.repository.ts:77-147 | lease regime: that measure is 0 exactly when the job is terminal |
| `Progress.EverythingEnds` | apps/server/src/delivery/delivery.worker.ts:69-111 | lease regime: N accepted events take at most 2 * N * maxAttempts such steps, whatever the receiver does and however often processes crash |
| `Scheduling.BoundedBypass` | apps/server/src/delivery/delivery.repository.ts:55-66 | lease regime, non-negative delays: a due job with r claimable jobs due no later than it is claimed once full ticks times batchSize exceed r + e, where e counts the early requeues of the run in the sense of AheadGrowsExactly, whatever other workers do |
| `Scheduling.BypassWithinTicks` | apps/server/src/delivery/delivery.repository.ts:55-66 | without early requeues that is within r / batchSize + 1 full ticks |
| `Scheduling.AheadGrowsExactly` | apps/server/src/delivery/delivery.service.ts:249-258 | with non-negative delays, a step puts a further job ahead of one that is past due if and only if it is the release of a sweep whose own `now` plus the delay is no later than that due time |
| `Scheduling.TickMakesProgress` | apps/server/src/delivery/delivery.worker.ts:79-103 | one full tick claims the waiting job, or removes batchSize jobs from the ones ahead of it and lets in at most one for each early requeue |
| `ExactConditions.QueueAheadCanGrow` | apps/server/src/delivery/delivery.service.ts:238-258 | in every regime with retries some run reaches a waiting job that the next release puts another job ahead of |
| `Statements.RecoveryPass` | apps/server/src/delivery/delivery.service.ts:238-282 | a recovery pass run alone over the jobs whose leases expired longest ago: each becomes FAILED or RETRYING at now plus its delay, its open attempts and only those are closed as crashes of the named worker, its event row follows, and every other event keeps all its rows |
| `Statements.StaleBatchIsOldest` | apps/server/src/delivery/delivery.repository.ts:116-122 | the stale query, stated over rows: every job of the batch is DELIVERING with lockedAt before the cutoff, in the order of lockedAt; one left out is locked no earlier than any in it; and none is left out of a batch below the limit |
| `Statements.DueBatchIsOldest` | apps/server/src/delivery/delivery.repository.ts:55-66 | the due query, likewise, over PENDING and RETRYING jobs by nextAttemptAt |
| `Statements.DrainIsPointwise` | apps/server/src/delivery/delivery.worker.ts:82-103 | a drain run alone does to each job of its batch what one claim and execution does, and nothing to any other event |
| `Statements.DrainSettlesTheBatch` | apps/server/src/delivery/delivery.worker.ts:82-103 | each due job of the batch is claimed once and settled on its own answer; one whose execution throws stays DELIVERING under this claim |
| `Statements.OrphanIsFailed` | apps/server/src/delivery/delivery.service.ts:54-62 | a claimed job without its event is failed and unlocked, and nothing is published or counted |
| `Statements.ExceptionLeavesTheClaim` | apps/server/src/delivery/delivery.worker.ts:92-102 | an exception leaves job and event as they were; when the attempt number is taken it leaves everything as it was, and later it leaves the attempt open |
| `Statements.DrainCounts` | apps/server/src/delivery/delivery.worker.ts:74-103 | run alone with a clock that does not go back, a drain claims its whole batch and counts as processed exactly the jobs whose execution lets no exception escape |
| `Execution.ExecutionRefinesProtocol` | apps/server/src/delivery/delivery.service.ts:54-228 | an execution from end to end leaves the rows that six steps of the protocol leave |
| `Execution.SweepRefinesProtocol` | apps/server/src/delivery/delivery.service.ts:243-260 | one turn of the recovery loop leaves the rows that its steps of the protocol leave, whether the release wins or loses |
| `SoloTick.TickIsRun` | apps/server/src/delivery/delivery.worker.ts:69-111 | the tables after RunOnce, started from a reachable system nobody else touches, are those of a reachable system; without a shutdown, its steps from reading the due batch on are a full tick in the sense of BoundedBypass |
| `SoloTick.DrainIsRun` | apps/server/src/delivery/delivery.worker.ts:82-103 | every prefix of a drain, in clock order, is a run of the protocol that tries each of its jobs |
| `SoloTick.RecoverIsRun` | apps/server/src/delivery/delivery.service.ts:238-282 | every prefix of a recovery loop is a run of the protocol |
| `SoloTick.OldestIsDueBatch` | apps/server/src/delivery/delivery.repository.ts:55-66 | the batch findDueJobIds returns is one that bounded bypass speaks of |
| `Worker.DeliveryWorker.RunOnce` | apps/server/src/delivery/delivery.worker.ts:69-111 | one pass: recovers the oldest expired claims, then drains the oldest due jobs up to the point of shutdown; states the tables, messages, counters and result it leaves, and that ticking is over |
| `Worker.DeliveryWorker.ClaimAndRun` | apps/server/src/delivery/delivery.worker.ts:82-103 | a lost claim changes nothing; processed is counted exactly when no exception escaped |
| `Services.DeliveryService.ExecuteClaimedJob` | apps/server/src/delivery/delivery.service.ts:54-98 | rows, messages, counters and outcome of one execution, including the missing event and the attempt number already taken |
| `Services.DeliveryService.OnRetryableFailure` | apps/server/src/delivery/delivery.service.ts:170-228 | leaves the job FAILED when the budget is spent and else RETRYING at settle time plus delay, with the two messages of either case |
| `Services.DeliveryService.RecoverOne` | apps/server/src/delivery/delivery.service.ts:243-279 | one turn of the recovery loop, whatever the row has become since it was read: released exactly when the guard matches, and only then counted and published |
| `Services.DeliveryService.RecoverStaleJobs` | apps/server/src/delivery/delivery.service.ts:238-282 | the loop's tables, messages and counters, and a result equal to the number of rows released, while nobody else writes |
| `Storage.DeliveryRepository.Claim` | apps/server/src/delivery/delivery.repository.ts:77-94 | succeeds exactly on a claimable row that is due, and burns one attempt there |
| `Storage.DeliveryRepository.ReleaseStaleJob` | apps/server/src/delivery/delivery.repository.ts:129-148 | releases exactly when the row is DELIVERING with the lockedAt that was read, and then shows the new status on the event |
| `Storage.DeliveryRepository.FindDueJobIds` | apps/server/src/delivery/delivery.repository.ts:55-66 | the PENDING and RETRYING jobs that have been due longest, in order of nextAttemptAt, distinct, as many as the limit allows |
| `Storage.DeliveryRepository.FindStaleJobs` | apps/server/src/delivery/delivery.repository.ts:116-122 | the DELIVERING jobs locked longest before the cutoff, in order of lockedAt, as many as the limit allows, with their rows as read |
| `Storage.AttemptsService.CloseAbandoned` | apps/server/src/attempts/attempts.service.ts:54-65 | closes exactly the open rows of the event and returns how many |
| `Storage.AttemptsService.FindLatestForEvents` | apps/server/src/attempts/attempts.service.ts:72-85 | maps exactly the named events that have attempts, each to its row with the highest number |
| `Storage.LastAreLatest` | apps/server/src/attempts/attempts.service.ts:80-84 | over rows by ascending number, the last row put under an event is its latest |
| `Services.EventsService.Ingest` | apps/server/src/events/events.service.ts:64-123 | a new id stores event and job together; a known one changes no row and answers with the stored one; an orphaned job is an error that leaves nothing behind |
| `Services.IngestMessageSaysTheRow` | apps/server/src/events/events.service.ts:78-122 | the message about a submission names its outcome and says the status of the stored event |
| `Services.MetricsService.RecordAttemptDuration` | apps/server/src/metrics/metrics.service.ts:83-86 | the window holds the last 500 of all durations ever recorded, position by position, oldest first |
| `Dashboard.TraceShape` | apps/server/src/delivery/delivery.service.ts:67-228 | the messages of a life are (started failed retry_scheduled)* started followed by succeeded, failed, or failed exhausted, with the right attempt numbers and statuses |
| `Dashboard.MessagesSayTheRow` | apps/server/src/delivery/delivery.service.ts:24-31 | no message of an execution runs ahead of the database: each says the status and attempt number the job row holds when it is published, the last one also the retry's stored due time, and failures repeat the answer |
| `Dashboard.SweepSaysTheRow` | apps/server/src/delivery/delivery.service.ts:263-276 | the message of a recovery says what the row was released to, and that the worker crashed |
| `Dashboard.RowInFlight` | apps/server/src/delivery/delivery.service.ts:68-76 | from the message that attempt n has started until its last message, the live row reads DELIVERING with n attempts; the start changes nothing else, and a failure brings only its error |
| `Dashboard.ErrorAfterAttempt` | apps/client/hooks/useEngineState.ts:137-147 | after any answer the row shows that answer's error, none after a success; only an answer with no status and no text leaves the error of an earlier attempt standing |
| `Dashboard.ErrorAfterSweep` | apps/client/hooks/useEngineState.ts:137-147 | the message of a recovery brings the released status, count and due time, and leaves the error of an earlier attempt standing although the log records a crash |
| `Dashboard.DashboardAgrees` | apps/client/hooks/useEngineState.ts:120-152 | after every attempt of a life the patched row equals the REST row on status and attemptCount, on nextAttemptAt exactly unless delivered, and on lastError exactly when the last failure's text survives truncation |
| `OneProcess.ProcessPublishesLives` | apps/client/hooks/useEngineState.ts:92-96 | after any submissions and ticks of one process whose receiver is heard out, what it published about an event's delivery is the trace of a life ending in the stored rows, and the row patched from everything published about the event, submissions included, agrees with REST as in DashboardAgrees |
| `OneProcess.TickOnce` | apps/server/src/delivery/delivery.worker.ts:69-111 | what RunOnce leaves is a tick of such a history |
| `OneProcess.SubmitOnce` | apps/server/src/events/events.service.ts:64-123 | what Ingest leaves, when it answers, is a submission of such a history |
| `Dashboard.DuplicateIsWipedOut` | apps/client/hooks/useEngineState.ts:120-152 | a message about a duplicate submission, wherever it falls and whatever status it carries, leaves no trace in the row after the next message about the delivery |
| `Dashboard.TextSurvivesExactly` | apps/server/src/attempts/attempts.service.ts:92-95 | the texts truncation leaves alone: none, 1 to 1000 characters, or 1003 that already end in the mark of truncation |
| `Dashboard.RowsAreIndependent` | apps/client/hooks/useEngineState.ts:124-150 | however messages interleave, each row ends as if only its own event's had come; the row of an event called "-" never moves |
| `Dashboard.LastRowIsLatest` | apps/server/src/events/events.service.ts:182-209 | the attempt REST reports as the last one is the one numbered attemptCount |
| `Ledger.BooksBalance` | apps/server/src/metrics/metrics.service.ts:23-45 | whenever no attempt is in flight: attempts counted = sum of attemptCount = attempt rows = succeeded + permanent + retryable; retryable = scheduled + exhausted; delivered and failed jobs are the outcomes that ended them; accepted events = events with a job |
| `OneProcess.ProcessBooksBalance` | apps/server/src/metrics/metrics.service.ts:41-43 | after any submissions and ticks of one process from an empty database, the counters of Ingest and RunOnce are such books over the stored tables |
| `Ingestion.EventAndJobTogether` | apps/server/src/events/events.service.ts:64-76 | over all interleavings of submissions, events and jobs have the same keys |
| `Ingestion.CommitStoresPendingJob` | apps/server/src/events/events.service.ts:64-76 | over all interleavings, a stored id that no delivery step has touched has a PENDING event row with its winner's content and a PENDING job, unclaimed and due at the moment of its own commit |
| `Ingestion.FreshIsAccepted` | apps/server/src/events/events.service.ts:64-95 | from any reachable state, a submission whose id is neither stored nor being inserted can be accepted, and stores exactly its event and job |
| `Ingestion.StoredIsAnswered` | apps/server/src/events/events.service.ts:98-123 | from any reachable state, a submission whose id is stored can be answered with the stored row, and changes no table |
| `Ingestion.AnswerFollowsDelivery` | apps/server/src/events/events.service.ts:98-123 | once a delivery step has shown a status, a duplicate can be answered with the stored content and that status |
| `Ingestion.StoredWasSubmitted` | apps/server/src/events/events.service.ts:64-76 | over all interleavings, what is stored under a key was submitted, unchanged, under an id with that key |
| `Ingestion.KeyMeaning` | apps/server/src/database/migrations/1758300000000-InitialSchema.ts:30-33 | two ids have the same key on SQLite exactly if they are equal, and on MySQL exactly if they differ at most in the case of letters |
| `Ingestion.AtMostOneAccepted` | apps/server/src/events/events.service.ts:64-95 | at most one submission of an id is answered as new |
| `Ingestion.DuplicatesReturnTheWinner` | apps/server/src/events/events.service.ts:103-123 | every duplicate answer is the content of another submission of the same id that committed, and that content is still stored |
| `Ingestion.DuplicateAnswersWhatItRead` | apps/server/src/events/events.service.ts:103-123 | every duplicate answer is the row, status included, that was stored when the submission read it |
| `Ingestion.FirstContentStays` | apps/server/src/events/events.service.ts:98-102 | no later submission or delivery step changes stored type, time or payload |
| `Ingestion.GaveUpFoundNothing` | apps/server/src/events/events.service.ts:103-110 | over all interleavings, a submission answered with an error has read three times, and its id was unstored at each of these reads |
| `Ingestion.FindExistingWithRetry` | apps/server/src/events/events.service.ts:125-132 | returns the first row any of its reads sees, and nothing exactly if none does |
| `SerialQueue.QueueIsSerial` | apps/server/src/database/transaction.runner.ts:30-42 | units begin once each in call order, each caller gets its own unit's outcome, a failing unit alters nothing, and the final database is the fold of the successful units |
| `SerialQueue.QueueIsHistory` | apps/server/src/database/transaction.runner.ts:30-42 | every run is a sequence of databases, one between each two calls: a unit that commits leads from one to the next, a failing one leaves it, and each settled promise holds its own unit's value or error |
| `SerialQueue.AtMostOneActive` | apps/server/src/database/transaction.runner.ts:12-16 | at most one unit of work is active at any time |
| `SerialQueue.QueueSettles` | apps/server/src/database/transaction.runner.ts:30-42 | n calls are over after 3n steps of the runtime: no run takes more, one that has taken as many has given every call its own outcome, and until every call is settled there is a step to take |
| `SerialQueue.TransactionRunner.Run` | apps/server/src/database/transaction.runner.ts:30-42 | one call extends the chain of promises exactly as the machine's call step does |
| `RetryPolicy.ReadRetryDelays` | apps/server/src/config/configuration.ts:81-106 | rejects exactly a list with a piece that is negative or no number; else returns maxAttempts - 1 delays: the numbers of the list in written order, or delay 1 and delay 2, the last one repeated, 0 when there is none |
| `RetryPolicy.ParseListKeepsOrder` | apps/server/src/config/configuration.ts:84-96 | a list that is not rejected gives its numbers in written order, blanks leaving no gap |
| `RetryPolicy.PaddingRefinesClamping` | apps/server/src/delivery/retry-policy.ts:55-59 | delayAfterAttemptMs on the padded list equals the unpadded list at min(k - 1, length - 1), or 0 when empty |
| `RetryPolicy.ParseListRejects` | apps/server/src/config/configuration.ts:86-96 | the list is rejected exactly when some piece is not a number or is negative |

## Left out

- HTTP transport, signing and error texts: an answer is any result, and `Dashboard.WellFormed` is what the client's code makes of it.
- TypeORM, SQL dialects, NestJS wiring and validation: each SELECT, INSERT and UPDATE is one atomic step with its WHERE clause and unique keys.
- Socket.IO, throttling and connection counts: only the ordered list of published messages is kept, without eventType, durations, attemptsRemaining, classification and message text.
- React rendering, timers, fetching and formatting, and the node list of RetryFlow.
- The test receiver, the health endpoint, dashboard averages, search and listing.
- Environment parsing other than the retry delays, and settings that are not integers; an empty RETRY_DELAYS_MS counts as absent, as in the source.
- The worker's self-rescheduling timer: a tick is whatever RunOnce does, and nothing is said about when the next one comes.
- Database failures in the middle of a method, other than unique violations: in the protocol they are a process that stops taking steps.
- TransactionRunner on MySQL, which passes the work straight to the database: Ingestion lets those transactions interleave.
- Scheduling.BoundedBypass: needs non-negative delays; a negative delay can put any retried job ahead.
- Passes.ReturnsAddUp: a process that dies after the last row of its batch and before the call returns is not told apart from one that returns.
- OneProcess.ProcessPublishesLives: one worker process without crashes, every answer heard, a client that receives every message, and submissions between ticks. A duplicate answered while an attempt is in flight is covered by Dashboard.DuplicateIsWipedOut; one that reads the event before the attempt settles and publishes after it is not.
- OneProcess.ProcessBooksBalance: one process without crashes; jobs_recovered and worker_ticks are stated by RunOnce only.
- Progress.NothingIsStranded: shows that a recovery is enabled and succeeds alone, not that some process performs it.
- Worker.DeliveryWorker.RunOnce: states the pass while nobody else writes; what others may do between its statements is the protocol's matter.
- Services.DeliveryService.RecoverStaleJobs: likewise; RecoverOne has the release that loses, and Passes the counts of passes that interleave.
- SoloTick.TickIsRun: covers passes that nobody interferes with and whose clock does not go back; how concurrent passes interleave is the protocol's own matter.
- Storage.DeliveryRepository.Claim: reads the row back in the same call; in the protocol the UPDATE and the SELECT after it are two steps.
- Services.EventsService.Ingest: compares ids exactly, as SQLite does; Ingestion has MySQL's case-insensitive keys.
- Ingestion.AtMostOneAccepted: of the collation, only that letter case is ignored for the letters A to Z.
- Services.MetricsService.RecordAttemptDuration: stands for the three windows, which are handled alike; averages are not modelled, and executions here do not report durations.
