/**
 * What each SQL statement of the engine does to the rows it touches
 * (delivery.repository.ts, attempts.service.ts). The protocol's steps and the imperative
 * services are both written in terms of these.
 */
module Rows {
  import opened DeliveryTypes
  import StatusMachine
  import opened RetryPolicy

  // ---- delivery_jobs --------------------------------------------------------

  /** insertJob */
  function NewJob(now: int): Job {
    Job(Pending, 0, now, None, None)
  }

  /** The WHERE clause of claim. */
  predicate CanClaim(job: Job, now: int) {
    StatusMachine.IsClaimable(job.status) && job.nextAttemptAt <= now
  }

  /** The SET clause of claim. */
  function ClaimRow(job: Job, worker: string, now: int): Job {
    job.(status := Delivering, attemptCount := job.attemptCount + 1, lockedAt := Some(now), lockedBy := Some(worker))
  }

  /** transition: an UPDATE by id, whatever the row holds. */
  function TransitionRow(job: Job, status: DeliveryStatus, nextAttemptAt: Option<int>): Job {
    job.(status := status,
         nextAttemptAt := if nextAttemptAt.Some? then nextAttemptAt.value else job.nextAttemptAt,
         lockedAt := None, lockedBy := None)
  }

  /** The WHERE clause of findStaleJobs. */
  predicate IsStale(job: Job, cutoff: int) {
    job.status == Delivering && job.lockedAt.Some? && job.lockedAt.value < cutoff
  }

  /** The WHERE clause of releaseStaleJob, for the row the sweep read earlier. */
  predicate CanRelease(job: Job, seen: Job) {
    job.status == Delivering && job.lockedAt.Some? && job.lockedAt == seen.lockedAt
  }

  /** The `next` that recoverStaleJobs computes for a stale row. */
  function ReleaseTarget(c: Config, seen: Job, now: int): (DeliveryStatus, int) {
    if IsExhausted(c, seen.attemptCount) then (DeliveryStatus.Failed, seen.nextAttemptAt)
    else (Retrying, NextAttemptAt(c, seen.attemptCount, now))
  }

  /** The SET clause of releaseStaleJob. */
  function ReleaseRow(job: Job, next: (DeliveryStatus, int)): Job {
    job.(status := next.0, nextAttemptAt := next.1, lockedAt := None, lockedBy := None)
  }

  // ---- what an answered attempt decides --------------------------------------

  function Verdict(c: Config, attemptNumber: nat, result: WebhookResult): DeliveryStatus {
    match Classify(result)
    case Succeeded => Delivered
    case Permanent => DeliveryStatus.Failed
    case Retryable => if IsExhausted(c, attemptNumber) then DeliveryStatus.Failed else Retrying
  }

  /** The `nextAttemptAt` that goes with the verdict; only a retry has one. */
  function VerdictNext(c: Config, attemptNumber: nat, result: WebhookResult, now: int): Option<int> {
    if Verdict(c, attemptNumber, result) == Retrying then Some(NextAttemptAt(c, attemptNumber, now)) else None
  }

  // ---- delivery_attempts ------------------------------------------------------

  const MAX_MESSAGE := 1000

  function Truncate(message: Option<string>): Option<string> {
    if message.None? || message.value == "" then None
    else if |message.value| > MAX_MESSAGE then Some(message.value[..MAX_MESSAGE] + "...")
    else message
  }

  function OpenAttempt(now: int): Attempt {
    Attempt(now, None, InProgress, None, None, None)
  }

  /** attempts.complete as called by the three handlers. */
  function CompleteAttempt(row: Attempt, result: WebhookResult, now: int): Attempt {
    if Classify(result).Succeeded? then
      row.(status := Success, httpStatus := result.httpStatus, errorType := None, errorMessage := None,
           completedAt := Some(now))
    else
      row.(status := AttemptStatus.Failed, httpStatus := result.httpStatus,
           errorType := if result.errorType.Some? then result.errorType else Some(Unknown),
           errorMessage := Truncate(result.errorMessage),
           completedAt := Some(now))
  }

  /** The WHERE clause of closeAbandoned. */
  predicate IsOpen(row: Attempt) {
    row.status == InProgress && row.completedAt.None?
  }

  function CloseAbandonedRow(row: Attempt, reason: string, now: int): Attempt {
    if IsOpen(row) then
      row.(status := AttemptStatus.Failed, errorType := Some(WorkerCrash), errorMessage := Some(reason),
           completedAt := Some(now))
    else row
  }

  function AbandonReason(seen: Job): string {
    "Worker " + (if seen.lockedBy.Some? then seen.lockedBy.value else "unknown")
    + " stopped responding; lease expired"
  }
}
