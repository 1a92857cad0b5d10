/** The rows, results and enumerations shared by every part of the delivery engine. */
module DeliveryTypes {

  datatype Option<+T> = None | Some(value: T)

  type EventId = string

  datatype DeliveryStatus = Pending | Delivering | Retrying | Delivered | Failed

  datatype AttemptStatus = InProgress | Success | Failed

  datatype ErrorType = HttpError | Timeout | ConnectionRefused | DnsError | NetworkError | WorkerCrash | Unknown

  /** One row of `delivery_jobs`. The UNIQUE(eventId) index makes eventId its key. */
  datatype Job = Job(
    status: DeliveryStatus,
    attemptCount: nat,
    nextAttemptAt: int,
    lockedAt: Option<int>,
    lockedBy: Option<string>)

  /** One row of `events`. */
  datatype Event = Event(eventType: string, occurredAt: int, payload: string, status: DeliveryStatus)

  /** One row of `delivery_attempts`, keyed by UNIQUE(eventId, attemptNumber). */
  datatype Attempt = Attempt(
    startedAt: int,
    completedAt: Option<int>,
    status: AttemptStatus,
    httpStatus: Option<int>,
    errorType: Option<ErrorType>,
    errorMessage: Option<string>)

  /** What the webhook client reports about one HTTP call. */
  datatype WebhookResult = WebhookResult(
    responded: bool,
    httpStatus: Option<int>,
    errorType: Option<ErrorType>,
    errorMessage: Option<string>)

  /** Retry and lease settings; start-up rejects maxAttempts below 1. */
  datatype Settings = Settings(maxAttempts: nat, delaysMs: seq<int>, leaseMs: nat)

  type Config = c: Settings | c.maxAttempts >= 1 witness Settings(1, [], 0)
}
