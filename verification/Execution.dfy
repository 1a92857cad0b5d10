/**
 * One execution of a claimed job and one sweep of a stale job, each run from end to end: the rows
 * it leaves, the realtime messages it publishes and the counters it increments
 * (delivery.service.ts). ExecutionRefinesProtocol and SweepRefinesProtocol tie both to the steps
 * of the protocol.
 */
module Execution {
  import opened DeliveryTypes
  import opened RetryPolicy
  import opened Rows
  import opened Protocol

  /** The rows of one event. */
  datatype Slice = Slice(job: Job, event: Event, rows: map<nat, Attempt>)

  /** The moments at which one execution opens its attempt, closes it and settles the job. */
  datatype Stamps = Stamps(startedAt: int, completedAt: int, settledAt: int)

  /** What the receiver does to an attempt; Throws is an unexpected error after the row was opened. */
  datatype Reply = Answers(result: WebhookResult) | Throws

  function ExecuteSlice(c: Config, s: Slice, seen: Job, st: Stamps, reply: Reply): Slice {
    var n := seen.attemptCount;
    if n in s.rows then s
    else
      var withRow := s.rows[n := OpenAttempt(st.startedAt)];
      match reply
      case Throws => s.(rows := withRow)
      case Answers(result) =>
        var status := Verdict(c, n, result);
        Slice(TransitionRow(s.job, status, VerdictNext(c, n, result, st.settledAt)),
              s.event.(status := status),
              withRow[n := CompleteAttempt(OpenAttempt(st.startedAt), result, st.completedAt)])
  }

  /** A sweep that read `seen` at `now` and gets to close and release the job at `at`. */
  function SweepSlice(c: Config, s: Slice, seen: Job, now: int, at: int): Slice {
    var next := ReleaseTarget(c, seen, now);
    var rows := CloseAbandonedRows(s.rows, AbandonReason(seen), at);
    if CanRelease(s.job, seen) then Slice(ReleaseRow(s.job, next), s.event.(status := next.0), rows)
    else s.(rows := rows)
  }

  // ---- the realtime messages ------------------------------------------------------

  datatype Kind =
    | EventAccepted | DuplicateEvent | DeliveryStarted | DeliverySucceeded | DeliveryFailed
    | RetryScheduled | DeliveryExhausted | DeliveryRecovered

  /** A field that may be left out, sent as null, or sent. */
  datatype Field = Absent | Sent(value: Option<int>)

  datatype Message = Message(
    kind: Kind,
    id: EventId,
    status: Option<DeliveryStatus>,
    attemptNumber: Option<nat>,
    httpStatus: Option<int>,
    errorType: Option<ErrorType>,
    errorMessage: Option<string>,
    nextAttemptAt: Field)

  function StartedMessage(id: EventId, n: nat): Message {
    Message(DeliveryStarted, id, Some(Delivering), Some(n), None, None, None, Absent)
  }

  function AttemptFailed(id: EventId, n: nat, result: WebhookResult): Message {
    Message(DeliveryFailed, id, Some(Delivering), Some(n), result.httpStatus, result.errorType, result.errorMessage, Absent)
  }

  /** What is published once the answer is in. */
  function OutcomeMessages(c: Config, id: EventId, n: nat, result: WebhookResult, settledAt: int): seq<Message> {
    match Classify(result)
    case Succeeded =>
      [Message(DeliverySucceeded, id, Some(Delivered), Some(n), result.httpStatus, None, None, Absent)]
    case Permanent =>
      [Message(DeliveryFailed, id, Some(DeliveryStatus.Failed), Some(n), result.httpStatus, result.errorType,
               result.errorMessage, Field.Sent(None))]
    case Retryable =>
      if IsExhausted(c, n) then
        [AttemptFailed(id, n, result),
         Message(DeliveryExhausted, id, Some(DeliveryStatus.Failed), Some(n), result.httpStatus, result.errorType,
                 result.errorMessage, Field.Sent(None))]
      else
        [AttemptFailed(id, n, result),
         Message(RetryScheduled, id, Some(Retrying), Some(n), result.httpStatus, result.errorType,
                 result.errorMessage, Field.Sent(Some(NextAttemptAt(c, n, settledAt))))]
  }

  function ExecuteMessages(c: Config, id: EventId, n: nat, st: Stamps, reply: Reply): seq<Message> {
    [StartedMessage(id, n)]
    + match reply
      case Throws => []
      case Answers(result) => OutcomeMessages(c, id, n, result, st.settledAt)
  }

  function SweepMessage(c: Config, id: EventId, seen: Job, now: int): Message {
    var next := ReleaseTarget(c, seen, now);
    Message(if next.0 == Retrying then DeliveryRecovered else DeliveryExhausted, id, Some(next.0),
            Some(seen.attemptCount), None, Some(WorkerCrash), None,
            Field.Sent(if next.0 == Retrying then Some(next.1) else None))
  }

  // ---- the counters -----------------------------------------------------------------

  datatype Counter =
    | EventsAccepted | EventsDuplicate | DeliveryAttempts | DeliveriesSucceeded | FailuresRetryable
    | FailuresPermanent | DeliveriesExhausted | RetriesScheduled | JobsRecovered | WorkerTicks

  function OutcomeCounters(c: Config, n: nat, result: WebhookResult): multiset<Counter> {
    match Classify(result)
    case Succeeded => multiset{DeliveriesSucceeded}
    case Permanent => multiset{FailuresPermanent}
    case Retryable =>
      if IsExhausted(c, n) then multiset{FailuresRetryable, DeliveriesExhausted}
      else multiset{FailuresRetryable, RetriesScheduled}
  }

  function ExecuteCounters(c: Config, n: nat, reply: Reply): multiset<Counter> {
    multiset{DeliveryAttempts}
    + match reply
      case Throws => multiset{}
      case Answers(result) => OutcomeCounters(c, n, result)
  }

  // ---- refinement ---------------------------------------------------------------------

  function SliceOf(s: Cell): Slice {
    Slice(s.job, s.event, s.attempts)
  }

  datatype Timed = At(now: int, step: CellStep)

  /** Cell steps at moments that never go back, or None when some step is not enabled. */
  function TimedRun(c: Config, g: Regime, s: Cell, steps: seq<Timed>): Option<Cell>
    decreases |steps|
  {
    if steps == [] then Some(s)
    else if !CellEnabled(c, g, steps[0].now, s, steps[0].step) then None
    else if |steps| > 1 && steps[1].now < steps[0].now then None
    else TimedRun(c, g, CellApply(c, g, steps[0].now, s, steps[0].step), steps[1..])
  }

  lemma TimedCons(c: Config, g: Regime, s: Cell, first: Timed, rest: seq<Timed>)
    requires CellEnabled(c, g, first.now, s, first.step)
    requires rest != [] ==> first.now <= rest[0].now
    ensures TimedRun(c, g, s, [first] + rest) == TimedRun(c, g, CellApply(c, g, first.now, s, first.step), rest)
  {
    assert ([first] + rest)[1..] == rest;
  }

  function ExecutionSteps(i: nat, st: Stamps, result: WebhookResult): seq<Timed> {
    [At(st.startedAt, Start(i)), At(st.startedAt, Send(i)), At(st.completedAt, Answer(i, result)),
     At(st.completedAt, Complete(i)), At(st.settledAt, WriteJob(i)), At(st.settledAt, WriteEvent(i))]
  }

  /** An execution whose INSERT succeeds and whose receiver answers is six steps of the protocol. */
  lemma ExecutionRefinesProtocol(c: Config, g: Regime, s: Cell, i: nat, st: Stamps, result: WebhookResult)
    requires !g.fused && Exists(s, i) && s.phases[i].Loaded? && s.phases[i].job.attemptCount !in s.attempts
    requires st.startedAt <= st.completedAt <= st.settledAt
    requires g.leased ==> st.settledAt <= s.claims[i].at + c.leaseMs
    ensures TimedRun(c, g, s, ExecutionSteps(i, st, result)).Some?
    ensures SliceOf(TimedRun(c, g, s, ExecutionSteps(i, st, result)).value) ==
            ExecuteSlice(c, SliceOf(s), s.phases[i].job, st, Answers(result))
  {
    var job := s.phases[i].job;
    var s1 := ApplyStart(s, st.startedAt, i);
    var s2 := ApplySend(s1, i);
    var s3 := ApplyAnswer(s2, i, result);
    var s4 := ApplyComplete(s3, st.completedAt, i);
    var s5 := ApplyWriteJob(c, g, s4, st.settledAt, i);
    var r5 := [At(st.settledAt, WriteEvent(i))];
    var r4 := [At(st.settledAt, WriteJob(i))] + r5;
    var r3 := [At(st.completedAt, Complete(i))] + r4;
    var r2 := [At(st.completedAt, Answer(i, result))] + r3;
    var r1 := [At(st.startedAt, Send(i))] + r2;
    TimedCons(c, g, s5, At(st.settledAt, WriteEvent(i)), []);
    assert r5 == [At(st.settledAt, WriteEvent(i))] + [];
    TimedCons(c, g, s4, At(st.settledAt, WriteJob(i)), r5);
    TimedCons(c, g, s3, At(st.completedAt, Complete(i)), r4);
    TimedCons(c, g, s2, At(st.completedAt, Answer(i, result)), r3);
    TimedCons(c, g, s1, At(st.startedAt, Send(i)), r2);
    TimedCons(c, g, s, At(st.startedAt, Start(i)), r1);
    assert ExecutionSteps(i, st, result) == [At(st.startedAt, Start(i))] + r1;
  }

  /** Releasing a swept job and writing its event row. */
  lemma ReleaseRefines(c: Config, g: Regime, s: Cell, r: nat, at: int)
    requires !g.fused && r < |s.recs| && s.recs[r].sweep.Swept? && CanRelease(s.job, s.recs[r].sweep.seen)
    ensures var next := ReleaseTarget(c, s.recs[r].sweep.seen, s.recs[r].now);
            var run := TimedRun(c, g, s, [At(at, Release(r)), At(at, WriteReleased(r))]);
            run.Some? && SliceOf(run.value) == Slice(ReleaseRow(s.job, next), s.event.(status := next.0), s.attempts)
  {
    var s1 := ApplyRelease(c, g, s, r);
    TimedCons(c, g, s1, At(at, WriteReleased(r)), []);
    TimedCons(c, g, s, At(at, Release(r)), [At(at, WriteReleased(r))]);
    assert [At(at, Release(r)), At(at, WriteReleased(r))] == [At(at, Release(r))] + ([At(at, WriteReleased(r))] + []);
  }

  lemma ReleaseLost(c: Config, g: Regime, s: Cell, r: nat, at: int)
    requires r < |s.recs| && s.recs[r].sweep.Swept? && !CanRelease(s.job, s.recs[r].sweep.seen)
    ensures var run := TimedRun(c, g, s, [At(at, Release(r))]); run.Some? && SliceOf(run.value) == SliceOf(s)
  {
    TimedCons(c, g, s, At(at, Release(r)), []);
    assert [At(at, Release(r))] == [At(at, Release(r))] + [];
  }

  /** Closing, releasing and projecting a stale job is three steps of the protocol, or two when the release loses. */
  lemma SweepRefinesProtocol(c: Config, g: Regime, s: Cell, r: nat, at: int)
    requires !g.fused && r < |s.recs| && s.recs[r].sweep.Seen?
    ensures var seen := s.recs[r].sweep.seen;
            var steps := [At(at, CloseAbandoned(r)), At(at, Release(r))]
                         + if CanRelease(s.job, seen) then [At(at, WriteReleased(r))] else [];
            && TimedRun(c, g, s, steps).Some?
            && SliceOf(TimedRun(c, g, s, steps).value) == SweepSlice(c, SliceOf(s), seen, s.recs[r].now, at)
  {
    var closed := ApplyCloseAbandoned(s, at, r);
    var rest := [At(at, Release(r))] + if CanRelease(s.job, s.recs[r].sweep.seen) then [At(at, WriteReleased(r))] else [];
    if CanRelease(s.job, s.recs[r].sweep.seen) {
      ReleaseRefines(c, g, closed, r, at);
      assert rest == [At(at, Release(r)), At(at, WriteReleased(r))];
      assert [At(at, CloseAbandoned(r)), At(at, Release(r))] + [At(at, WriteReleased(r))] == [At(at, CloseAbandoned(r))] + rest;
    } else {
      ReleaseLost(c, g, closed, r, at);
      assert rest == [At(at, Release(r))];
      assert [At(at, CloseAbandoned(r)), At(at, Release(r))] + [] == [At(at, CloseAbandoned(r))] + rest;
    }
    TimedCons(c, g, s, At(at, CloseAbandoned(r)), rest);
  }
}
