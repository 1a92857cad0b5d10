/**
 * The services of the engine as objects that update the tables, the metrics and the realtime
 * stream (delivery.service.ts, delivery.worker.ts, metrics.service.ts, events.service.ts). Each
 * method is proved against the functions of Statements. Clocks, the receiver's answers and the
 * moment of shutdown are parameters.
 */
module Services {
  import opened DeliveryTypes
  import opened RetryPolicy
  import opened Rows
  import opened Execution
  import opened Statements
  import opened Storage

  // ---- metrics ------------------------------------------------------------------------

  const ROLLING_WINDOW := 500

  /** The window holds the last of the values, oldest first, at most `size` of them. */
  ghost predicate IsWindow(window: seq<int>, values: seq<int>, size: nat) {
    && |window| == (if |values| < size then |values| else size)
    && forall i :: 0 <= i < |window| ==> window[i] == values[|values| - |window| + i]
  }

  function Count<K(==)>(counters: map<K, nat>, name: K): nat {
    if name in counters then counters[name] else 0
  }

  function Incremented<K(==)>(counters: map<K, nat>, name: K): map<K, nat> {
    counters[name := Count(counters, name) + 1]
  }

  ghost predicate Added(before: map<Counter, nat>, after: map<Counter, nat>, more: multiset<Counter>) {
    forall name :: Count(after, name) == Count(before, name) + more[name]
  }

  class MetricsService {
    var counters: map<Counter, nat>
    var httpStatuses: map<int, nat>
    var attemptDurationsMs: seq<int>
    ghost var durations: seq<int>

    constructor ()
      ensures counters == map[] && httpStatuses == map[] && attemptDurationsMs == [] && durations == []
    {
      counters, httpStatuses, attemptDurationsMs, durations := map[], map[], [], [];
    }

    method Increment(name: Counter)
      modifies this`counters
      ensures counters == Incremented(old(counters), name)
    {
      counters := counters[name := (if name in counters then counters[name] else 0) + 1];
    }

    method RecordHttpStatus(status: int)
      modifies this`httpStatuses
      ensures httpStatuses == Incremented(old(httpStatuses), status)
    {
      httpStatuses := httpStatuses[status := (if status in httpStatuses then httpStatuses[status] else 0) + 1];
    }

    /** `durations` is every duration ever recorded. */
    method RecordAttemptDuration(durationMs: int)
      requires IsWindow(attemptDurationsMs, durations, 500)
      modifies this`attemptDurationsMs, this`durations
      ensures durations == old(durations) + [durationMs]
      ensures IsWindow(attemptDurationsMs, durations, 500)
    {
      durations := durations + [durationMs];
      attemptDurationsMs := attemptDurationsMs + [durationMs];
      if |attemptDurationsMs| > ROLLING_WINDOW {
        attemptDurationsMs := attemptDurationsMs[1..];
      }
    }
  }

  // ---- the realtime stream --------------------------------------------------------------

  class RealtimePublisher {
    var published: seq<Message>

    constructor ()
      ensures published == []
    {
      published := [];
    }

    method Publish(m: Message)
      modifies this
      ensures published == old(published) + [m]
    {
      published := published + [m];
    }
  }

  // ---- delivery --------------------------------------------------------------------------

  datatype DeliveryOutcome =
    | WasDelivered(number: nat, httpStatus: int)
    | WillRetry(number: nat, nextAttemptAt: int)
    | WasExhausted(number: nat)
    | WasRefused(number: nat, answer: Option<int>)
    | Skipped
    | Raised           // an exception left the method

  class DeliveryService {
    const c: Config
    const db: Database
    const repository: DeliveryRepository
    const attempts: AttemptsService
    const metrics: MetricsService
    const realtime: RealtimePublisher

    constructor (c: Config, db: Database, metrics: MetricsService, realtime: RealtimePublisher)
      ensures this.c == c && this.db == db && this.metrics == metrics && this.realtime == realtime && Valid()
    {
      this.c, this.db, this.metrics, this.realtime := c, db, metrics, realtime;
      repository := new DeliveryRepository(db);
      attempts := new AttemptsService(db);
    }

    ghost predicate Valid() {
      repository.db == db && attempts.db == db
    }

    method ExecuteClaimedJob(id: EventId, job: Job, st: Stamps, reply: Reply) returns (outcome: DeliveryOutcome)
      requires Valid()
      modifies db, metrics`counters, metrics`httpStatuses, realtime
      ensures db.Snapshot() == Execute(c, old(db.Snapshot()), id, job, st, reply)
      ensures realtime.published == old(realtime.published) + ExecuteTrace(c, old(db.Snapshot()), id, job, st, reply)
      ensures Added(old(metrics.counters), metrics.counters, ExecuteCount(c, old(db.Snapshot()), id, job, reply))
      ensures metrics.httpStatuses ==
              if Opens(old(db.Snapshot()), id, job) && reply.Answers? && reply.result.httpStatus.Some? then
                Incremented(old(metrics.httpStatuses), reply.result.httpStatus.value)
              else old(metrics.httpStatuses)
      ensures outcome.Skipped? <==> id !in old(db.events)
      ensures outcome.Raised? <==>
              id in old(db.events) && (job.attemptCount in RowsOf(old(db.Snapshot()), id) || reply.Throws?)
      ensures !outcome.Skipped? && !outcome.Raised? ==>
        && outcome.number == job.attemptCount
        && (outcome.WasDelivered? <==> Verdict(c, job.attemptCount, reply.result) == Delivered)
        && (outcome.WillRetry? <==> Verdict(c, job.attemptCount, reply.result) == Retrying)
        && (outcome.WillRetry? ==> outcome.nextAttemptAt == NextAttemptAt(c, job.attemptCount, st.settledAt))
        && (outcome.WasRefused? <==> Classify(reply.result).Permanent?)
    {
      if id !in db.events {
        repository.MarkFailed(id);
        return Skipped;
      }
      var n := job.attemptCount;
      var inserted := attempts.Start(id, n, st.startedAt);
      if !inserted {
        return Raised;
      }
      outcome := SendAndSettle(id, n, st, reply);
    }

    /** The rest of executeClaimedJob, from the moment the attempt row is there. */
    method SendAndSettle(id: EventId, n: nat, st: Stamps, reply: Reply) returns (outcome: DeliveryOutcome)
      requires Valid()
      modifies db, metrics`counters, metrics`httpStatuses, realtime
      ensures db.Snapshot() ==
              if reply.Answers? then SettledTables(old(db.Snapshot()), id, n, reply.result, st) else old(db.Snapshot())
      ensures realtime.published == old(realtime.published) + ExecuteMessages(c, id, n, st, reply)
      ensures Added(old(metrics.counters), metrics.counters, ExecuteCounters(c, n, reply))
      ensures metrics.httpStatuses ==
              if reply.Answers? && reply.result.httpStatus.Some? then
                Incremented(old(metrics.httpStatuses), reply.result.httpStatus.value)
              else old(metrics.httpStatuses)
      ensures !outcome.Skipped? && (outcome.Raised? <==> reply.Throws?)
      ensures reply.Answers? ==>
        && outcome.number == n
        && (outcome.WasDelivered? <==> Verdict(c, n, reply.result) == Delivered)
        && (outcome.WillRetry? <==> Verdict(c, n, reply.result) == Retrying)
        && (outcome.WillRetry? ==> outcome.nextAttemptAt == NextAttemptAt(c, n, st.settledAt))
        && (outcome.WasRefused? <==> Classify(reply.result).Permanent?)
    {
      metrics.Increment(DeliveryAttempts);
      realtime.Publish(StartedMessage(id, n));
      match reply
      case Throws =>
        return Raised;
      case Answers(result) =>
        outcome := OnAnswer(id, n, result, st);
    }

    method OnAnswer(id: EventId, n: nat, result: WebhookResult, st: Stamps) returns (outcome: DeliveryOutcome)
      requires Valid()
      modifies db, metrics`counters, metrics`httpStatuses, realtime
      ensures db.Snapshot() == SettledTables(old(db.Snapshot()), id, n, result, st)
      ensures realtime.published == old(realtime.published) + OutcomeMessages(c, id, n, result, st.settledAt)
      ensures Added(old(metrics.counters), metrics.counters, OutcomeCounters(c, n, result))
      ensures metrics.httpStatuses ==
              if result.httpStatus.Some? then Incremented(old(metrics.httpStatuses), result.httpStatus.value)
              else old(metrics.httpStatuses)
      ensures outcome.WasDelivered? <==> Verdict(c, n, result) == Delivered
      ensures outcome.WillRetry? <==> Verdict(c, n, result) == Retrying
      ensures outcome.WillRetry? ==> outcome.nextAttemptAt == NextAttemptAt(c, n, st.settledAt)
      ensures outcome.WasRefused? <==> Classify(result).Permanent?
      ensures !outcome.Skipped? && !outcome.Raised? && outcome.number == n
    {
      if result.httpStatus.Some? {
        metrics.RecordHttpStatus(result.httpStatus.value);
      }
      match Classify(result)
      case Succeeded => outcome := OnSuccess(id, n, result, st);
      case Permanent => outcome := OnPermanentFailure(id, n, result, st);
      case Retryable => outcome := OnRetryableFailure(id, n, result, st);
    }

    /** What the three handlers leave: the attempt closed, then the job and event rows settled. */
    ghost function SettledTables(t: Tables, id: EventId, n: nat, result: WebhookResult, st: Stamps): Tables {
      Transition(CompleteRow(t, id, n, result, st.completedAt), id, Verdict(c, n, result),
                 VerdictNext(c, n, result, st.settledAt))
    }

    method OnSuccess(id: EventId, n: nat, result: WebhookResult, st: Stamps) returns (outcome: DeliveryOutcome)
      requires Valid() && Classify(result).Succeeded?
      modifies db, metrics`counters, realtime
      ensures db.Snapshot() == SettledTables(old(db.Snapshot()), id, n, result, st)
      ensures realtime.published == old(realtime.published) + OutcomeMessages(c, id, n, result, st.settledAt)
      ensures Added(old(metrics.counters), metrics.counters, OutcomeCounters(c, n, result))
      ensures outcome == WasDelivered(n, result.httpStatus.value)
    {
      attempts.Complete(id, n, Success, result.httpStatus, None, None, st.completedAt);
      repository.MarkDelivered(id);
      metrics.Increment(DeliveriesSucceeded);
      realtime.Publish(Message(DeliverySucceeded, id, Some(Delivered), Some(n), result.httpStatus, None, None, Absent));
      outcome := WasDelivered(n, result.httpStatus.value);
    }

    method OnPermanentFailure(id: EventId, n: nat, result: WebhookResult, st: Stamps) returns (outcome: DeliveryOutcome)
      requires Valid() && Classify(result).Permanent?
      modifies db, metrics`counters, realtime
      ensures db.Snapshot() == SettledTables(old(db.Snapshot()), id, n, result, st)
      ensures realtime.published == old(realtime.published) + OutcomeMessages(c, id, n, result, st.settledAt)
      ensures Added(old(metrics.counters), metrics.counters, OutcomeCounters(c, n, result))
      ensures outcome == WasRefused(n, result.httpStatus)
    {
      CompleteFailedAttempt(id, n, result, st.completedAt);
      metrics.Increment(FailuresPermanent);
      repository.MarkFailed(id);
      realtime.Publish(Message(DeliveryFailed, id, Some(DeliveryStatus.Failed), Some(n), result.httpStatus,
                               result.errorType, result.errorMessage, Field.Sent(None)));
      outcome := WasRefused(n, result.httpStatus);
    }

    /** The row after a retryable failure of attempt n settled at `at`. */
    ghost predicate IsRequeuedOrFailed(was: Job, will: Job, n: nat, at: int) {
      will == if n >= c.maxAttempts then was.(status := DeliveryStatus.Failed, lockedAt := None, lockedBy := None)
              else was.(status := Retrying, nextAttemptAt := at + DelayAfterAttemptMs(c.delaysMs, n), lockedAt := None, lockedBy := None)
    }

    lemma SettledRow(t: Tables, id: EventId, n: nat, result: WebhookResult, st: Stamps)
      requires id in t.jobs && Classify(result).Retryable?
      ensures var after := SettledTables(t, id, n, result, st);
              id in after.jobs && IsRequeuedOrFailed(t.jobs[id], after.jobs[id], n, st.settledAt)
    {
    }

    method OnRetryableFailure(id: EventId, n: nat, result: WebhookResult, st: Stamps) returns (outcome: DeliveryOutcome)
      requires Valid() && Classify(result).Retryable?
      modifies db, metrics`counters, realtime
      ensures db.Snapshot() == SettledTables(old(db.Snapshot()), id, n, result, st)
      ensures id in old(db.jobs) ==> id in db.jobs && IsRequeuedOrFailed(old(db.jobs)[id], db.jobs[id], n, st.settledAt)
      ensures realtime.published == old(realtime.published) + OutcomeMessages(c, id, n, result, st.settledAt)
      ensures Added(old(metrics.counters), metrics.counters, OutcomeCounters(c, n, result))
      ensures outcome == if n >= c.maxAttempts then WasExhausted(n)
                         else WillRetry(n, st.settledAt + DelayAfterAttemptMs(c.delaysMs, n))
    {
      if id in db.jobs {
        SettledRow(db.Snapshot(), id, n, result, st);
      }
      RecordFailure(id, n, result, st.completedAt);
      if IsExhausted(c, n) {
        Exhaust(id, n, result);
        return WasExhausted(n);
      }
      var nextAttemptAt := NextAttemptAt(c, n, st.settledAt);
      Reschedule(id, n, result, nextAttemptAt);
      return WillRetry(n, nextAttemptAt);
    }

    /** What a retryable failure leaves before its consequence is decided. */
    method RecordFailure(id: EventId, n: nat, result: WebhookResult, completedAt: int)
      requires Valid() && Classify(result).Retryable?
      modifies db, metrics`counters, realtime
      ensures db.Snapshot() == CompleteRow(old(db.Snapshot()), id, n, result, completedAt)
      ensures metrics.counters == Incremented(old(metrics.counters), FailuresRetryable)
      ensures realtime.published == old(realtime.published) + [AttemptFailed(id, n, result)]
    {
      CompleteFailedAttempt(id, n, result, completedAt);
      metrics.Increment(FailuresRetryable);
      realtime.Publish(AttemptFailed(id, n, result));
    }

    /** The retry limit is reached. */
    method Exhaust(id: EventId, n: nat, result: WebhookResult)
      requires Valid()
      modifies db, metrics`counters, realtime
      ensures db.Snapshot() == Transition(old(db.Snapshot()), id, DeliveryStatus.Failed, None)
      ensures metrics.counters == Incremented(old(metrics.counters), DeliveriesExhausted)
      ensures realtime.published == old(realtime.published) + [Message(DeliveryExhausted, id, Some(DeliveryStatus.Failed),
                Some(n), result.httpStatus, result.errorType, result.errorMessage, Field.Sent(None))]
    {
      repository.MarkFailed(id);
      metrics.Increment(DeliveriesExhausted);
      realtime.Publish(Message(DeliveryExhausted, id, Some(DeliveryStatus.Failed), Some(n), result.httpStatus,
                               result.errorType, result.errorMessage, Field.Sent(None)));
    }

    /** Another attempt is scheduled. */
    method Reschedule(id: EventId, n: nat, result: WebhookResult, nextAttemptAt: int)
      requires Valid()
      modifies db, metrics`counters, realtime
      ensures db.Snapshot() == Transition(old(db.Snapshot()), id, Retrying, Some(nextAttemptAt))
      ensures metrics.counters == Incremented(old(metrics.counters), RetriesScheduled)
      ensures realtime.published == old(realtime.published) + [Message(RetryScheduled, id, Some(Retrying), Some(n),
                result.httpStatus, result.errorType, result.errorMessage, Field.Sent(Some(nextAttemptAt)))]
    {
      repository.ScheduleRetry(id, nextAttemptAt);
      metrics.Increment(RetriesScheduled);
      realtime.Publish(Message(RetryScheduled, id, Some(Retrying), Some(n), result.httpStatus, result.errorType,
                               result.errorMessage, Field.Sent(Some(nextAttemptAt))));
    }

    method CompleteFailedAttempt(id: EventId, n: nat, result: WebhookResult, completedAt: int)
      requires Valid() && !Classify(result).Succeeded?
      modifies db
      ensures db.Snapshot() == CompleteRow(old(db.Snapshot()), id, n, result, completedAt)
    {
      attempts.Complete(id, n, AttemptStatus.Failed, result.httpStatus,
                        if result.errorType.Some? then result.errorType else Some(Unknown),
                        result.errorMessage, completedAt);
    }

    /** The body of the recovery loop. */
    method RecoverOne(id: EventId, seen: Job, now: int, at: int) returns (released: bool)
      requires Valid()
      modifies db, metrics`counters, realtime
      ensures released <==> IsHeldSince(old(db.jobs), id, seen.lockedAt)
      ensures db.Snapshot() == RecoverRow(c, old(db.Snapshot()), id, seen, now, at)
      ensures realtime.published == old(realtime.published) + if released then [SweepMessage(c, id, seen, now)] else []
      ensures Added(old(metrics.counters), metrics.counters, if released then multiset{JobsRecovered} else multiset{})
    {
      var _ := attempts.CloseAbandoned(id, AbandonReason(seen), at);
      var exhausted := IsExhausted(c, seen.attemptCount);
      var next := if exhausted then (DeliveryStatus.Failed, seen.nextAttemptAt)
                  else (Retrying, NextAttemptAt(c, seen.attemptCount, now));
      released := repository.ReleaseStaleJob(id, seen, next);
      if !released {
        return;
      }
      metrics.Increment(JobsRecovered);
      realtime.Publish(Message(if exhausted then DeliveryExhausted else DeliveryRecovered, id, Some(next.0),
                               Some(seen.attemptCount), None, Some(WorkerCrash), None,
                               Field.Sent(if exhausted then None else Some(next.1))));
    }

    /** The recovery loop, over rows that nobody has changed since they were read. */
    method RecoverRows(ids: seq<EventId>, rows: seq<Job>, ghost cutoff: int, now: int, at: EventId -> int) returns (recovered: nat)
      requires Valid() && AreStaleRows(db.jobs, cutoff, ids, rows)
      modifies db, metrics`counters, realtime
      ensures db.Snapshot() == SweepAll(c, old(db.Snapshot()), ids, old(db.jobs), now, at)
      ensures realtime.published == old(realtime.published) + SweepTrace(c, ids, old(db.jobs), now)
      ensures Added(old(metrics.counters), metrics.counters, multiset{}[JobsRecovered := |ids|])
      ensures recovered == |ids|
    {
      ghost var before := db.Snapshot();
      recovered := 0;
      for i := 0 to |ids|
        invariant db.Snapshot() == SweepAll(c, before, ids[..i], before.jobs, now, at)
        invariant realtime.published == old(realtime.published) + SweepTrace(c, ids[..i], before.jobs, now)
        invariant Added(old(metrics.counters), metrics.counters, multiset{}[JobsRecovered := recovered])
        invariant recovered == i
      {
        SweepNext(c, before, ids, i, before.jobs, now, at);
        SweepAllKeepsOthers(c, before, ids[..i], before.jobs, now, at, ids[i]);
        var released := RecoverOne(ids[i], rows[i], now, at(ids[i]));
        if released {
          recovered := recovered + 1;
        }
      }
      assert ids[..|ids|] == ids;
    }

    /** `at(id)` is when the pass gets to job `id`. The ghost result is the batch it read. */
    method RecoverStaleJobs(limit: nat, now: int, at: EventId -> int) returns (recovered: nat, ghost stale: seq<EventId>)
      requires Valid()
      modifies db, metrics`counters, realtime
      ensures AreOldestExpired(old(db.jobs), now - c.leaseMs, limit, stale)
      ensures forall id <- stale :: id in old(db.jobs)
      ensures db.Snapshot() == SweepAll(c, old(db.Snapshot()), stale, old(db.jobs), now, at)
      ensures realtime.published == old(realtime.published) + SweepTrace(c, stale, old(db.jobs), now)
      ensures Added(old(metrics.counters), metrics.counters, multiset{}[JobsRecovered := |stale|])
      ensures recovered == |stale|
    {
      var ids, rows := repository.FindStaleJobs(now - c.leaseMs, limit);
      assert forall id <- ids :: id in db.jobs;
      recovered := RecoverRows(ids, rows, now - c.leaseMs, now, at);
      stale := ids;
    }
  }

  // ---- ingestion -------------------------------------------------------------------------

  datatype IngestResult = Ingested(duplicate: bool, event: Event) | IngestionError

  function IngestMessage(id: EventId, result: IngestResult): Message
    requires result.Ingested?
  {
    if result.duplicate then Message(DuplicateEvent, id, Some(result.event.status), None, None, None, None, Absent)
    else Message(EventAccepted, id, Some(Pending), Some(0), None, None, None, Absent)
  }

  /** The message names the outcome and says what the stored event row says. */
  lemma IngestMessageSaysTheRow(id: EventId, result: IngestResult)
    requires result.Ingested? && (!result.duplicate ==> result.event.status == Pending)
    ensures var m := IngestMessage(id, result);
            && m.id == id && m.kind == (if result.duplicate then DuplicateEvent else EventAccepted)
            && m.status == Some(result.event.status) && m.attemptNumber == (if result.duplicate then None else Some(0))
            && m.nextAttemptAt.Absent? && m.httpStatus.None? && m.errorType.None? && m.errorMessage.None?
  {
  }

  /** Ingestion while nobody else writes; the module Ingestion lets transactions interleave. */
  class EventsService {
    const db: Database
    const repository: DeliveryRepository
    const metrics: MetricsService
    const realtime: RealtimePublisher

    constructor (db: Database, metrics: MetricsService, realtime: RealtimePublisher)
      ensures this.db == db && this.metrics == metrics && this.realtime == realtime && Valid()
    {
      this.db, this.metrics, this.realtime := db, metrics, realtime;
      repository := new DeliveryRepository(db);
    }

    ghost predicate Valid() {
      repository.db == db
    }

    /**
     * A new id stores its event and its job together; a known one stores nothing and answers with
     * the row that is there. A job without its event rolls the transaction back and leaves nothing
     * to answer with.
     */
    method Ingest(id: EventId, eventType: string, occurredAt: int, payload: string, now: int) returns (result: IngestResult)
      requires Valid()
      modifies db, metrics`counters, realtime
      ensures result.IngestionError? <==> id !in old(db.events) && id in old(db.jobs)
      ensures result.Ingested? ==> (result.duplicate <==> id in old(db.events))
      ensures result.Ingested? ==> id in db.events && result.event == db.events[id]
      ensures result.Ingested? ==> realtime.published == old(realtime.published) + [IngestMessage(id, result)]
      ensures result.Ingested? ==>
        metrics.counters == Incremented(old(metrics.counters), if result.duplicate then EventsDuplicate else EventsAccepted)
      ensures result.IngestionError? ==>
        realtime.published == old(realtime.published) && metrics.counters == old(metrics.counters)
      ensures db.Snapshot() ==
              if result.Ingested? && !result.duplicate then
                old(db.Snapshot()).(events := old(db.events)[id := Event(eventType, occurredAt, payload, Pending)],
                                    jobs := old(db.jobs)[id := NewJob(now)])
              else old(db.Snapshot())
    {
      if id in db.events {
        result := HandleDuplicate(id);
        return;
      }
      var inserted := repository.InsertJob(id, now);
      if !inserted {
        result := HandleDuplicate(id);
        return;
      }
      var created := Event(eventType, occurredAt, payload, Pending);
      db.events := db.events[id := created];
      metrics.Increment(EventsAccepted);
      realtime.Publish(Message(EventAccepted, id, Some(created.status), Some(0), None, None, None, Absent));
      return Ingested(false, created);
    }

    method HandleDuplicate(id: EventId) returns (result: IngestResult)
      modifies metrics`counters, realtime
      ensures result == if id in db.events then Ingested(true, db.events[id]) else IngestionError
      ensures result.Ingested? ==>
        && realtime.published == old(realtime.published) + [IngestMessage(id, result)]
        && metrics.counters == Incremented(old(metrics.counters), EventsDuplicate)
      ensures result.IngestionError? ==>
        realtime.published == old(realtime.published) && metrics.counters == old(metrics.counters)
    {
      if id !in db.events {
        return IngestionError;
      }
      metrics.Increment(EventsDuplicate);
      realtime.Publish(Message(DuplicateEvent, id, Some(db.events[id].status), None, None, None, None, Absent));
      return Ingested(true, db.events[id]);
    }
  }
}
