/**
 * The metrics registry against the tables (metrics.service.ts): whenever no attempt is in flight
 * in a single process that never crashes, the counters are sums over the rows.
 */
module Ledger {
  import opened Collections
  import opened DeliveryTypes
  import StatusMachine
  import opened Rows
  import opened Execution
  import opened Dashboard

  datatype Books = Books(accepted: seq<EventId>, slices: map<EventId, Slice>, counters: multiset<Counter>)

  /** What the process does between two quiet moments. */
  datatype Entry =
    | Accept(id: EventId, event: Event, at: int)
    | Duplicate(id: EventId)
    | Attempt(id: EventId, round: Round)

  predicate CanEnter(b: Books, e: Entry) {
    match e
    case Accept(id, _, _) => id !in b.slices
    case Duplicate(id) => id in b.slices
    case Attempt(id, r) => id in b.slices && CanClaim(b.slices[id].job, r.claimedAt)
  }

  function Enter(c: Config, b: Books, e: Entry): Books
    requires CanEnter(b, e)
  {
    match e
    case Accept(id, event, at) =>
      Books(b.accepted + [id], b.slices[id := Born(event, at).slice], b.counters + multiset{EventsAccepted})
    case Duplicate(id) => b.(counters := b.counters + multiset{EventsDuplicate})
    case Attempt(id, r) =>
      var claimed := ClaimRow(b.slices[id].job, r.worker, r.claimedAt);
      b.(slices := b.slices[id := ExecuteSlice(c, b.slices[id].(job := claimed), claimed, r.stamps, Answers(r.result))],
         counters := b.counters + ExecuteCounters(c, claimed.attemptCount, Answers(r.result)))
  }

  function Kept(c: Config, entries: seq<Entry>): Option<Books> {
    if entries == [] then Some(Books([], map[], multiset{}))
    else
      match Kept(c, entries[..|entries| - 1])
      case None => None
      case Some(b) => if CanEnter(b, entries[|entries| - 1]) then Some(Enter(c, b, entries[|entries| - 1])) else None
  }

  // ---- sums over the rows --------------------------------------------------------------

  datatype Measure = AttemptCount | AttemptRows | DeliveredJobs | FailedJobs

  function Value(m: Measure, s: Slice): nat {
    match m
    case AttemptCount => s.job.attemptCount
    case AttemptRows => |s.rows|
    case DeliveredJobs => if s.job.status == Delivered then 1 else 0
    case FailedJobs => if s.job.status == DeliveryStatus.Failed then 1 else 0
  }

  function Values(m: Measure, slices: map<EventId, Slice>): map<EventId, nat> {
    map id | id in slices :: Value(m, slices[id])
  }

  function Total(m: Measure, ids: seq<EventId>, slices: map<EventId, Slice>): nat
    requires forall id <- ids :: id in slices
  {
    Sum(ids, Values(m, slices))
  }

  lemma TotalUpdate(m: Measure, ids: seq<EventId>, slices: map<EventId, Slice>, id: EventId, s: Slice)
    requires NoRepeats(ids) && (forall k <- ids :: k in slices) && id in ids
    ensures Total(m, ids, slices[id := s]) == Total(m, ids, slices) - Value(m, slices[id]) + Value(m, s)
  {
    SumUpdate(ids, Values(m, slices), id, Value(m, s));
    assert Values(m, slices[id := s]) == Values(m, slices)[id := Value(m, s)];
  }

  // ---- the law --------------------------------------------------------------------------

  ghost predicate SliceOk(s: Slice) {
    && (forall n :: n in s.rows <==> 1 <= n <= s.job.attemptCount)
    && |s.rows| == s.job.attemptCount
    && s.job.status != Delivering
  }

  ghost predicate Consistent(b: Books) {
    && NoRepeats(b.accepted)
    && (forall id :: id in b.accepted <==> id in b.slices)
    && (forall id <- b.slices :: SliceOk(b.slices[id]))
  }

  ghost predicate Balanced(b: Books)
    requires forall id <- b.accepted :: id in b.slices
  {
    var n := b.counters;
    && n[DeliveryAttempts] == Total(AttemptCount, b.accepted, b.slices)
    && n[DeliveryAttempts] == Total(AttemptRows, b.accepted, b.slices)
    && n[DeliveryAttempts] == n[DeliveriesSucceeded] + n[FailuresPermanent] + n[FailuresRetryable]
    && n[FailuresRetryable] == n[RetriesScheduled] + n[DeliveriesExhausted]
    && n[DeliveriesSucceeded] == Total(DeliveredJobs, b.accepted, b.slices)
    && n[FailuresPermanent] + n[DeliveriesExhausted] == Total(FailedJobs, b.accepted, b.slices)
    && n[EventsAccepted] == |b.accepted|
  }

  lemma AttemptKeepsSlice(c: Config, s: Slice, r: Round)
    requires SliceOk(s) && CanClaim(s.job, r.claimedAt)
    ensures var claimed := ClaimRow(s.job, r.worker, r.claimedAt);
            var after := ExecuteSlice(c, s.(job := claimed), claimed, r.stamps, Answers(r.result));
            && SliceOk(after)
            && after.job.attemptCount == s.job.attemptCount + 1
            && after.job.status == Verdict(c, claimed.attemptCount, r.result)
  {
    var claimed := ClaimRow(s.job, r.worker, r.claimedAt);
    var after := ExecuteSlice(c, s.(job := claimed), claimed, r.stamps, Answers(r.result));
    assert after.rows.Keys == s.rows.Keys + {claimed.attemptCount};
  }

  /** A new row adds nothing to any sum. */
  lemma TotalAccept(m: Measure, ids: seq<EventId>, slices: map<EventId, Slice>, id: EventId, event: Event, at: int)
    requires (forall k <- ids :: k in slices) && id !in ids
    ensures Total(m, ids + [id], slices[id := Born(event, at).slice]) == Total(m, ids, slices)
  {
    var after := Values(m, slices[id := Born(event, at).slice]);
    SumAppend(ids, after, id);
    SumSame(ids, after, Values(m, slices));
  }

  lemma AcceptKeepsConsistent(b: Books, id: EventId, event: Event, at: int, counters: multiset<Counter>)
    requires Consistent(b) && id !in b.slices
    ensures Consistent(Books(b.accepted + [id], b.slices[id := Born(event, at).slice], counters))
  {
  }

  /** Sums that stay, and one more event accepted. */
  lemma AcceptCounters(b: Books, id: EventId, after: map<EventId, Slice>)
    requires (forall k <- b.accepted :: k in b.slices) && (forall k <- b.accepted + [id] :: k in after) && Balanced(b)
    requires forall m: Measure :: Total(m, b.accepted + [id], after) == Total(m, b.accepted, b.slices)
    ensures Balanced(Books(b.accepted + [id], after, b.counters + multiset{EventsAccepted}))
  {
  }

  lemma AcceptKeepsBalance(c: Config, b: Books, e: Entry)
    requires Consistent(b) && Balanced(b) && CanEnter(b, e) && e.Accept?
    ensures Consistent(Enter(c, b, e)) && Balanced(Enter(c, b, e))
  {
    var after := b.slices[e.id := Born(e.event, e.at).slice];
    AcceptKeepsConsistent(b, e.id, e.event, e.at, b.counters + multiset{EventsAccepted});
    forall m: Measure ensures Total(m, b.accepted + [e.id], after) == Total(m, b.accepted, b.slices) {
      TotalAccept(m, b.accepted, b.slices, e.id, e.event, e.at);
    }
    AcceptCounters(b, e.id, after);
  }

  /** One attempt adds one to the attempts, one to its outcome, and one to what a retryable outcome led to. */
  lemma AttemptCounters(c: Config, n: nat, result: WebhookResult)
    ensures var d := ExecuteCounters(c, n, Answers(result));
            var verdict := Verdict(c, n, result);
            && d[DeliveryAttempts] == 1 && d[EventsAccepted] == 0
            && d[DeliveriesSucceeded] == (if verdict == Delivered then 1 else 0)
            && d[FailuresPermanent] + d[DeliveriesExhausted] == (if verdict == DeliveryStatus.Failed then 1 else 0)
            && d[DeliveriesSucceeded] + d[FailuresPermanent] + d[FailuresRetryable] == 1
            && d[FailuresRetryable] == d[RetriesScheduled] + d[DeliveriesExhausted]
  {
  }

  /** What one more attempt that ends in this row adds to a sum. */
  function Gain(m: Measure, s: Slice): nat {
    match m
    case AttemptCount => 1
    case AttemptRows => 1
    case DeliveredJobs => if s.job.status == Delivered then 1 else 0
    case FailedJobs => if s.job.status == DeliveryStatus.Failed then 1 else 0
  }

  lemma TotalAfter(m: Measure, b: Books, id: EventId, s: Slice)
    requires NoRepeats(b.accepted) && (forall k <- b.accepted :: k in b.slices) && id in b.accepted
    requires SliceOk(b.slices[id]) && StatusMachine.IsClaimable(b.slices[id].job.status)
    requires SliceOk(s) && s.job.attemptCount == b.slices[id].job.attemptCount + 1
    ensures Total(m, b.accepted, b.slices[id := s]) == Total(m, b.accepted, b.slices) + Gain(m, s)
  {
    TotalUpdate(m, b.accepted, b.slices, id, s);
  }

  /** Adding an attempt's counters to counters that balance, and one attempt to the sums. */
  lemma CountersBalance(c: Config, b: Books, n: nat, result: WebhookResult, s: Slice, after: map<EventId, Slice>)
    requires (forall id <- b.accepted :: id in b.slices && id in after) && Balanced(b)
    requires s.job.status == Verdict(c, n, result)
    requires forall m: Measure :: Total(m, b.accepted, after) == Total(m, b.accepted, b.slices) + Gain(m, s)
    ensures Balanced(Books(b.accepted, after, b.counters + ExecuteCounters(c, n, Answers(result))))
  {
    AttemptCounters(c, n, result);
  }

  lemma TotalsAfter(b: Books, id: EventId, s: Slice)
    requires Consistent(b) && id in b.slices && StatusMachine.IsClaimable(b.slices[id].job.status)
    requires SliceOk(s) && s.job.attemptCount == b.slices[id].job.attemptCount + 1
    ensures forall m: Measure :: Total(m, b.accepted, b.slices[id := s]) == Total(m, b.accepted, b.slices) + Gain(m, s)
  {
    forall m: Measure ensures Total(m, b.accepted, b.slices[id := s]) == Total(m, b.accepted, b.slices) + Gain(m, s) {
      TotalAfter(m, b, id, s);
    }
  }

  lemma AttemptKeepsConsistent(b: Books, id: EventId, s: Slice, counters: multiset<Counter>)
    requires Consistent(b) && id in b.slices && SliceOk(s)
    ensures Consistent(Books(b.accepted, b.slices[id := s], counters))
  {
  }

  /** An attempt replaces one row and adds its counters. */
  lemma EnterAttempt(c: Config, b: Books, e: Entry) returns (s: Slice, n: nat)
    requires CanEnter(b, e) && e.Attempt? && SliceOk(b.slices[e.id])
    ensures SliceOk(s) && n == s.job.attemptCount == b.slices[e.id].job.attemptCount + 1
    ensures s.job.status == Verdict(c, n, e.round.result)
    ensures Enter(c, b, e) == Books(b.accepted, b.slices[e.id := s], b.counters + ExecuteCounters(c, n, Answers(e.round.result)))
  {
    AttemptKeepsSlice(c, b.slices[e.id], e.round);
    s, n := Enter(c, b, e).slices[e.id], b.slices[e.id].job.attemptCount + 1;
  }

  lemma AttemptKeepsBalance(c: Config, b: Books, e: Entry)
    requires Consistent(b) && Balanced(b) && CanEnter(b, e) && e.Attempt?
    ensures Consistent(Enter(c, b, e)) && Balanced(Enter(c, b, e))
  {
    var s, n := EnterAttempt(c, b, e);
    AttemptKeepsConsistent(b, e.id, s, Enter(c, b, e).counters);
    TotalsAfter(b, e.id, s);
    CountersBalance(c, b, n, e.round.result, s, b.slices[e.id := s]);
  }

  /**
   * Conservation, at every quiet moment: every attempt is one row and one outcome; every retryable
   * failure scheduled a retry or exhausted its job; jobs delivered and failed are the outcomes that
   * ended them; and accepted events are exactly the events with a job.
   */
  lemma {:induction false} BooksBalance(c: Config, entries: seq<Entry>, b: Books)
    requires Kept(c, entries) == Some(b)
    ensures Consistent(b) && Balanced(b)
  {
    if entries != [] {
      var front, e := entries[..|entries| - 1], entries[|entries| - 1];
      var before := Kept(c, front).value;
      BooksBalance(c, front, before);
      match e
      case Accept(_, _, _) => AcceptKeepsBalance(c, before, e);
      case Duplicate(_) =>
      case Attempt(_, _) => AttemptKeepsBalance(c, before, e);
    }
  }
}
