/**
 * The dashboard's incremental row (useEngineState.ts) against the row REST would return
 * (events.service.ts), over the whole life of an event in a single worker process that neither
 * crashes nor loses a message. Within such a process the attempts of one event follow one another,
 * so a life is the sequence of its attempts.
 */
module Dashboard {
  import opened DeliveryTypes
  import opened StatusMachine
  import opened RetryPolicy
  import opened Rows
  import opened Execution

  // ---- rows as the client holds them ------------------------------------------------

  datatype LastError = LastError(httpStatus: Option<int>, errorType: Option<ErrorType>, message: Option<string>)

  datatype Summary = Summary(
    id: EventId,
    eventType: string,
    status: DeliveryStatus,
    attemptCount: nat,
    nextAttemptAt: Option<int>,
    lastError: Option<LastError>)

  /** toSummary */
  function ToSummary(id: EventId, event: Event, job: Option<Job>, lastAttempt: Option<Attempt>): Summary {
    Summary(
      id, event.eventType, event.status,
      if job.Some? then job.value.attemptCount else 0,
      if job.Some? && IsClaimable(job.value.status) then Some(job.value.nextAttemptAt) else None,
      if lastAttempt.Some? && lastAttempt.value.status == AttemptStatus.Failed then
        Some(LastError(lastAttempt.value.httpStatus, lastAttempt.value.errorType, lastAttempt.value.errorMessage))
      else None)
  }

  predicate TruthyNumber(n: Option<int>) { n.Some? && n.value != 0 }

  predicate TruthyString(s: Option<string>) { s.Some? && s.value != "" }

  function PatchRow(row: Summary, m: Message): Summary
    requires m.status.Some?
  {
    row.(status := m.status.value,
         attemptCount := if m.attemptNumber.Some? then m.attemptNumber.value else row.attemptCount,
         nextAttemptAt := if m.nextAttemptAt.Absent? then row.nextAttemptAt else m.nextAttemptAt.value,
         lastError :=
           if m.kind == DeliverySucceeded then None
           else if TruthyNumber(m.httpStatus) || TruthyString(m.errorMessage) then
             Some(LastError(m.httpStatus, m.errorType, m.errorMessage))
           else row.lastError)
  }

  const NO_EVENT := "-"

  function FindIndex(rows: seq<Summary>, id: EventId): (index: int)
    ensures -1 <= index < |rows|
    ensures index >= 0 ==> rows[index].id == id && forall j :: 0 <= j < index ==> rows[j].id != id
    ensures index == -1 ==> forall j :: 0 <= j < |rows| ==> rows[j].id != id
  {
    if rows == [] then -1
    else if rows[0].id == id then 0
    else
      var rest := FindIndex(rows[1..], id);
      if rest == -1 then -1 else rest + 1
  }

  /** applyOptimisticPatch */
  function ApplyPatch(rows: seq<Summary>, m: Message): seq<Summary> {
    if m.status.None? || m.id == NO_EVENT then rows
    else
      var index := FindIndex(rows, m.id);
      if index == -1 then rows else rows[index := PatchRow(rows[index], m)]
  }

  function ApplyAll(rows: seq<Summary>, trace: seq<Message>): seq<Summary> {
    if trace == [] then rows else ApplyPatch(ApplyAll(rows, trace[..|trace| - 1]), trace[|trace| - 1])
  }

  predicate DistinctIds(rows: seq<Summary>) {
    forall i, j :: 0 <= i < j < |rows| ==> rows[i].id != rows[j].id
  }

  /** One row under the messages of its own event. */
  function PatchAll(row: Summary, trace: seq<Message>): Summary {
    if trace == [] then row
    else
      var before := PatchAll(row, trace[..|trace| - 1]);
      var m := trace[|trace| - 1];
      if m.status.Some? then PatchRow(before, m) else before
  }

  function Only(trace: seq<Message>, id: EventId): seq<Message> {
    if trace == [] then []
    else
      Only(trace[..|trace| - 1], id) + if trace[|trace| - 1].id == id then [trace[|trace| - 1]] else []
  }

  /**
   * However the messages of different events interleave, each row of the table ends as if only its
   * own event's messages had arrived; but the row of an event called "-" never moves, although
   * ingestion accepts that id.
   */
  lemma {:induction false} RowsAreIndependent(rows: seq<Summary>, trace: seq<Message>, i: nat)
    requires DistinctIds(rows) && i < |rows|
    ensures |ApplyAll(rows, trace)| == |rows| && DistinctIds(ApplyAll(rows, trace))
    ensures ApplyAll(rows, trace)[i].id == rows[i].id
    ensures ApplyAll(rows, trace)[i] ==
            if rows[i].id == "-" then rows[i] else PatchAll(rows[i], Only(trace, rows[i].id))
  {
    if trace != [] {
      var front, m := trace[..|trace| - 1], trace[|trace| - 1];
      var before := ApplyAll(rows, front);
      RowsAreIndependent(rows, front, i);
      forall j | 0 <= j < |rows| ensures before[j].id == rows[j].id {
        RowsAreIndependent(rows, front, j);
      }
      if m.id == rows[i].id {
        assert Only(trace, m.id)[..|Only(trace, m.id)| - 1] == Only(front, m.id);
        assert FindIndex(before, m.id) == i;
      } else {
        assert Only(trace, rows[i].id) == Only(front, rows[i].id);
      }
    }
  }

  // ---- the life of an event -----------------------------------------------------------

  /** What the webhook client promises about a result (webhook.client.ts). */
  predicate WellFormed(r: WebhookResult) {
    if r.responded then
      && r.httpStatus.Some? && r.httpStatus.value > 0
      && (if Is2xx(r.httpStatus.value) then r.errorType.None? && r.errorMessage.None?
          else r.errorType == Some(HttpError) && r.errorMessage.Some?)
    else r.httpStatus.None? && r.errorType.Some? && r.errorMessage.Some?
  }

  /** One claim of the job and the execution that follows it. */
  datatype Round = Round(worker: string, claimedAt: int, stamps: Stamps, result: WebhookResult)

  datatype Life = Life(slice: Slice, trace: seq<Message>)

  function Born(event: Event, at: int): Life {
    Life(Slice(NewJob(at), event.(status := Pending), map[]), [])
  }

  function LiveOn(c: Config, id: EventId, life: Life, r: Round): Life
    requires CanClaim(life.slice.job, r.claimedAt)
  {
    var claimed := ClaimRow(life.slice.job, r.worker, r.claimedAt);
    Life(ExecuteSlice(c, life.slice.(job := claimed), claimed, r.stamps, Answers(r.result)),
         life.trace + ExecuteMessages(c, id, claimed.attemptCount, r.stamps, Answers(r.result)))
  }

  /** The life after all the rounds, or None when the job could not be claimed for one of them. */
  function Lives(c: Config, id: EventId, life: Life, rounds: seq<Round>): Option<Life> {
    if rounds == [] then Some(life)
    else
      var r := rounds[|rounds| - 1];
      match Lives(c, id, life, rounds[..|rounds| - 1])
      case None => None
      case Some(before) => if CanClaim(before.slice.job, r.claimedAt) then Some(LiveOn(c, id, before, r)) else None
  }

  // ---- the shape of the trace -----------------------------------------------------------

  predicate IsNth(m: Message, kind: Kind, status: DeliveryStatus, n: nat) {
    m.kind == kind && m.status == Some(status) && m.attemptNumber == Some(n)
  }

  /** (started failed retry_scheduled) for each of the attempts 1..n */
  ghost predicate IsRetryRounds(trace: seq<Message>, n: nat) {
    if n == 0 then trace == []
    else
      && |trace| >= 3
      && IsNth(trace[|trace| - 3], DeliveryStarted, Delivering, n)
      && IsNth(trace[|trace| - 2], DeliveryFailed, Delivering, n)
      && IsNth(trace[|trace| - 1], RetryScheduled, Retrying, n)
      && IsRetryRounds(trace[..|trace| - 3], n - 1)
  }

  /** The last attempt: started, then succeeded, failed, or failed and exhausted. */
  ghost predicate IsLastRound(tail: seq<Message>, n: nat, status: DeliveryStatus) {
    && 2 <= |tail| <= 3
    && IsNth(tail[0], DeliveryStarted, Delivering, n)
    && IsNth(tail[1], if status == Delivered then DeliverySucceeded else DeliveryFailed,
             if |tail| == 3 then Delivering else status, n)
    && (|tail| == 3 ==> status == DeliveryStatus.Failed && IsNth(tail[2], DeliveryExhausted, status, n))
  }

  ghost predicate IsDeliveryTrace(c: Config, job: Job, trace: seq<Message>) {
    var n := job.attemptCount;
    if IsClaimable(job.status) then n < c.maxAttempts && IsRetryRounds(trace, n)
    else
      && IsTerminal(job.status) && 1 <= n <= c.maxAttempts
      && 3 * (n - 1) <= |trace|
      && IsRetryRounds(trace[..3 * (n - 1)], n - 1)
      && IsLastRound(trace[3 * (n - 1)..], n, job.status)
  }

  lemma {:induction false} RetryRoundsLength(trace: seq<Message>, n: nat)
    requires IsRetryRounds(trace, n)
    ensures |trace| == 3 * n
  {
    if n > 0 { RetryRoundsLength(trace[..|trace| - 3], n - 1); }
  }

  /** What every life keeps: attempt numbers 1..attemptCount, no lock, and a trace of the right shape. */
  ghost predicate LifeInv(c: Config, life: Life) {
    && (forall n :: n in life.slice.rows <==> 1 <= n <= life.slice.job.attemptCount)
    && life.slice.event.status == life.slice.job.status
    && IsDeliveryTrace(c, life.slice.job, life.trace)
  }

  /** What one attempt adds to the trace. */
  lemma AttemptTrace(c: Config, id: EventId, n: nat, r: Round)
    ensures var more := ExecuteMessages(c, id, n, r.stamps, Answers(r.result));
            var status := Verdict(c, n, r.result);
            if status == Retrying then
              |more| == 3 && IsNth(more[0], DeliveryStarted, Delivering, n) && IsNth(more[1], DeliveryFailed, Delivering, n)
              && IsNth(more[2], RetryScheduled, Retrying, n)
            else IsLastRound(more, n, status)
  {
  }

  lemma RetryRoundsGrow(trace: seq<Message>, more: seq<Message>, n: nat)
    requires n >= 1 && IsRetryRounds(trace, n - 1) && |more| == 3
    requires IsNth(more[0], DeliveryStarted, Delivering, n) && IsNth(more[1], DeliveryFailed, Delivering, n) && IsNth(more[2], RetryScheduled, Retrying, n)
    ensures IsRetryRounds(trace + more, n)
  {
    assert (trace + more)[..|trace + more| - 3] == trace;
  }

  /** A job after n attempts, the last of which had this verdict. */
  lemma DeliveryTraceGrows(c: Config, job: Job, trace: seq<Message>, more: seq<Message>, n: nat)
    requires job.attemptCount == n && 1 <= n <= c.maxAttempts && IsRetryRounds(trace, n - 1)
    requires job.status == Retrying ==> n < c.maxAttempts && IsRetryRounds(trace + more, n)
    requires job.status != Retrying ==> IsTerminal(job.status) && IsLastRound(more, n, job.status)
    ensures IsDeliveryTrace(c, job, trace + more)
  {
    RetryRoundsLength(trace, n - 1);
    assert (trace + more)[..|trace|] == trace;
    assert (trace + more)[|trace|..] == more;
  }

  /** The rows after one more attempt. */
  lemma AttemptRows(c: Config, id: EventId, life: Life, r: Round)
    requires forall n :: n in life.slice.rows <==> 1 <= n <= life.slice.job.attemptCount
    requires CanClaim(life.slice.job, r.claimedAt)
    ensures var after := LiveOn(c, id, life, r).slice;
            && after.job.attemptCount == life.slice.job.attemptCount + 1
            && after.job.status == after.event.status == Verdict(c, after.job.attemptCount, r.result)
            && forall n :: n in after.rows <==> 1 <= n <= after.job.attemptCount
  {
  }

  lemma LifeInvStep(c: Config, id: EventId, life: Life, r: Round)
    requires LifeInv(c, life) && CanClaim(life.slice.job, r.claimedAt)
    ensures LifeInv(c, LiveOn(c, id, life, r))
  {
    var n := life.slice.job.attemptCount + 1;
    var after := LiveOn(c, id, life, r);
    var more := ExecuteMessages(c, id, n, r.stamps, Answers(r.result));
    AttemptRows(c, id, life, r);
    AttemptTrace(c, id, n, r);
    if Verdict(c, n, r.result) == Retrying {
      RetryRoundsGrow(life.trace, more, n);
    }
    DeliveryTraceGrows(c, after.slice.job, life.trace, more, n);
  }

  lemma {:induction false} LifeInvariant(c: Config, id: EventId, event: Event, at: int, rounds: seq<Round>)
    requires Lives(c, id, Born(event, at), rounds).Some?
    ensures LifeInv(c, Lives(c, id, Born(event, at), rounds).value)
    ensures Lives(c, id, Born(event, at), rounds).value.slice.job.attemptCount == |rounds|
  {
    if rounds != [] {
      var front := rounds[..|rounds| - 1];
      LifeInvariant(c, id, event, at, front);
      LifeInvStep(c, id, Lives(c, id, Born(event, at), front).value, rounds[|rounds| - 1]);
    }
  }

  /** Every event's trace is (started failed retry_scheduled)* started (succeeded | failed | failed exhausted). */
  lemma TraceShape(c: Config, id: EventId, event: Event, at: int, rounds: seq<Round>, life: Life)
    requires Lives(c, id, Born(event, at), rounds) == Some(life)
    ensures IsDeliveryTrace(c, life.slice.job, life.trace)
  {
    LifeInvariant(c, id, event, at, rounds);
  }

  // ---- no message runs ahead of the rows ----------------------------------------------------

  /** The message says of the event what its job row holds. */
  predicate SaysTheRow(m: Message, id: EventId, job: Job) {
    m.id == id && m.status == Some(job.status) && m.attemptNumber == Some(job.attemptCount)
  }

  /** The message repeats the receiver's answer. */
  predicate SaysTheAnswer(m: Message, result: WebhookResult) {
    m.httpStatus == result.httpStatus && m.errorType == result.errorType && m.errorMessage == result.errorMessage
  }

  /**
   * Every message of an execution says what the job row holds when it is published: DELIVERING under
   * this attempt until the row is settled, and then what it was settled to, with the retry's due time
   * if and only if there is one. The failures repeat the answer.
   */
  lemma MessagesSayTheRow(c: Config, id: EventId, s: Slice, seen: Job, st: Stamps, reply: Reply)
    requires s.job == seen && seen.status == Delivering && seen.attemptCount !in s.rows
    ensures var more := ExecuteMessages(c, id, seen.attemptCount, st, reply);
            var after := ExecuteSlice(c, s, seen, st, reply).job;
            && |more| >= 1 && SaysTheRow(more[0], id, seen) && more[0].nextAttemptAt.Absent?
            && (forall i :: 0 <= i < |more| - 1 ==> SaysTheRow(more[i], id, seen) && more[i].nextAttemptAt.Absent?)
            && (reply.Throws? ==> |more| == 1)
            && (reply.Answers? ==>
                  && |more| >= 2 && SaysTheRow(more[|more| - 1], id, after)
                  && (forall i :: 1 <= i < |more| ==>
                        if more[i].kind == DeliverySucceeded then more[i].httpStatus == reply.result.httpStatus
                        else SaysTheAnswer(more[i], reply.result))
                  && more[|more| - 1].nextAttemptAt ==
                     match after.status
                     case Retrying => Field.Sent(Some(after.nextAttemptAt))
                     case Delivered => Absent
                     case _ => Field.Sent(None))
  {
  }

  /** The message of a sweep says what the row was released to, and that the worker crashed. */
  lemma SweepSaysTheRow(c: Config, id: EventId, s: Slice, now: int, at: int)
    requires CanRelease(s.job, s.job)
    ensures var m, after := SweepMessage(c, id, s.job, now), SweepSlice(c, s, s.job, now, at).job;
            && SaysTheRow(m, id, after) && m.errorType == Some(WorkerCrash)
            && m.kind == (if after.status == Retrying then DeliveryRecovered else DeliveryExhausted)
            && m.nextAttemptAt == Field.Sent(if after.status == Retrying then Some(after.nextAttemptAt) else None)
  {
  }

  // ---- agreement ----------------------------------------------------------------------------

  /** The row REST returns for the event as it stands. */
  function RestRow(id: EventId, s: Slice): Summary {
    var n := s.job.attemptCount;
    ToSummary(id, s.event, Some(s.job), if n in s.rows then Some(s.rows[n]) else None)
  }

  /** The row the dashboard loaded when the event was accepted, under every message since. */
  function LiveRow(id: EventId, event: Event, at: int, trace: seq<Message>): Summary {
    PatchAll(RestRow(id, Born(event, at).slice), trace)
  }

  lemma {:induction false} PatchAllAppend(row: Summary, a: seq<Message>, b: seq<Message>)
    ensures PatchAll(row, a + b) == PatchAll(PatchAll(row, a), b)
  {
    if b == [] {
      assert a + b == a;
    } else {
      assert (a + b)[..|a + b| - 1] == a + b[..|b| - 1];
      PatchAllAppend(row, a, b[..|b| - 1]);
    }
  }

  lemma PatchAllTwo(row: Summary, a: Message, b: Message)
    requires a.status.Some? && b.status.Some?
    ensures PatchAll(row, [a, b]) == PatchRow(PatchRow(row, a), b)
  {
    assert [a, b][..1] == [a];
    assert [a][..0] == [];
    assert PatchAll(row, []) == row;
    assert PatchAll(row, [a]) == PatchRow(row, a);
  }

  lemma PatchAllThree(row: Summary, a: Message, b: Message, d: Message)
    requires a.status.Some? && b.status.Some? && d.status.Some?
    ensures PatchAll(row, [a, b, d]) == PatchRow(PatchRow(PatchRow(row, a), b), d)
  {
    assert [a, b, d][..2] == [a, b];
    PatchAllTwo(row, a, b);
  }

  /**
   * While attempt n is under way the row reads DELIVERING with n attempts. The message that it has
   * started changes nothing else; the message that it has failed brings the error and leaves the rest.
   */
  lemma RowInFlight(c: Config, id: EventId, row: Summary, n: nat, st: Stamps, reply: Reply)
    ensures var more := ExecuteMessages(c, id, n, st, reply);
            && |more| >= 1
            && PatchAll(row, more[..1]) == row.(status := Delivering, attemptCount := n)
            && forall i :: 1 <= i < |more| ==>
                 PatchAll(row, more[..i]).(lastError := None) == row.(status := Delivering, attemptCount := n, lastError := None)
  {
    var more := ExecuteMessages(c, id, n, st, reply);
    PatchAllOne(row, more[0]);
    assert more[..1] == [more[0]];
    if |more| == 3 {
      PatchAllTwo(row, more[0], more[1]);
      assert more[..2] == [more[0], more[1]];
    }
  }

  /** The message about a duplicate submission, as far as the dashboard's row reads it. */
  predicate OnlyStatus(m: Message) {
    && m.kind == DuplicateEvent && m.status.Some? && m.attemptNumber.None?
    && m.httpStatus.None? && m.errorMessage.None? && m.nextAttemptAt.Absent?
  }

  /** Such a message shows the status that the submission read, and changes nothing else. */
  lemma DuplicateShows(row: Summary, m: Message)
    requires OnlyStatus(m)
    ensures PatchRow(row, m) == row.(status := m.status.value)
  {
  }

  /**
   * Wherever a message about a duplicate submission falls, whatever status it carries, the next
   * message about the delivery wipes it out.
   */
  lemma DuplicateIsWipedOut(row: Summary, before: seq<Message>, m: Message, after: seq<Message>)
    requires OnlyStatus(m) && after != [] && after[0].status.Some?
    ensures PatchAll(row, before + [m] + after) == PatchAll(row, before + after)
  {
    var first, rest := [after[0]], after[1..];
    assert after == first + rest;
    assert before + [m] + after == before + [m, after[0]] + rest;
    assert before + after == before + first + rest;
    PatchAllAppend(row, before + [m, after[0]], rest);
    PatchAllAppend(row, before, [m, after[0]]);
    PatchAllAppend(row, before + first, rest);
    PatchAllAppend(row, before, first);
    PatchAllTwo(PatchAll(row, before), m, after[0]);
    PatchAllOne(PatchAll(row, before), after[0]);
  }

  lemma PatchAllOne(row: Summary, m: Message)
    requires m.status.Some?
    ensures PatchAll(row, [m]) == PatchRow(row, m)
  {
    assert [m][..0] == [];
    assert PatchAll(row, []) == row;
  }

  /** The row after the messages of one attempt. */
  function RowAfter(c: Config, row: Summary, n: nat, r: Round): Summary {
    match Classify(r.result)
    case Succeeded => row.(status := Delivered, attemptCount := n, lastError := None)
    case _ =>
      row.(status := Verdict(c, n, r.result),
           attemptCount := n,
           nextAttemptAt := VerdictNext(c, n, r.result, r.stamps.settledAt),
           lastError :=
             if TruthyNumber(r.result.httpStatus) || TruthyString(r.result.errorMessage) then
               Some(LastError(r.result.httpStatus, r.result.errorType, r.result.errorMessage))
             else row.lastError)
  }

  lemma RowAfterAttempt(c: Config, id: EventId, row: Summary, n: nat, r: Round)
    ensures PatchAll(row, ExecuteMessages(c, id, n, r.stamps, Answers(r.result))) == RowAfter(c, row, n, r)
  {
    var out := OutcomeMessages(c, id, n, r.result, r.stamps.settledAt);
    var start := StartedMessage(id, n);
    if |out| == 1 {
      assert [start] + out == [start, out[0]];
      PatchAllTwo(row, start, out[0]);
    } else {
      assert [start] + out == [start, out[0], out[1]];
      PatchAllThree(row, start, out[0], out[1]);
    }
  }

  /**
   * After an attempt the row shows the answer's error, whatever it showed before; only an answer with
   * no status, or 0, and no text, or an empty one, leaves the error of an earlier attempt standing.
   */
  lemma ErrorAfterAttempt(c: Config, id: EventId, row: Summary, n: nat, r: Round)
    ensures var after := PatchAll(row, ExecuteMessages(c, id, n, r.stamps, Answers(r.result)));
            var silent := (r.result.httpStatus.None? || r.result.httpStatus.value == 0)
                          && (r.result.errorMessage.None? || |r.result.errorMessage.value| == 0);
            after.lastError == if r.result.responded && r.result.httpStatus.Some? && Is2xx(r.result.httpStatus.value) then None
                               else if silent then row.lastError
                               else Some(LastError(r.result.httpStatus, r.result.errorType, r.result.errorMessage))
  {
    ClassifyMeaning(r.result);
    RowAfterAttempt(c, id, row, n, r);
  }

  /** A recovery leaves the error of an earlier attempt standing in the row, although the log has a crash. */
  lemma ErrorAfterSweep(c: Config, id: EventId, row: Summary, s: Slice, now: int, at: int)
    requires CanRelease(s.job, s.job)
    ensures var job := SweepSlice(c, s, s.job, now, at).job;
            PatchAll(row, [SweepMessage(c, id, s.job, now)]) ==
            row.(status := job.status, attemptCount := job.attemptCount,
                 nextAttemptAt := if job.status == Retrying then Some(job.nextAttemptAt) else None)
  {
    PatchAllOne(row, SweepMessage(c, id, s.job, now));
  }

  /** The error text reaches the attempt log as it was sent to the dashboard. */
  predicate TextSurvives(r: WebhookResult) {
    Truncate(r.errorMessage) == r.errorMessage
  }

  /**
   * Truncation leaves a text alone exactly when it has 1 to 1000 characters, or when it is already
   * what truncation would have made of it.
   */
  lemma TextSurvivesExactly(r: WebhookResult)
    ensures TextSurvives(r) <==>
            || r.errorMessage.None?
            || 1 <= |r.errorMessage.value| <= 1000
            || (|r.errorMessage.value| == 1003 && r.errorMessage.value[1000..] == "...")
  {
    if r.errorMessage.Some? && |r.errorMessage.value| > 1000 {
      var m := r.errorMessage.value;
      assert |m| == 1003 ==> m == m[..1000] + m[1000..];
      assert TextSurvives(r) ==> m[1000..] == (m[..1000] + "...")[1000..] == "...";
    }
  }

  /** What the live row and the REST row have in common after every attempt. */
  ghost predicate RowInv(id: EventId, row: Summary, life: Life) {
    var rest := RestRow(id, life.slice);
    && row.(nextAttemptAt := None, lastError := None) == rest.(nextAttemptAt := None, lastError := None)
    && (IsClaimable(life.slice.job.status) ==> row.nextAttemptAt == Some(life.slice.job.nextAttemptAt))
    && (life.slice.job.status == DeliveryStatus.Failed ==> row.nextAttemptAt.None?)
    && (life.slice.job.status == Delivered ==> row.nextAttemptAt.Some?)
    && (row.lastError.Some? ==>
          TruthyNumber(row.lastError.value.httpStatus) || TruthyString(row.lastError.value.message))
  }

  lemma RowInvStep(c: Config, id: EventId, row: Summary, life: Life, r: Round)
    requires LifeInv(c, life) && RowInv(id, row, life)
    requires CanClaim(life.slice.job, r.claimedAt) && WellFormed(r.result)
    ensures var n := life.slice.job.attemptCount + 1;
            var after := RowAfter(c, row, n, r);
            var next := LiveOn(c, id, life, r);
            && RowInv(id, after, next)
            && (after.lastError == RestRow(id, next.slice).lastError
                <==> Classify(r.result).Succeeded? || TextSurvives(r.result))
  {
    ClassifyMeaning(r.result);
  }

  lemma {:induction false} RowInvariant(c: Config, id: EventId, event: Event, at: int, rounds: seq<Round>)
    requires Lives(c, id, Born(event, at), rounds).Some?
    requires forall r <- rounds :: WellFormed(r.result)
    ensures var life := Lives(c, id, Born(event, at), rounds).value;
            RowInv(id, LiveRow(id, event, at, life.trace), life)
    ensures var life := Lives(c, id, Born(event, at), rounds).value;
            LiveRow(id, event, at, life.trace).lastError == RestRow(id, life.slice).lastError
            <==> (rounds != [] ==> var last := rounds[|rounds| - 1].result; Classify(last).Succeeded? || TextSurvives(last))
  {
    if rounds != [] {
      var front, r := rounds[..|rounds| - 1], rounds[|rounds| - 1];
      var before := Lives(c, id, Born(event, at), front).value;
      var n := before.slice.job.attemptCount + 1;
      LifeInvariant(c, id, event, at, front);
      RowInvariant(c, id, event, at, front);
      PatchAllAppend(RestRow(id, Born(event, at).slice), before.trace,
                     ExecuteMessages(c, id, n, r.stamps, Answers(r.result)));
      RowAfterAttempt(c, id, LiveRow(id, event, at, before.trace), n, r);
      RowInvStep(c, id, LiveRow(id, event, at, before.trace), before, r);
    }
  }

  /**
   * Whenever no attempt is in flight, the row patched from messages agrees with REST on everything
   * but two fields; on lastError exactly when the last failure's text survives truncation, and on
   * nextAttemptAt exactly when the event has not been delivered.
   */
  lemma DashboardAgrees(c: Config, id: EventId, event: Event, at: int, rounds: seq<Round>, life: Life)
    requires Lives(c, id, Born(event, at), rounds) == Some(life)
    requires forall r <- rounds :: WellFormed(r.result)
    ensures var live := LiveRow(id, event, at, life.trace);
            var rest := RestRow(id, life.slice);
            && live.status == rest.status == life.slice.job.status
            && live.attemptCount == rest.attemptCount == |rounds|
            && (live.nextAttemptAt == rest.nextAttemptAt <==> life.slice.job.status != Delivered)
            && (live.lastError == rest.lastError
                <==> (rounds != [] ==>
                        var last := rounds[|rounds| - 1].result; Classify(last).Succeeded? || TextSurvives(last)))
  {
    LifeInvariant(c, id, event, at, rounds);
    RowInvariant(c, id, event, at, rounds);
  }

  /** The last attempt's row is the latest of the log, so RestRow reads what the list query reads. */
  lemma LastRowIsLatest(c: Config, id: EventId, event: Event, at: int, rounds: seq<Round>, life: Life, n: nat)
    requires Lives(c, id, Born(event, at), rounds) == Some(life) && n in life.slice.rows
    ensures life.slice.job.attemptCount in life.slice.rows && n <= life.slice.job.attemptCount
  {
    LifeInvariant(c, id, event, at, rounds);
  }
}
