/**
 * The statements of the services on whole tables, and what a pass of the worker makes of them
 * when it runs alone. The classes in Services are proved against these functions.
 */
module Statements {
  import opened Collections
  import opened DeliveryTypes
  import RetryPolicy
  import opened Rows
  import Protocol
  import opened Execution

  /** attempts[e][n] is the row with eventId e and attemptNumber n. */
  datatype Tables = Tables(
    jobs: map<EventId, Job>,
    events: map<EventId, Event>,
    attempts: map<EventId, map<nat, Attempt>>)

  function RowsOf(t: Tables, id: EventId): map<nat, Attempt> {
    if id in t.attempts then t.attempts[id] else map[]
  }

  function SliceAt(t: Tables, id: EventId): Slice
    requires id in t.jobs && id in t.events
  {
    Slice(t.jobs[id], t.events[id], RowsOf(t, id))
  }

  // ---- single statements ------------------------------------------------------------

  function Transition(t: Tables, id: EventId, status: DeliveryStatus, next: Option<int>): Tables {
    ShowStatus(if id in t.jobs then t.(jobs := t.jobs[id := TransitionRow(t.jobs[id], status, next)]) else t, id, status)
  }

  /** updateEventStatus */
  function ShowStatus(t: Tables, id: EventId, status: DeliveryStatus): Tables {
    if id in t.events then t.(events := t.events[id := t.events[id].(status := status)]) else t
  }

  function OpenRow(t: Tables, id: EventId, n: nat, now: int): Tables {
    t.(attempts := t.attempts[id := RowsOf(t, id)[n := OpenAttempt(now)]])
  }

  function CompleteRow(t: Tables, id: EventId, n: nat, result: WebhookResult, now: int): Tables {
    var rows: map<nat, Attempt> := RowsOf(t, id);
    if n in rows then t.(attempts := t.attempts[id := rows[n := CompleteAttempt(rows[n], result, now)]]) else t
  }

  function CloseOpenRows(t: Tables, id: EventId, reason: string, now: int): Tables {
    if id in t.attempts then t.(attempts := t.attempts[id := Protocol.CloseAbandonedRows(t.attempts[id], reason, now)]) else t
  }

  function ReleaseStale(t: Tables, id: EventId, seen: Job, next: (DeliveryStatus, int)): Tables {
    if id in t.jobs && CanRelease(t.jobs[id], seen) then
      ShowStatus(t.(jobs := t.jobs[id := ReleaseRow(t.jobs[id], next)]), id, next.0)
    else t
  }

  /** The job is DELIVERING under a claim made at `lockedAt`. */
  predicate IsHeldSince(jobs: map<EventId, Job>, id: EventId, lockedAt: Option<int>) {
    id in jobs && jobs[id].status == Delivering && jobs[id].lockedAt.Some? && jobs[id].lockedAt == lockedAt
  }

  // ---- one execution, one sweep -------------------------------------------------------

  /** executeClaimedJob; a job whose event is missing is failed and skipped. */
  function Execute(c: Config, t: Tables, id: EventId, seen: Job, st: Stamps, reply: Reply): Tables {
    var n := seen.attemptCount;
    if id !in t.events then Transition(t, id, DeliveryStatus.Failed, None)
    else if n in RowsOf(t, id) then t
    else
      var withRow := OpenRow(t, id, n, st.startedAt);
      match reply
      case Throws => withRow
      case Answers(result) =>
        Transition(CompleteRow(withRow, id, n, result, st.completedAt), id, Verdict(c, n, result),
                   VerdictNext(c, n, result, st.settledAt))
  }

  /** The execution gets as far as inserting its attempt row. */
  predicate Opens(t: Tables, id: EventId, seen: Job) {
    id in t.events && seen.attemptCount !in RowsOf(t, id)
  }

  function ExecuteTrace(c: Config, t: Tables, id: EventId, seen: Job, st: Stamps, reply: Reply): seq<Message> {
    if Opens(t, id, seen) then ExecuteMessages(c, id, seen.attemptCount, st, reply) else []
  }

  function ExecuteCount(c: Config, t: Tables, id: EventId, seen: Job, reply: Reply): multiset<Counter> {
    if Opens(t, id, seen) then ExecuteCounters(c, seen.attemptCount, reply) else multiset{}
  }

  /** A job whose event is missing is failed, and nothing is published or counted. */
  lemma OrphanIsFailed(c: Config, t: Tables, id: EventId, seen: Job, st: Stamps, reply: Reply)
    requires id in t.jobs && id !in t.events
    ensures Execute(c, t, id, seen, st, reply)
            == t.(jobs := t.jobs[id := t.jobs[id].(status := DeliveryStatus.Failed, lockedAt := None, lockedBy := None)])
    ensures ExecuteTrace(c, t, id, seen, st, reply) == [] && ExecuteCount(c, t, id, seen, reply) == multiset{}
  {
  }

  /**
   * An exception leaves the job to lease recovery. Raised by the INSERT, because the number is taken,
   * it leaves everything as it was; raised later, it leaves the attempt open.
   */
  lemma ExceptionLeavesTheClaim(c: Config, t: Tables, id: EventId, seen: Job, st: Stamps, reply: Reply)
    requires id in t.events && (seen.attemptCount in RowsOf(t, id) || reply.Throws?)
    ensures var after := Execute(c, t, id, seen, st, reply);
            && after.jobs == t.jobs && after.events == t.events
            && (seen.attemptCount in RowsOf(t, id) ==>
                  after == t && ExecuteTrace(c, t, id, seen, st, reply) == [] && ExecuteCount(c, t, id, seen, reply) == multiset{})
            && (seen.attemptCount !in RowsOf(t, id) ==>
                  && RowsOf(after, id) == RowsOf(t, id)[seen.attemptCount := Attempt(st.startedAt, None, InProgress, None, None, None)]
                  && |ExecuteTrace(c, t, id, seen, st, reply)| == 1
                  && ExecuteCount(c, t, id, seen, reply) == multiset{DeliveryAttempts})
  {
  }

  lemma ExecuteIsLocal(c: Config, t: Tables, id: EventId, seen: Job, st: Stamps, reply: Reply)
    requires id in t.jobs && id in t.events
    ensures var after := Execute(c, t, id, seen, st, reply);
            && after.jobs.Keys == t.jobs.Keys && after.events.Keys == t.events.Keys
            && SliceAt(after, id) == ExecuteSlice(c, SliceAt(t, id), seen, st, reply)
            && forall k :: k in t.jobs && k in t.events && k != id ==> SliceAt(after, k) == SliceAt(t, k)
  {
  }

  /** The body of the recovery loop for one stale row. */
  function RecoverRow(c: Config, t: Tables, id: EventId, seen: Job, now: int, at: int): Tables {
    ReleaseStale(CloseOpenRows(t, id, AbandonReason(seen), at), id, seen, ReleaseTarget(c, seen, now))
  }

  lemma SweepIsLocal(c: Config, t: Tables, id: EventId, seen: Job, now: int, at: int)
    requires id in t.jobs && id in t.events
    ensures var after := RecoverRow(c, t, id, seen, now, at);
            && after.jobs.Keys == t.jobs.Keys && after.events.Keys == t.events.Keys
            && SliceAt(after, id) == SweepSlice(c, SliceAt(t, id), seen, now, at)
            && forall k :: k in t.jobs && k in t.events && k != id ==> SliceAt(after, k) == SliceAt(t, k)
  {
  }

  // ---- ordered queries ------------------------------------------------------------------

  /** ORDER BY key ASC LIMIT limit over the candidates; equal keys come in any order. */
  ghost predicate IsOldest<K>(candidates: map<K, int>, limit: nat, chosen: seq<K>) {
    && NoRepeats(chosen)
    && (forall k <- chosen :: k in candidates)
    && |chosen| == (if limit < |candidates| then limit else |candidates|)
    && (forall i, j :: 0 <= i < j < |chosen| ==> candidates[chosen[i]] <= candidates[chosen[j]])
    && (forall k <- chosen, other <- candidates :: other !in chosen ==> candidates[k] <= candidates[other])
  }

  /** A limit that is not reached leaves no candidate out. */
  lemma AllChosen<K>(candidates: map<K, int>, limit: nat, chosen: seq<K>)
    requires IsOldest(candidates, limit, chosen) && (|chosen| < limit || |candidates| <= limit)
    ensures forall k <- candidates :: k in chosen
  {
    DistinctSize(chosen);
    var picked := set k | k in chosen;
    assert picked <= candidates.Keys;
    if k :| k in candidates && k !in chosen {
      assert picked <= candidates.Keys - {k};
      SubsetSize(picked, candidates.Keys - {k});
    }
  }

  function DueJobs(jobs: map<EventId, Job>, now: int): map<EventId, int> {
    map id | id in jobs && CanClaim(jobs[id], now) :: jobs[id].nextAttemptAt
  }

  function StaleJobs(jobs: map<EventId, Job>, cutoff: int): map<EventId, int> {
    map id | id in jobs && IsStale(jobs[id], cutoff) :: jobs[id].lockedAt.value
  }

  /** ids are the oldest of the jobs whose lease expired before the cutoff, in order, as many as the limit allows. */
  ghost predicate AreOldestExpired(jobs: map<EventId, Job>, cutoff: int, limit: nat, ids: seq<EventId>) {
    && NoRepeats(ids) && |ids| <= limit
    && (forall i :: 0 <= i < |ids| ==> IsExpired(jobs, ids[i], cutoff))
    && (forall i, j :: 0 <= i < j < |ids| ==> jobs[ids[i]].lockedAt.value <= jobs[ids[j]].lockedAt.value)
    && (forall i, other :: 0 <= i < |ids| && other in jobs && other !in ids && IsExpired(jobs, other, cutoff) ==>
          jobs[ids[i]].lockedAt.value <= jobs[other].lockedAt.value)
    && (|ids| < limit ==> forall other <- jobs :: IsExpired(jobs, other, cutoff) ==> other in ids)
  }

  predicate IsExpired(jobs: map<EventId, Job>, id: EventId, cutoff: int) {
    id in jobs && jobs[id].status == Delivering && jobs[id].lockedAt.Some? && jobs[id].lockedAt.value < cutoff
  }

  lemma StaleBatchIsOldest(jobs: map<EventId, Job>, cutoff: int, limit: nat, ids: seq<EventId>)
    requires IsOldest(StaleJobs(jobs, cutoff), limit, ids)
    ensures AreOldestExpired(jobs, cutoff, limit, ids)
  {
    var candidates := StaleJobs(jobs, cutoff);
    assert forall id :: id in candidates <==> IsExpired(jobs, id, cutoff);
    if |ids| < limit {
      AllChosen(candidates, limit, ids);
    }
  }

  /** ids are the waiting jobs that have been due longest, in order, as many as the limit allows. */
  ghost predicate AreOldestDue(jobs: map<EventId, Job>, now: int, limit: nat, ids: seq<EventId>) {
    && NoRepeats(ids) && |ids| <= limit
    && (forall i :: 0 <= i < |ids| ==> IsDue(jobs, ids[i], now))
    && (forall i, j :: 0 <= i < j < |ids| ==> jobs[ids[i]].nextAttemptAt <= jobs[ids[j]].nextAttemptAt)
    && (forall i, other :: 0 <= i < |ids| && other in jobs && other !in ids && IsDue(jobs, other, now) ==>
          jobs[ids[i]].nextAttemptAt <= jobs[other].nextAttemptAt)
    && (|ids| < limit ==> forall other <- jobs :: IsDue(jobs, other, now) ==> other in ids)
  }

  predicate IsDue(jobs: map<EventId, Job>, id: EventId, now: int) {
    id in jobs && (jobs[id].status == Pending || jobs[id].status == Retrying) && jobs[id].nextAttemptAt <= now
  }

  lemma DueBatchIsOldest(jobs: map<EventId, Job>, now: int, limit: nat, ids: seq<EventId>)
    requires IsOldest(DueJobs(jobs, now), limit, ids)
    ensures AreOldestDue(jobs, now, limit, ids)
  {
    var candidates := DueJobs(jobs, now);
    assert forall id :: id in candidates <==> IsDue(jobs, id, now);
    if |ids| < limit {
      AllChosen(candidates, limit, ids);
    }
  }

  /** What the queries return is what they ask for. */
  lemma QueriedRows(jobs: map<EventId, Job>, cutoff: int, now: int, limit: nat, stale: seq<EventId>, due: seq<EventId>, served: nat)
    requires served <= |due|
    ensures AreOldestExpired(jobs, cutoff, limit, stale) ==>
              NoRepeats(stale) && forall id <- stale :: id in jobs && IsStale(jobs[id], cutoff)
    ensures AreOldestDue(jobs, now, limit, due) ==> forall id <- due[..served] :: id in jobs
  {
  }

  // ---- a recovery pass --------------------------------------------------------------------

  /** recoverStaleJobs over the rows it read, nobody else writing. */
  function SweepAll(c: Config, t: Tables, ids: seq<EventId>, seen: map<EventId, Job>, now: int, at: EventId -> int): Tables
    requires forall id <- ids :: id in seen
  {
    if ids == [] then t
    else
      var last := ids[|ids| - 1];
      RecoverRow(c, SweepAll(c, t, ids[..|ids| - 1], seen, now, at), last, seen[last], now, at(last))
  }

  function SweepTrace(c: Config, ids: seq<EventId>, seen: map<EventId, Job>, now: int): seq<Message>
    requires forall id <- ids :: id in seen
  {
    if ids == [] then []
    else
      var last := ids[|ids| - 1];
      SweepTrace(c, ids[..|ids| - 1], seen, now) + [SweepMessage(c, last, seen[last], now)]
  }

  ghost predicate Linked(t: Tables) {
    t.jobs.Keys == t.events.Keys
  }

  lemma SweepNext(c: Config, t: Tables, ids: seq<EventId>, i: nat, seen: map<EventId, Job>, now: int, at: EventId -> int)
    requires (forall id <- ids :: id in seen) && i < |ids|
    ensures SweepAll(c, t, ids[..i + 1], seen, now, at)
            == RecoverRow(c, SweepAll(c, t, ids[..i], seen, now, at), ids[i], seen[ids[i]], now, at(ids[i]))
    ensures SweepTrace(c, ids[..i + 1], seen, now)
            == SweepTrace(c, ids[..i], seen, now) + [SweepMessage(c, ids[i], seen[ids[i]], now)]
  {
    assert ids[..i + 1][..i] == ids[..i];
  }

  lemma {:induction false} SweepAllKeepsOthers(c: Config, t: Tables, ids: seq<EventId>, seen: map<EventId, Job>, now: int,
                                               at: EventId -> int, k: EventId)
    requires (forall id <- ids :: id in seen) && k !in ids
    ensures var after := SweepAll(c, t, ids, seen, now, at);
            && (k in after.jobs <==> k in t.jobs)
            && (k in t.jobs ==> after.jobs[k] == t.jobs[k])
  {
    if ids != [] { SweepAllKeepsOthers(c, t, ids[..|ids| - 1], seen, now, at, k); }
  }

  /** Each row of the batch is swept, and no other row is touched. */
  lemma {:induction false} SweepAllIsPointwise(c: Config, t: Tables, ids: seq<EventId>, now: int, at: EventId -> int, k: EventId)
    requires Linked(t) && (forall id <- ids :: id in t.jobs) && k in t.jobs
    requires NoRepeats(ids)
    ensures var after := SweepAll(c, t, ids, t.jobs, now, at);
            && after.jobs.Keys == t.jobs.Keys && after.events.Keys == t.events.Keys
            && SliceAt(after, k) == if k in ids then SweepSlice(c, SliceAt(t, k), t.jobs[k], now, at(k)) else SliceAt(t, k)
  {
    if ids != [] {
      var front, last := ids[..|ids| - 1], ids[|ids| - 1];
      SweepAllIsPointwise(c, t, front, now, at, k);
      SweepAllIsPointwise(c, t, front, now, at, last);
      SweepIsLocal(c, SweepAll(c, t, front, t.jobs, now, at), last, t.jobs[last], now, at(last));
      assert last !in front;
      assert ids == front + [last];
    }
  }

  /** What a recovery pass at `now` that gets to the event at `at` leaves of a row it read as stale. */
  ghost predicate IsRecovered(c: Config, was: Slice, will: Slice, now: int, at: int) {
    var n := was.job.attemptCount;
    && will.job.attemptCount == n && will.job.lockedAt.None? && will.job.lockedBy.None?
    && (if n >= c.maxAttempts then
          will.job.status == DeliveryStatus.Failed && will.job.nextAttemptAt == was.job.nextAttemptAt
        else
          will.job.status == Retrying && will.job.nextAttemptAt == now + RetryPolicy.DelayAfterAttemptMs(c.delaysMs, n))
    && will.event == was.event.(status := will.job.status)
    && will.rows.Keys == was.rows.Keys
    && forall k <- was.rows :: IsClosedAsCrash(was.job, was.rows[k], will.rows[k], at)
  }

  /** An attempt left open is closed as a crash of the worker that held the job; any other stays. */
  predicate IsClosedAsCrash(job: Job, was: Attempt, will: Attempt, at: int) {
    if was.status == InProgress && was.completedAt.None? then
      && will.startedAt == was.startedAt && will.httpStatus == was.httpStatus
      && will.status == AttemptStatus.Failed && will.errorType == Some(WorkerCrash) && will.completedAt == Some(at)
      && will.errorMessage == Some("Worker " + (if job.lockedBy.Some? then job.lockedBy.value else "unknown")
                                   + " stopped responding; lease expired")
    else will == was
  }

  lemma SweptIsRecovered(c: Config, s: Slice, now: int, at: int)
    requires CanRelease(s.job, s.job)
    ensures IsRecovered(c, s, SweepSlice(c, s, s.job, now, at), now, at)
  {
  }

  /**
   * Run alone, a recovery pass leaves each of the oldest expired claims failed or requeued at
   * now + delay, with the attempts it left open closed as crashes and the event row in step; every
   * other event keeps all its rows.
   */
  lemma RecoveryPass(c: Config, t: Tables, limit: nat, ids: seq<EventId>, now: int, at: EventId -> int, k: EventId)
    requires Linked(t) && AreOldestExpired(t.jobs, now - c.leaseMs, limit, ids) && k in t.jobs
    ensures var after := SweepAll(c, t, ids, t.jobs, now, at);
            && after.jobs.Keys == t.jobs.Keys && after.events.Keys == t.events.Keys
            && if k in ids then IsRecovered(c, SliceAt(t, k), SliceAt(after, k), now, at(k)) else SliceAt(after, k) == SliceAt(t, k)
  {
    SweepAllIsPointwise(c, t, ids, now, at, k);
    if k in ids {
      SweptIsRecovered(c, SliceAt(t, k), now, at(k));
    }
  }

  // ---- a drain --------------------------------------------------------------------------------

  /** What the outside world does to one tick. */
  datatype TickInputs = TickInputs(
    startedAt: int,
    dueAt: int,
    closedAt: EventId -> int,
    claimedAt: EventId -> int,
    stamps: EventId -> Stamps,
    reply: EventId -> Reply)

  /** The claim matches a row. */
  predicate ClaimSucceeds(t: Tables, id: EventId, w: TickInputs) {
    id in t.jobs && CanClaim(t.jobs[id], w.claimedAt(id))
  }

  /** Claiming one job and executing it, or nothing when the claim matches no row. */
  function ClaimAndExecute(c: Config, t: Tables, id: EventId, worker: string, w: TickInputs): Tables {
    if ClaimSucceeds(t, id, w) then
      var claimed := ClaimRow(t.jobs[id], worker, w.claimedAt(id));
      Execute(c, t.(jobs := t.jobs[id := claimed]), id, claimed, w.stamps(id), w.reply(id))
    else t
  }

  function DrainAll(c: Config, t: Tables, ids: seq<EventId>, worker: string, w: TickInputs): Tables {
    if ids == [] then t
    else ClaimAndExecute(c, DrainAll(c, t, ids[..|ids| - 1], worker, w), ids[|ids| - 1], worker, w)
  }

  /** What one claim and execution publishes and counts. */
  function ClaimTrace(c: Config, t: Tables, id: EventId, worker: string, w: TickInputs): seq<Message> {
    if ClaimSucceeds(t, id, w) then
      ExecuteTrace(c, t, id, ClaimRow(t.jobs[id], worker, w.claimedAt(id)), w.stamps(id), w.reply(id))
    else []
  }

  function ClaimCount(c: Config, t: Tables, id: EventId, worker: string, w: TickInputs): multiset<Counter> {
    if ClaimSucceeds(t, id, w) then
      ExecuteCount(c, t, id, ClaimRow(t.jobs[id], worker, w.claimedAt(id)), w.reply(id))
    else multiset{}
  }

  function DrainTrace(c: Config, t: Tables, ids: seq<EventId>, worker: string, w: TickInputs): seq<Message> {
    if ids == [] then []
    else
      var front, id := ids[..|ids| - 1], ids[|ids| - 1];
      DrainTrace(c, t, front, worker, w) + ClaimTrace(c, DrainAll(c, t, front, worker, w), id, worker, w)
  }

  function DrainCount(c: Config, t: Tables, ids: seq<EventId>, worker: string, w: TickInputs): multiset<Counter> {
    if ids == [] then multiset{}
    else
      var front, id := ids[..|ids| - 1], ids[|ids| - 1];
      DrainCount(c, t, front, worker, w) + ClaimCount(c, DrainAll(c, t, front, worker, w), id, worker, w)
  }

  /** The execution of the job, once claimed, ends without an exception. */
  predicate ExecutionEnds(t: Tables, id: EventId, w: TickInputs)
    requires id in t.jobs
  {
    id in t.events ==> (t.jobs[id].attemptCount + 1) !in RowsOf(t, id) && w.reply(id).Answers?
  }

  function CountClaimed(c: Config, t: Tables, ids: seq<EventId>, worker: string, w: TickInputs): nat {
    if ids == [] then 0
    else
      var front, id := ids[..|ids| - 1], ids[|ids| - 1];
      CountClaimed(c, t, front, worker, w) + if ClaimSucceeds(DrainAll(c, t, front, worker, w), id, w) then 1 else 0
  }

  function CountProcessed(c: Config, t: Tables, ids: seq<EventId>, worker: string, w: TickInputs): nat {
    if ids == [] then 0
    else
      var front, id := ids[..|ids| - 1], ids[|ids| - 1];
      var before := DrainAll(c, t, front, worker, w);
      CountProcessed(c, t, front, worker, w)
      + if ClaimSucceeds(before, id, w) && ExecutionEnds(before, id, w) then 1 else 0
  }

  /** The jobs of the batch whose execution, as the tables stand, would end. */
  ghost function Ending(t: Tables, ids: seq<EventId>, w: TickInputs): set<EventId>
    requires forall id <- ids :: id in t.jobs
  {
    set id | id in ids && ExecutionEnds(t, id, w)
  }

  /** What the drain has done before reaching a job leaves that job as it was. */
  lemma UntilItsTurn(c: Config, t: Tables, front: seq<EventId>, id: EventId, worker: string, w: TickInputs)
    requires Linked(t) && NoRepeats(front) && (forall k <- front :: k in t.jobs) && id in t.jobs && id !in front
    ensures var before := DrainAll(c, t, front, worker, w);
            && id in before.jobs
            && (ClaimSucceeds(before, id, w) <==> ClaimSucceeds(t, id, w))
            && (ExecutionEnds(before, id, w) <==> ExecutionEnds(t, id, w))
  {
    DrainIsPointwise(c, t, front, worker, w, id);
    var before := DrainAll(c, t, front, worker, w);
    assert SliceAt(before, id) == SliceAt(t, id);
  }

  /**
   * Run alone, and with a clock that does not go back, a drain claims its whole batch, and processes
   * exactly the jobs of it whose execution, as the tables stood when the drain began, ends.
   */
  lemma {:induction false} DrainCounts(c: Config, t: Tables, ids: seq<EventId>, worker: string, w: TickInputs)
    requires Linked(t) && NoRepeats(ids)
    requires forall id <- ids :: id in t.jobs && CanClaim(t.jobs[id], w.dueAt) && w.dueAt <= w.claimedAt(id)
    ensures CountClaimed(c, t, ids, worker, w) == |ids|
    ensures CountProcessed(c, t, ids, worker, w) == |Ending(t, ids, w)|
  {
    if ids != [] {
      var front, id := ids[..|ids| - 1], ids[|ids| - 1];
      DrainCounts(c, t, front, worker, w);
      UntilItsTurn(c, t, front, id, worker, w);
      assert ClaimSucceeds(t, id, w);
      EndingLast(t, ids, w);
    }
  }

  lemma EndingLast(t: Tables, ids: seq<EventId>, w: TickInputs)
    requires NoRepeats(ids) && ids != [] && forall id <- ids :: id in t.jobs
    ensures var front, id := ids[..|ids| - 1], ids[|ids| - 1];
            |Ending(t, ids, w)| == |Ending(t, front, w)| + if ExecutionEnds(t, id, w) then 1 else 0
  {
    var front, id := ids[..|ids| - 1], ids[|ids| - 1];
    assert Ending(t, ids, w) == Ending(t, front, w) + if ExecutionEnds(t, id, w) then {id} else {};
  }

  lemma DrainNext(c: Config, t: Tables, ids: seq<EventId>, i: nat, worker: string, w: TickInputs)
    requires i < |ids|
    ensures var before := DrainAll(c, t, ids[..i], worker, w);
            && DrainAll(c, t, ids[..i + 1], worker, w) == ClaimAndExecute(c, before, ids[i], worker, w)
            && DrainTrace(c, t, ids[..i + 1], worker, w)
               == DrainTrace(c, t, ids[..i], worker, w) + ClaimTrace(c, before, ids[i], worker, w)
            && DrainCount(c, t, ids[..i + 1], worker, w)
               == DrainCount(c, t, ids[..i], worker, w) + ClaimCount(c, before, ids[i], worker, w)
            && CountClaimed(c, t, ids[..i + 1], worker, w)
               == CountClaimed(c, t, ids[..i], worker, w) + (if ClaimSucceeds(before, ids[i], w) then 1 else 0)
            && CountProcessed(c, t, ids[..i + 1], worker, w)
               == CountProcessed(c, t, ids[..i], worker, w)
                  + (if ClaimSucceeds(before, ids[i], w) && ExecutionEnds(before, ids[i], w) then 1 else 0)
  {
    assert ids[..i + 1][..i] == ids[..i];
  }

  function DrainedSlice(c: Config, s: Slice, id: EventId, worker: string, w: TickInputs): Slice {
    if CanClaim(s.job, w.claimedAt(id)) then
      var claimed := ClaimRow(s.job, worker, w.claimedAt(id));
      ExecuteSlice(c, s.(job := claimed), claimed, w.stamps(id), w.reply(id))
    else s
  }

  lemma ClaimAndExecuteIsLocal(c: Config, t: Tables, id: EventId, worker: string, w: TickInputs)
    requires Linked(t) && id in t.jobs
    ensures var after := ClaimAndExecute(c, t, id, worker, w);
            && after.jobs.Keys == t.jobs.Keys && after.events.Keys == t.events.Keys
            && SliceAt(after, id) == DrainedSlice(c, SliceAt(t, id), id, worker, w)
            && forall k :: k in t.jobs && k != id ==> SliceAt(after, k) == SliceAt(t, k)
  {
    if ClaimSucceeds(t, id, w) {
      var claimed := ClaimRow(t.jobs[id], worker, w.claimedAt(id));
      var taken := t.(jobs := t.jobs[id := claimed]);
      ExecuteIsLocal(c, taken, id, claimed, w.stamps(id), w.reply(id));
      forall k | k in t.jobs && k != id ensures SliceAt(taken, k) == SliceAt(t, k) {}
    }
  }

  lemma {:induction false} DrainIsPointwise(c: Config, t: Tables, ids: seq<EventId>, worker: string, w: TickInputs, k: EventId)
    requires Linked(t) && (forall id <- ids :: id in t.jobs) && k in t.jobs
    requires NoRepeats(ids)
    ensures var after := DrainAll(c, t, ids, worker, w);
            && after.jobs.Keys == t.jobs.Keys && after.events.Keys == t.events.Keys
            && SliceAt(after, k) == if k in ids then DrainedSlice(c, SliceAt(t, k), k, worker, w) else SliceAt(t, k)
  {
    if ids != [] {
      var front, last := ids[..|ids| - 1], ids[|ids| - 1];
      DrainIsPointwise(c, t, front, worker, w, k);
      DrainIsPointwise(c, t, front, worker, w, last);
      ClaimAndExecuteIsLocal(c, DrainAll(c, t, front, worker, w), last, worker, w);
      assert last !in front;
      assert ids == front + [last];
    }
  }

  /** Run alone, the claims of a drain that were due when read all succeed, and each job is settled on its own answer. */
  lemma DrainSettlesTheBatch(c: Config, t: Tables, limit: nat, ids: seq<EventId>, worker: string, w: TickInputs, k: EventId)
    requires Linked(t) && AreOldestDue(t.jobs, w.dueAt, limit, ids) && k in ids
    requires w.dueAt <= w.claimedAt(k) && (t.jobs[k].attemptCount + 1) !in RowsOf(t, k)
    ensures var after := DrainAll(c, t, ids, worker, w);
            && after.jobs.Keys == t.jobs.Keys && after.events.Keys == t.events.Keys
            && var was, will := SliceAt(t, k), SliceAt(after, k);
               && will.job.attemptCount == was.job.attemptCount + 1
               && (match w.reply(k)
                   case Throws => will.job.status == Delivering && will.job.lockedAt == Some(w.claimedAt(k))
                   case Answers(r) => will.job.status == will.event.status == Verdict(c, was.job.attemptCount + 1, r)
                                      && will.job.lockedAt.None?)
  {
    DrainIsPointwise(c, t, ids, worker, w, k);
  }
}
