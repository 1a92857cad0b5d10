/**
 * The tables and the two repositories that write to them (delivery.repository.ts,
 * attempts.service.ts). Every method is one statement and is proved against its function in
 * Statements.
 */
module Storage {
  import Collections
  import opened DeliveryTypes
  import StatusMachine
  import opened Rows
  import opened Protocol
  import opened Statements

  /** `chosen` is what the ordering puts first, and `rest` what is left. */
  ghost predicate IsSplit<K>(candidates: map<K, int>, chosen: seq<K>, rest: map<K, int>) {
    && |chosen| + |rest| == |candidates|
    && Collections.NoRepeats(chosen)
    && (forall k <- candidates :: k in chosen || k in rest)
    && (forall k <- chosen :: k in candidates)
    && (forall k <- rest :: k in candidates && k !in chosen && candidates[k] == rest[k])
    && (forall i, j :: 0 <= i < j < |chosen| ==> candidates[chosen[i]] <= candidates[chosen[j]])
    && (forall k <- chosen, o <- rest :: candidates[k] <= candidates[o])
  }

  lemma SplitNext<K>(candidates: map<K, int>, chosen: seq<K>, rest: map<K, int>, k: K)
    requires IsSplit(candidates, chosen, rest) && k in rest && forall o <- rest :: rest[k] <= rest[o]
    ensures IsSplit(candidates, chosen + [k], rest - {k})
  {
    var left := rest - {k};
    assert rest.Keys == left.Keys + {k};
    assert |rest.Keys| == |left.Keys| + 1;
  }

  /** ORDER BY key ASC LIMIT limit, as the database evaluates it. */
  method OrderBy<K(==)>(candidates: map<K, int>, limit: nat) returns (chosen: seq<K>)
    ensures IsOldest(candidates, limit, chosen)
  {
    chosen := [];
    var rest := candidates;
    while |chosen| < limit && rest != map[]
      invariant |chosen| <= limit && IsSplit(candidates, chosen, rest)
    {
      Collections.SmallestExists(rest);
      var k :| k in rest && forall o <- rest :: rest[k] <= rest[o];
      SplitNext(candidates, chosen, rest, k);
      chosen, rest := chosen + [k], rest - {k};
    }
  }

  /** Different expired claims, with their rows as they stand. */
  ghost predicate AreStaleRows(jobs: map<EventId, Job>, cutoff: int, ids: seq<EventId>, rows: seq<Job>) {
    && Collections.NoRepeats(ids) && |rows| == |ids|
    && forall i :: 0 <= i < |ids| ==> ids[i] in jobs && rows[i] == jobs[ids[i]] && IsStale(rows[i], cutoff)
  }

  class Database {
    var jobs: map<EventId, Job>
    var events: map<EventId, Event>
    var attempts: map<EventId, map<nat, Attempt>>

    constructor ()
      ensures Snapshot() == Tables(map[], map[], map[])
    {
      jobs, events, attempts := map[], map[], map[];
    }

    function Snapshot(): Tables
      reads this
    {
      Tables(jobs, events, attempts)
    }
  }

  class DeliveryRepository {
    const db: Database

    constructor (db: Database)
      ensures this.db == db
    {
      this.db := db;
    }

    /** False is a violation of the unique index on eventId. */
    method InsertJob(id: EventId, nextAttemptAt: int) returns (inserted: bool)
      modifies db
      ensures inserted <==> id !in old(db.jobs)
      ensures db.Snapshot() ==
              old(db.Snapshot()).(jobs := if inserted then old(db.jobs)[id := NewJob(nextAttemptAt)] else old(db.jobs))
    {
      inserted := id !in db.jobs;
      if inserted {
        db.jobs := db.jobs[id := Job(Pending, 0, nextAttemptAt, None, None)];
      }
    }

    method FindDueJobIds(limit: nat, now: int) returns (ids: seq<EventId>)
      ensures AreOldestDue(db.jobs, now, limit, ids)
    {
      ids := OrderBy(DueJobs(db.jobs, now), limit);
      DueBatchIsOldest(db.jobs, now, limit, ids);
    }

    method Claim(id: EventId, worker: string, now: int) returns (job: Option<Job>)
      modifies db
      ensures job.Some? <==> IsDue(old(db.jobs), id, now)
      ensures job.None? ==> db.Snapshot() == old(db.Snapshot())
      ensures job.Some? ==>
        && job.value == ClaimRow(old(db.jobs)[id], worker, now)
        && db.Snapshot() == old(db.Snapshot()).(jobs := old(db.jobs)[id := job.value])
    {
      if id !in db.jobs || !StatusMachine.IsClaimable(db.jobs[id].status) || db.jobs[id].nextAttemptAt > now {
        return None;
      }
      var row := db.jobs[id];
      db.jobs := db.jobs[id := row.(status := Delivering, attemptCount := row.attemptCount + 1,
                                    lockedAt := Some(now), lockedBy := Some(worker))];
      return Some(db.jobs[id]);
    }

    method MarkDelivered(id: EventId)
      modifies db
      ensures db.Snapshot() == Transition(old(db.Snapshot()), id, Delivered, None)
    {
      UpdateById(id, Delivered, None);
    }

    method MarkFailed(id: EventId)
      modifies db
      ensures db.Snapshot() == Transition(old(db.Snapshot()), id, DeliveryStatus.Failed, None)
    {
      UpdateById(id, DeliveryStatus.Failed, None);
    }

    method ScheduleRetry(id: EventId, nextAttemptAt: int)
      modifies db
      ensures db.Snapshot() == Transition(old(db.Snapshot()), id, Retrying, Some(nextAttemptAt))
    {
      UpdateById(id, Retrying, Some(nextAttemptAt));
    }

    /** transition: the job row, whatever it holds, then the event row. */
    method UpdateById(id: EventId, status: DeliveryStatus, nextAttemptAt: Option<int>)
      modifies db
      ensures db.Snapshot() == Transition(old(db.Snapshot()), id, status, nextAttemptAt)
    {
      if id in db.jobs {
        var row := db.jobs[id].(status := status, lockedAt := None, lockedBy := None);
        if nextAttemptAt.Some? {
          row := row.(nextAttemptAt := nextAttemptAt.value);
        }
        db.jobs := db.jobs[id := row];
      }
      UpdateEventStatus(id, status);
    }

    method UpdateEventStatus(id: EventId, status: DeliveryStatus)
      modifies db
      ensures db.Snapshot() == ShowStatus(old(db.Snapshot()), id, status)
    {
      if id in db.events {
        db.events := db.events[id := db.events[id].(status := status)];
      }
    }

    /** The rows as they were when read, oldest claim first. */
    method FindStaleJobs(cutoff: int, limit: nat) returns (ids: seq<EventId>, rows: seq<Job>)
      ensures AreOldestExpired(db.jobs, cutoff, limit, ids)
      ensures AreStaleRows(db.jobs, cutoff, ids, rows)
    {
      ids := OrderBy(StaleJobs(db.jobs, cutoff), limit);
      StaleBatchIsOldest(db.jobs, cutoff, limit, ids);
      rows := seq(|ids|, i requires 0 <= i < |ids| && ids[i] in db.jobs reads db => db.jobs[ids[i]]);
    }

    method ReleaseStaleJob(id: EventId, seen: Job, next: (DeliveryStatus, int)) returns (released: bool)
      modifies db
      ensures released <==> IsHeldSince(old(db.jobs), id, seen.lockedAt)
      ensures db.Snapshot() == ReleaseStale(old(db.Snapshot()), id, seen, next)
    {
      if id !in db.jobs || db.jobs[id].status != Delivering || db.jobs[id].lockedAt.None?
         || db.jobs[id].lockedAt != seen.lockedAt
      {
        return false;
      }
      db.jobs := db.jobs[id := db.jobs[id].(status := next.0, nextAttemptAt := next.1, lockedAt := None, lockedBy := None)];
      UpdateEventStatus(id, next.0);
      return true;
    }
  }

  /** An attempt row with its key. */
  datatype AttemptRow = AttemptRow(id: EventId, number: nat, attempt: Attempt)

  /** The rows of the named events, by ascending number. */
  ghost predicate AreRowsOf(t: Tables, ids: set<EventId>, rows: seq<AttemptRow>) {
    && (forall r <- rows :: r.id in ids && r.number in RowsOf(t, r.id) && r.attempt == RowsOf(t, r.id)[r.number])
    && (forall id <- ids, n <- RowsOf(t, id) :: AttemptRow(id, n, RowsOf(t, id)[n]) in rows)
    && (forall i, j :: 0 <= i < j < |rows| ==> rows[i].number <= rows[j].number)
  }

  ghost predicate IsLatest(rows: map<nat, Attempt>, attempt: Attempt) {
    exists n: nat :: n in rows && rows[n] == attempt && forall m <- rows :: m <= n
  }

  function LastOfEach(rows: seq<AttemptRow>): map<EventId, Attempt> {
    if rows == [] then map[]
    else LastOfEach(rows[..|rows| - 1])[rows[|rows| - 1].id := rows[|rows| - 1].attempt]
  }

  lemma {:induction false} LastOfEachIsLast(rows: seq<AttemptRow>, id: EventId) returns (at: nat)
    ensures id in LastOfEach(rows) ==>
              at < |rows| && rows[at].id == id && rows[at].attempt == LastOfEach(rows)[id]
              && forall j :: at < j < |rows| ==> rows[j].id != id
    ensures id !in LastOfEach(rows) ==> forall r <- rows :: r.id != id
  {
    at := 0;
    if rows != [] {
      if rows[|rows| - 1].id == id {
        at := |rows| - 1;
      } else {
        at := LastOfEachIsLast(rows[..|rows| - 1], id);
      }
    }
  }

  lemma LastAreLatest(t: Tables, ids: set<EventId>, rows: seq<AttemptRow>)
    requires AreRowsOf(t, ids, rows)
    ensures forall id :: id in LastOfEach(rows) <==> id in ids && RowsOf(t, id) != map[]
    ensures forall id <- LastOfEach(rows) :: IsLatest(RowsOf(t, id), LastOfEach(rows)[id])
  {
    forall id
      ensures id in LastOfEach(rows) <==> id in ids && RowsOf(t, id) != map[]
      ensures id in LastOfEach(rows) ==> IsLatest(RowsOf(t, id), LastOfEach(rows)[id])
    {
      var at := LastOfEachIsLast(rows, id);
      if id in ids && RowsOf(t, id) != map[] {
        var m: nat :| m in RowsOf(t, id);
        assert AttemptRow(id, m, RowsOf(t, id)[m]) in rows;
      }
      if id in LastOfEach(rows) {
        LatestAt(t, ids, rows, at);
      }
    }
  }

  lemma LatestAt(t: Tables, ids: set<EventId>, rows: seq<AttemptRow>, at: nat)
    requires AreRowsOf(t, ids, rows) && at < |rows| && forall j :: at < j < |rows| ==> rows[j].id != rows[at].id
    ensures rows[at].id in ids && RowsOf(t, rows[at].id) != map[] && IsLatest(RowsOf(t, rows[at].id), rows[at].attempt)
  {
    var id := rows[at].id;
    assert rows[at] in rows;
    forall m <- RowsOf(t, id) ensures m <= rows[at].number {
      var row := AttemptRow(id, m, RowsOf(t, id)[m]);
      assert row in rows;
      var j :| 0 <= j < |rows| && rows[j] == row;
    }
  }

  class AttemptsService {
    const db: Database

    constructor (db: Database)
      ensures this.db == db
    {
      this.db := db;
    }

    /** False is a violation of the unique index on (eventId, attemptNumber). */
    method Start(id: EventId, number: nat, startedAt: int) returns (inserted: bool)
      modifies db
      ensures inserted <==> number !in RowsOf(old(db.Snapshot()), id)
      ensures db.Snapshot() ==
              if inserted then OpenRow(old(db.Snapshot()), id, number, startedAt) else old(db.Snapshot())
    {
      var rows := RowsOf(db.Snapshot(), id);
      inserted := number !in rows;
      if inserted {
        db.attempts := db.attempts[id := rows[number := Attempt(startedAt, None, InProgress, None, None, None)]];
      }
    }

    /** An UPDATE by id, whatever the row holds; no row, no effect. */
    method Complete(id: EventId, number: nat, status: AttemptStatus, httpStatus: Option<int>,
                    errorType: Option<ErrorType>, errorMessage: Option<string>, completedAt: int)
      modifies db
      ensures var rows := RowsOf(old(db.Snapshot()), id);
              db.Snapshot() ==
              if number in rows then
                old(db.Snapshot()).(attempts := old(db.attempts)[id := rows[number := Attempt(
                  rows[number].startedAt, Some(completedAt), status, httpStatus, errorType, Truncate(errorMessage))]])
              else old(db.Snapshot())
    {
      var rows := RowsOf(db.Snapshot(), id);
      if number in rows {
        var row := rows[number].(status := status, httpStatus := httpStatus, errorType := errorType,
                                 errorMessage := Truncate(errorMessage), completedAt := Some(completedAt));
        db.attempts := db.attempts[id := rows[number := row]];
      }
    }

    /** The number of rows closed. */
    method CloseAbandoned(id: EventId, reason: string, now: int) returns (affected: nat)
      modifies db
      ensures db.Snapshot() == CloseOpenRows(old(db.Snapshot()), id, reason, now)
      ensures affected == |OpenRows(RowsOf(old(db.Snapshot()), id))|
    {
      var rows := RowsOf(db.Snapshot(), id);
      affected := |OpenRows(rows)|;
      if id in db.attempts {
        db.attempts := db.attempts[id := map n | n in rows :: CloseAbandonedRow(rows[n], reason, now)];
      }
    }

    /** WHERE eventId IN ids ORDER BY attemptNumber ASC */
    method FindRows(ids: set<EventId>) returns (rows: seq<AttemptRow>)
      ensures AreRowsOf(db.Snapshot(), ids, rows)
    {
      var t := db.Snapshot();
      var keys := set id <- ids, n <- RowsOf(t, id) :: AttemptRow(id, n, RowsOf(t, id)[n]);
      var numbers := map k <- keys :: k.number as int;
      rows := OrderBy(numbers, |numbers|);
      AllChosen(numbers, |numbers|, rows);
    }

    /** Rows come oldest first, so the last one put under an id is its latest. */
    method FindLatestForEvents(ids: set<EventId>) returns (latest: map<EventId, Attempt>)
      ensures forall id :: id in latest <==> id in ids && RowsOf(db.Snapshot(), id) != map[]
      ensures forall id <- latest :: IsLatest(RowsOf(db.Snapshot(), id), latest[id])
    {
      latest := map[];
      var rows := FindRows(ids);
      for i := 0 to |rows|
        invariant latest == LastOfEach(rows[..i])
      {
        assert rows[..i + 1][..i] == rows[..i];
        latest := latest[rows[i].id := rows[i].attempt];
      }
      assert rows[..|rows|] == rows;
      LastAreLatest(db.Snapshot(), ids, rows);
    }
  }
}
