/** One pass of the worker: recover crashed leases, then drain what is due (delivery.worker.ts). */
module Worker {
  import opened DeliveryTypes
  import opened Execution
  import opened Statements
  import opened Services

  datatype WorkerTickResult = WorkerTickResult(recovered: nat, claimed: nat, processed: nat)

  /** Everything a tick changes. */
  datatype Journal = Journal(tables: Tables, published: seq<Message>, counters: map<Counter, nat>)

  /** A recovery pass over the batch `stale`. */
  ghost predicate SweptAll(c: Config, j: Journal, stale: seq<EventId>, w: TickInputs, after: Journal) {
    && (forall id <- stale :: id in j.tables.jobs)
    && after.tables == SweepAll(c, j.tables, stale, j.tables.jobs, w.startedAt, w.closedAt)
    && after.published == j.published + SweepTrace(c, stale, j.tables.jobs, w.startedAt)
    && Added(j.counters, after.counters, multiset{}[JobsRecovered := |stale|])
  }

  /** One turn of the drain loop. */
  ghost predicate Ran(c: Config, j: Journal, id: EventId, worker: string, w: TickInputs, after: Journal) {
    && after.tables == ClaimAndExecute(c, j.tables, id, worker, w)
    && after.published == j.published + ClaimTrace(c, j.tables, id, worker, w)
    && Added(j.counters, after.counters, ClaimCount(c, j.tables, id, worker, w))
  }

  /** A drain of the batch `ids`. */
  ghost predicate DrainedAll(c: Config, j: Journal, ids: seq<EventId>, worker: string, w: TickInputs, after: Journal) {
    && after.tables == DrainAll(c, j.tables, ids, worker, w)
    && after.published == j.published + DrainTrace(c, j.tables, ids, worker, w)
    && Added(j.counters, after.counters, DrainCount(c, j.tables, ids, worker, w))
  }

  /** Publishing and counting one after the other. */
  lemma Joined(j: Journal, mid: Journal, after: Journal, trace1: seq<Message>, trace2: seq<Message>,
               count1: multiset<Counter>, count2: multiset<Counter>)
    requires mid.published == j.published + trace1 && after.published == mid.published + trace2
    requires Added(j.counters, mid.counters, count1) && Added(mid.counters, after.counters, count2)
    ensures after.published == j.published + (trace1 + trace2)
    ensures Added(j.counters, after.counters, count1 + count2)
  {
  }

  lemma DrainedNext(c: Config, j: Journal, ids: seq<EventId>, i: nat, worker: string, w: TickInputs, mid: Journal, after: Journal)
    requires i < |ids| && DrainedAll(c, j, ids[..i], worker, w, mid) && Ran(c, mid, ids[i], worker, w, after)
    ensures DrainedAll(c, j, ids[..i + 1], worker, w, after)
  {
    DrainNext(c, j.tables, ids, i, worker, w);
    Joined(j, mid, after, DrainTrace(c, j.tables, ids[..i], worker, w), ClaimTrace(c, mid.tables, ids[i], worker, w),
           DrainCount(c, j.tables, ids[..i], worker, w), ClaimCount(c, mid.tables, ids[i], worker, w));
  }

  ghost predicate Tallied(c: Config, t: Tables, ids: seq<EventId>, worker: string, w: TickInputs, claimed: nat, processed: nat) {
    claimed == CountClaimed(c, t, ids, worker, w) && processed == CountProcessed(c, t, ids, worker, w)
  }

  lemma TalliedNext(c: Config, t: Tables, ids: seq<EventId>, i: nat, worker: string, w: TickInputs, claimed: nat, processed: nat,
                    nowClaimed: nat, nowProcessed: nat)
    requires i < |ids| && Tallied(c, t, ids[..i], worker, w, claimed, processed)
    requires var before := DrainAll(c, t, ids[..i], worker, w);
             && nowClaimed == claimed + (if ClaimSucceeds(before, ids[i], w) then 1 else 0)
             && nowProcessed == processed + (if ClaimSucceeds(before, ids[i], w) && ExecutionEnds(before, ids[i], w) then 1 else 0)
    ensures Tallied(c, t, ids[..i + 1], worker, w, nowClaimed, nowProcessed)
  {
    DrainNext(c, t, ids, i, worker, w);
  }

  /** How much of a batch of n is drained when shutdown comes before position `shutdownAt`. */
  function Served(stopped: bool, shutdownAt: nat, n: nat): (served: nat)
    ensures served <= n
    ensures stopped ==> served == 0
    ensures !stopped ==> served <= shutdownAt && (served < n ==> served == shutdownAt)
  {
    if stopped then 0 else if shutdownAt < n then shutdownAt else n
  }

  class DeliveryWorker {
    const id: string
    const batchSize: nat
    const service: DeliveryService
    var stopped: bool
    var ticking: bool
    var lastTickAt: Option<int>

    constructor (id: string, batchSize: nat, service: DeliveryService)
      ensures this.id == id && this.batchSize == batchSize && this.service == service
      ensures !stopped && !ticking && lastTickAt == None
    {
      this.id, this.batchSize, this.service := id, batchSize, service;
      stopped, ticking, lastTickAt := false, false, None;
    }

    ghost function Now(): Journal
      reads service.db, service.realtime, service.metrics
    {
      Journal(service.db.Snapshot(), service.realtime.published, service.metrics.counters)
    }

    method OnModuleDestroy()
      modifies this`stopped
      ensures stopped
    {
      stopped := true;
    }

    /**
     * The process is told to shut down just before the drain reaches position `shutdownAt` of its
     * batch; a position past the end is no shutdown. The ghost results are the two batches read and
     * what the recovery left in between.
     */
    method RunOnce(w: TickInputs, shutdownAt: nat)
      returns (result: WorkerTickResult, ghost stale: seq<EventId>, ghost mid: Journal, ghost due: seq<EventId>)
      requires service.Valid()
      modifies this`stopped, this`ticking, this`lastTickAt
      modifies service.db, service.metrics`counters, service.metrics`httpStatuses, service.realtime
      ensures AreOldestExpired(old(service.db.jobs), w.startedAt - service.c.leaseMs, batchSize, stale)
      ensures SweptAll(service.c, old(Now()).(counters := Incremented(old(service.metrics.counters), WorkerTicks)), stale, w, mid)
      ensures AreOldestDue(mid.tables.jobs, w.dueAt, batchSize, due)
      ensures DrainedAll(service.c, mid, due[..Served(old(stopped), shutdownAt, |due|)], id, w, Now())
      ensures result.recovered == |stale|
      ensures Tallied(service.c, mid.tables, due[..Served(old(stopped), shutdownAt, |due|)], id, w, result.claimed, result.processed)
      ensures !ticking && lastTickAt == Some(w.startedAt)
      ensures stopped <==> old(stopped) || shutdownAt < |due|
    {
      ticking := true;
      lastTickAt := Some(w.startedAt);
      service.metrics.Increment(WorkerTicks);
      var recovered;
      recovered, stale := Recover(w);
      mid := Now();
      var ids := service.repository.FindDueJobIds(batchSize, w.dueAt);
      due := ids;
      var claimed, processed := Drain(ids, w, shutdownAt);
      result := WorkerTickResult(recovered, claimed, processed);
      ticking := false;
    }

    method Recover(w: TickInputs) returns (recovered: nat, ghost stale: seq<EventId>)
      requires service.Valid()
      modifies service.db, service.metrics`counters, service.metrics`httpStatuses, service.realtime
      ensures AreOldestExpired(old(service.db.jobs), w.startedAt - service.c.leaseMs, batchSize, stale)
      ensures SweptAll(service.c, old(Now()), stale, w, Now()) && recovered == |stale|
    {
      ghost var before := Now();
      recovered, stale := service.RecoverStaleJobs(batchSize, w.startedAt, w.closedAt);
      ghost var after := Now();
      assert forall k <- stale :: k in before.tables.jobs;
      assert after.published == before.published + SweepTrace(service.c, stale, before.tables.jobs, w.startedAt);
    }

    method Drain(ids: seq<EventId>, w: TickInputs, shutdownAt: nat) returns (claimed: nat, processed: nat)
      requires service.Valid()
      modifies this`stopped
      modifies service.db, service.metrics`counters, service.metrics`httpStatuses, service.realtime
      ensures DrainedAll(service.c, old(Now()), ids[..Served(old(stopped), shutdownAt, |ids|)], id, w, Now())
      ensures Tallied(service.c, old(service.db.Snapshot()), ids[..Served(old(stopped), shutdownAt, |ids|)], id, w,
                      claimed, processed)
      ensures stopped <==> old(stopped) || shutdownAt < |ids|
    {
      claimed, processed := 0, 0;
      ghost var before := Now();
      ghost var cut := Served(stopped, shutdownAt, |ids|);
      var i := 0;
      while i < |ids|
        invariant stopped == old(stopped) && i <= cut && (stopped ==> i == cut)
        invariant Tallied(service.c, before.tables, ids[..i], id, w, claimed, processed)
        invariant DrainedAll(service.c, before, ids[..i], id, w, Now())
      {
        if i == shutdownAt {
          stopped := true;
        }
        if stopped {
          assert i == cut;
          return;
        }
        claimed, processed := DrainNextJob(ids, i, w, claimed, processed, before);
        i := i + 1;
      }
    }

    /** The body of the drain loop. */
    method DrainNextJob(ids: seq<EventId>, i: nat, w: TickInputs, claimed: nat, processed: nat, ghost before: Journal)
      returns (nowClaimed: nat, nowProcessed: nat)
      requires service.Valid() && i < |ids|
      requires DrainedAll(service.c, before, ids[..i], id, w, Now())
      requires Tallied(service.c, before.tables, ids[..i], id, w, claimed, processed)
      modifies service.db, service.metrics`counters, service.metrics`httpStatuses, service.realtime
      ensures DrainedAll(service.c, before, ids[..i + 1], id, w, Now())
      ensures Tallied(service.c, before.tables, ids[..i + 1], id, w, nowClaimed, nowProcessed)
    {
      ghost var mid := Now();
      var wasClaimed, wasProcessed := ClaimAndRun(ids[i], w);
      nowClaimed := claimed + if wasClaimed then 1 else 0;
      nowProcessed := processed + if wasProcessed then 1 else 0;
      DrainedNext(service.c, before, ids, i, id, w, mid, Now());
      TalliedNext(service.c, before.tables, ids, i, id, w, claimed, processed, nowClaimed, nowProcessed);
    }

    /** One job of the batch: lost to another worker, executed, or left to lease recovery by an exception. */
    method ClaimAndRun(jobId: EventId, w: TickInputs) returns (claimed: bool, processed: bool)
      requires service.Valid()
      modifies service.db, service.metrics`counters, service.metrics`httpStatuses, service.realtime
      ensures Ran(service.c, old(Now()), jobId, id, w, Now())
      ensures claimed <==> ClaimSucceeds(old(service.db.Snapshot()), jobId, w)
      ensures processed <==> claimed && ExecutionEnds(old(service.db.Snapshot()), jobId, w)
    {
      var job := service.repository.Claim(jobId, id, w.claimedAt(jobId));
      if job.None? {
        return false, false;
      }
      var outcome := service.ExecuteClaimedJob(jobId, job.value, w.stamps(jobId), w.reply(jobId));
      return true, !outcome.Raised?;
    }
  }
}
