/**
 * The whole history of a single worker process that never crashes and whose receiver is always heard
 * out: submissions and ticks in any order, each as the classes of Services and Worker promise it.
 * The stream it publishes consists of the lives Dashboard speaks of, and its counters are the books
 * Ledger speaks of.
 */
module OneProcess {
  import opened DeliveryTypes
  import RetryPolicy
  import opened Rows
  import opened Execution
  import opened Dashboard
  import opened Ledger
  import opened Statements
  import Storage
  import opened Services
  import opened Worker
  import SoloTick

  // ---- the messages of one event --------------------------------------------------------

  predicate IsIngestion(m: Message) {
    m.kind == EventAccepted || m.kind == DuplicateEvent
  }

  /** The stream without the messages about submissions. */
  function Deliveries(trace: seq<Message>): seq<Message> {
    if trace == [] then []
    else
      var last := trace[|trace| - 1];
      Deliveries(trace[..|trace| - 1]) + if IsIngestion(last) then [] else [last]
  }

  lemma {:induction false} OnlyAppend(a: seq<Message>, b: seq<Message>, id: EventId)
    ensures Only(a + b, id) == Only(a, id) + Only(b, id)
  {
    if b == [] {
      assert a + b == a;
    } else {
      OnlyAppend(a, b[..|b| - 1], id);
      assert (a + b)[..|a + b| - 1] == a + b[..|b| - 1];
    }
  }

  lemma {:induction false} DeliveriesAppend(a: seq<Message>, b: seq<Message>)
    ensures Deliveries(a + b) == Deliveries(a) + Deliveries(b)
  {
    if b == [] {
      assert a + b == a;
    } else {
      DeliveriesAppend(a, b[..|b| - 1]);
      assert (a + b)[..|a + b| - 1] == a + b[..|b| - 1];
    }
  }

  lemma {:induction false} OwnMessages(trace: seq<Message>, id: EventId, other: EventId)
    requires forall i :: 0 <= i < |trace| ==> trace[i].id == id
    ensures Only(trace, other) == if other == id then trace else []
  {
    if trace != [] {
      var i := |trace| - 1;
      OwnMessages(trace[..i], id, other);
      if other == id {
        assert Only(trace, other) == trace[..i] + [trace[i]];
      } else {
        assert Only(trace, other) == [];
      }
    }
  }

  lemma {:induction false} AllDeliveries(trace: seq<Message>)
    requires forall i :: 0 <= i < |trace| ==> !IsIngestion(trace[i])
    ensures Deliveries(trace) == trace
  {
    if trace != [] {
      var i := |trace| - 1;
      AllDeliveries(trace[..i]);
      assert Deliveries(trace) == trace[..i] + [trace[i]];
    }
  }

  /** What one execution publishes is about its own event. */
  lemma ExecutionMessages(c: Config, id: EventId, n: nat, st: Stamps, reply: Reply)
    ensures var more := ExecuteMessages(c, id, n, st, reply);
            forall i :: 0 <= i < |more| ==> more[i].id == id && !IsIngestion(more[i])
  {
  }

  // ---- the life of one event ----------------------------------------------------------------

  ghost predicate IsLife(c: Config, id: EventId, event: Event, at: int, rounds: seq<Round>, s: Slice, trace: seq<Message>) {
    && Lives(c, id, Born(event, at), rounds) == Some(Life(s, trace))
    && forall r <- rounds :: WellFormed(r.result)
  }

  /** The submissions in the stream leave the dashboard's row as the deliveries alone make it. */
  ghost predicate FoldsAlike(id: EventId, event: Event, at: int, all: seq<Message>) {
    LiveRow(id, event, at, all) == LiveRow(id, event, at, Deliveries(all))
  }

  /** A life behind everything published about an event. */
  ghost predicate HasLife(c: Config, id: EventId, s: Slice, all: seq<Message>) {
    exists event, at, rounds :: IsLife(c, id, event, at, rounds, s, Deliveries(all)) && FoldsAlike(id, event, at, all)
  }

  /** Its first message, that the event was accepted, says what the row already shows. */
  lemma LifeBegins(c: Config, id: EventId, event: Event, at: int, m: Message)
    requires event.status == Pending && m == IngestMessage(id, Ingested(false, event))
    ensures HasLife(c, id, Born(event, at).slice, [m])
  {
    assert [m][..0] == [];
    assert Deliveries([m]) == [];
    PatchAllOne(RestRow(id, Born(event, at).slice), m);
    assert IsLife(c, id, event, at, [], Born(event, at).slice, []);
    assert FoldsAlike(id, event, at, [m]);
  }

  lemma FoldsOn(id: EventId, event: Event, at: int, all: seq<Message>, more: seq<Message>)
    requires FoldsAlike(id, event, at, all) && Deliveries(more) == more
    ensures FoldsAlike(id, event, at, all + more)
  {
    var row := RestRow(id, Born(event, at).slice);
    DeliveriesAppend(all, more);
    PatchAllAppend(row, all, more);
    PatchAllAppend(row, Deliveries(all), more);
  }

  lemma LifeGoesOn(c: Config, id: EventId, s: Slice, all: seq<Message>, r: Round, more: seq<Message>)
    requires HasLife(c, id, s, all) && CanClaim(s.job, r.claimedAt) && WellFormed(r.result) && Deliveries(more) == more
    requires LiveOn(c, id, Life(s, Deliveries(all)), r).trace == Deliveries(all) + more
    ensures HasLife(c, id, LiveOn(c, id, Life(s, Deliveries(all)), r).slice, all + more)
  {
    var event, at, rounds :| IsLife(c, id, event, at, rounds, s, Deliveries(all)) && FoldsAlike(id, event, at, all);
    var after := LiveOn(c, id, Life(s, Deliveries(all)), r);
    DeliveriesAppend(all, more);
    OneMoreRound(c, id, event, at, rounds, s, Deliveries(all), r);
    assert IsLife(c, id, event, at, rounds + [r], after.slice, Deliveries(all + more));
    FoldsOn(id, event, at, all, more);
  }

  lemma OneMoreRound(c: Config, id: EventId, event: Event, at: int, rounds: seq<Round>, s: Slice, trace: seq<Message>, r: Round)
    requires IsLife(c, id, event, at, rounds, s, trace) && CanClaim(s.job, r.claimedAt) && WellFormed(r.result)
    ensures var after := LiveOn(c, id, Life(s, trace), r);
            IsLife(c, id, event, at, rounds + [r], after.slice, after.trace)
  {
    assert (rounds + [r])[..|rounds|] == rounds;
  }

  /** A duplicate submission answers with the status the row already shows. */
  lemma LifeIsResubmitted(c: Config, id: EventId, s: Slice, all: seq<Message>, m: Message)
    requires HasLife(c, id, s, all) && m == IngestMessage(id, Ingested(true, s.event))
    ensures HasLife(c, id, s, all + [m])
  {
    var event, at, rounds :| IsLife(c, id, event, at, rounds, s, Deliveries(all)) && FoldsAlike(id, event, at, all);
    IngestionIsNoDelivery(all, m);
    LifeInvariant(c, id, event, at, rounds);
    DashboardAgrees(c, id, event, at, rounds, Life(s, Deliveries(all)));
    PatchAllAppend(RestRow(id, Born(event, at).slice), all, [m]);
    PatchAllOne(LiveRow(id, event, at, all), m);
    assert FoldsAlike(id, event, at, all + [m]);
    assert IsLife(c, id, event, at, rounds, s, Deliveries(all + [m]));
  }

  lemma IngestionIsNoDelivery(published: seq<Message>, m: Message)
    requires IsIngestion(m)
    ensures Deliveries(published + [m]) == Deliveries(published)
  {
    assert (published + [m])[..|published|] == published;
  }

  /** Between two acts of the process no job is being delivered, and the next attempt number is free. */
  lemma LifeIsQuiet(c: Config, id: EventId, s: Slice, all: seq<Message>)
    requires HasLife(c, id, s, all)
    ensures s.job.status != Delivering && (s.job.attemptCount + 1) !in s.rows
  {
    var event, at, rounds :| IsLife(c, id, event, at, rounds, s, Deliveries(all)) && FoldsAlike(id, event, at, all);
    QuietAfterRounds(c, id, event, at, rounds, s, Deliveries(all));
  }

  lemma QuietAfterRounds(c: Config, id: EventId, event: Event, at: int, rounds: seq<Round>, s: Slice, trace: seq<Message>)
    requires IsLife(c, id, event, at, rounds, s, trace)
    ensures s.job.status != Delivering && (s.job.attemptCount + 1) !in s.rows
  {
    LifeInvariant(c, id, event, at, rounds);
  }

  // ---- what holds of the process --------------------------------------------------------------

  ghost predicate RowsMatch(slices: map<EventId, Slice>, t: Tables) {
    && slices.Keys == t.jobs.Keys == t.events.Keys && t.attempts.Keys <= t.jobs.Keys
    && forall id <- slices :: slices[id] == SliceAt(t, id)
  }

  ghost predicate LivesMatch(c: Config, slices: map<EventId, Slice>, published: seq<Message>) {
    && (forall id <- slices :: HasLife(c, id, slices[id], Only(published, id)))
    && (forall id :: id !in slices ==> Only(published, id) == [])
  }

  /** The books keep all counters but the two that a recovery pass and a tick increment. */
  ghost predicate CountsMatch(counted: multiset<Counter>, books: multiset<Counter>) {
    forall name :: name != WorkerTicks && name != JobsRecovered ==> counted[name] == books[name]
  }

  ghost predicate Holds(c: Config, t: Tables, published: seq<Message>, counted: multiset<Counter>, entries: seq<Entry>) {
    && Kept(c, entries).Some?
    && var b := Kept(c, entries).value;
       && RowsMatch(b.slices, t)
       && LivesMatch(c, b.slices, published)
       && CountsMatch(counted, b.counters)
  }

  lemma KeptMore(c: Config, entries: seq<Entry>, e: Entry)
    requires Kept(c, entries).Some? && CanEnter(Kept(c, entries).value, e)
    ensures Kept(c, entries + [e]) == Some(Enter(c, Kept(c, entries).value, e))
  {
    assert (entries + [e])[..|entries|] == entries;
  }

  // ---- a claim and its execution ----------------------------------------------------------------

  predicate Heard(w: TickInputs, id: EventId) {
    w.reply(id).Answers? && WellFormed(w.reply(id).result)
  }

  function RoundOf(w: TickInputs, id: EventId, worker: string): Round
    requires Heard(w, id)
  {
    Round(worker, w.claimedAt(id), w.stamps(id), w.reply(id).result)
  }

  /** The execution opens its attempt, and so publishes and counts as one round of a life does. */
  lemma ClaimIsRound(c: Config, t: Tables, id: EventId, worker: string, w: TickInputs)
    requires Linked(t) && ClaimSucceeds(t, id, w) && Heard(w, id) && (t.jobs[id].attemptCount + 1) !in RowsOf(t, id)
    ensures ClaimTrace(c, t, id, worker, w)
            == ExecuteMessages(c, id, t.jobs[id].attemptCount + 1, w.stamps(id), w.reply(id))
    ensures ClaimCount(c, t, id, worker, w) == ExecuteCounters(c, t.jobs[id].attemptCount + 1, w.reply(id))
    ensures var s := SliceAt(t, id);
            forall trace :: LiveOn(c, id, Life(s, trace), RoundOf(w, id, worker)) ==
                            Life(DrainedSlice(c, s, id, worker, w), trace + ClaimTrace(c, t, id, worker, w))
  {
  }

  lemma RowsAfterClaim(c: Config, slices: map<EventId, Slice>, t: Tables, id: EventId, worker: string, w: TickInputs)
    requires RowsMatch(slices, t) && id in slices
    ensures RowsMatch(slices[id := DrainedSlice(c, slices[id], id, worker, w)], ClaimAndExecute(c, t, id, worker, w))
  {
    ClaimAndExecuteIsLocal(c, t, id, worker, w);
    AttemptsStayLinked(c, t, id, worker, w);
  }

  lemma AttemptsStayLinked(c: Config, t: Tables, id: EventId, worker: string, w: TickInputs)
    requires t.attempts.Keys <= t.jobs.Keys && id in t.jobs
    ensures var after := ClaimAndExecute(c, t, id, worker, w); after.attempts.Keys <= after.jobs.Keys
  {
  }

  lemma TraceAfter(published: seq<Message>, more: seq<Message>, id: EventId, k: EventId)
    requires forall i :: 0 <= i < |more| ==> more[i].id == id
    ensures Only(published + more, k) == Only(published, k) + if k == id then more else []
  {
    OwnMessages(more, id, k);
    OnlyAppend(published, more, k);
  }

  /** One event's slice and trace move on; every other event's trace stays as it is. */
  lemma LivesAfter(c: Config, slices: map<EventId, Slice>, published: seq<Message>, id: EventId, s: Slice, more: seq<Message>)
    requires LivesMatch(c, slices, published) && forall i :: 0 <= i < |more| ==> more[i].id == id
    requires HasLife(c, id, s, Only(published, id) + more)
    ensures LivesMatch(c, slices[id := s], published + more)
  {
    TraceAfter(published, more, id, id);
    forall k | k != id ensures Only(published + more, k) == Only(published, k) {
      TraceAfter(published, more, id, k);
    }
    LivesMoved(c, slices, published, id, s, published + more);
  }

  lemma LivesMoved(c: Config, slices: map<EventId, Slice>, published: seq<Message>, id: EventId, s: Slice, after: seq<Message>)
    requires LivesMatch(c, slices, published) && HasLife(c, id, s, Only(after, id))
    requires forall k :: k != id ==> Only(after, k) == Only(published, k)
    ensures LivesMatch(c, slices[id := s], after)
  {
  }

  /** The round entered in the books is the one the worker executed. */
  lemma EnteredIsDrained(c: Config, b: Books, t: Tables, id: EventId, worker: string, w: TickInputs)
    requires Linked(t) && id in b.slices && id in t.jobs && b.slices[id] == SliceAt(t, id)
    requires ClaimSucceeds(t, id, w) && Heard(w, id) && (t.jobs[id].attemptCount + 1) !in RowsOf(t, id)
    ensures CanEnter(b, Entry.Attempt(id, RoundOf(w, id, worker)))
    ensures Enter(c, b, Entry.Attempt(id, RoundOf(w, id, worker)))
            == Books(b.accepted, b.slices[id := DrainedSlice(c, b.slices[id], id, worker, w)],
                     b.counters + ClaimCount(c, t, id, worker, w))
  {
    ClaimIsRound(c, t, id, worker, w);
  }

  lemma LivesAfterClaim(c: Config, slices: map<EventId, Slice>, published: seq<Message>, t: Tables, id: EventId, worker: string,
                        w: TickInputs)
    requires LivesMatch(c, slices, published) && Linked(t) && id in slices && id in t.jobs && slices[id] == SliceAt(t, id)
    requires ClaimSucceeds(t, id, w) && Heard(w, id) && (t.jobs[id].attemptCount + 1) !in RowsOf(t, id)
    ensures LivesMatch(c, slices[id := DrainedSlice(c, slices[id], id, worker, w)], published + ClaimTrace(c, t, id, worker, w))
  {
    ClaimIsRound(c, t, id, worker, w);
    ExecutionMessages(c, id, t.jobs[id].attemptCount + 1, w.stamps(id), w.reply(id));
    AllDeliveries(ClaimTrace(c, t, id, worker, w));
    LifeGoesOn(c, id, slices[id], Only(published, id), RoundOf(w, id, worker), ClaimTrace(c, t, id, worker, w));
    LivesAfter(c, slices, published, id, DrainedSlice(c, slices[id], id, worker, w), ClaimTrace(c, t, id, worker, w));
  }

  lemma NextIsFree(c: Config, t: Tables, id: EventId, trace: seq<Message>)
    requires id in t.jobs && id in t.events && HasLife(c, id, SliceAt(t, id), trace)
    ensures t.jobs[id].status != Delivering && (t.jobs[id].attemptCount + 1) !in RowsOf(t, id)
  {
    LifeIsQuiet(c, id, SliceAt(t, id), trace);
  }

  function BooksAfterClaim(c: Config, b: Books, t: Tables, id: EventId, worker: string, w: TickInputs): Books
    requires id in b.slices
  {
    Books(b.accepted, b.slices[id := DrainedSlice(c, b.slices[id], id, worker, w)], b.counters + ClaimCount(c, t, id, worker, w))
  }

  lemma ClaimHolds(c: Config, t: Tables, published: seq<Message>, counted: multiset<Counter>, entries: seq<Entry>,
                   id: EventId, worker: string, w: TickInputs)
    returns (more: seq<Entry>)
    requires Holds(c, t, published, counted, entries) && Heard(w, id)
    ensures Holds(c, ClaimAndExecute(c, t, id, worker, w), published + ClaimTrace(c, t, id, worker, w),
                  counted + ClaimCount(c, t, id, worker, w), more)
  {
    if ClaimSucceeds(t, id, w) {
      var b := Kept(c, entries).value;
      more := entries + [Entry.Attempt(id, RoundOf(w, id, worker))];
      assert b.slices[id] == SliceAt(t, id);
      NextIsFree(c, t, id, Only(published, id));
      EnteredIsDrained(c, b, t, id, worker, w);
      KeptMore(c, entries, Entry.Attempt(id, RoundOf(w, id, worker)));
      assert Kept(c, more) == Some(BooksAfterClaim(c, b, t, id, worker, w));
      RowsAfterClaim(c, b.slices, t, id, worker, w);
      LivesAfterClaim(c, b.slices, published, t, id, worker, w);
      CountsAfter(counted, b.counters, ClaimCount(c, t, id, worker, w));
    } else {
      more := entries;
      assert published + [] == published;
      assert counted + multiset{} == counted;
    }
  }

  lemma CountsAfter(counted: multiset<Counter>, books: multiset<Counter>, more: multiset<Counter>)
    requires CountsMatch(counted, books)
    ensures CountsMatch(counted + more, books + more)
  {
  }

  // ---- a tick ---------------------------------------------------------------------------------------

  lemma Associate(a: seq<Message>, b: seq<Message>, d: seq<Message>, x: multiset<Counter>, y: multiset<Counter>, z: multiset<Counter>)
    ensures a + b + d == a + (b + d) && x + y + z == x + (y + z)
  {
  }

  lemma {:induction false} DrainHolds(c: Config, t: Tables, published: seq<Message>, counted: multiset<Counter>, entries: seq<Entry>,
                                      ids: seq<EventId>, worker: string, w: TickInputs)
    returns (more: seq<Entry>)
    requires Holds(c, t, published, counted, entries) && forall id <- ids :: Heard(w, id)
    ensures Holds(c, DrainAll(c, t, ids, worker, w), published + DrainTrace(c, t, ids, worker, w),
                  counted + DrainCount(c, t, ids, worker, w), more)
  {
    if ids == [] {
      more := entries;
      assert published + [] == published;
      assert counted + multiset{} == counted;
    } else {
      var i := |ids| - 1;
      var front, id := ids[..i], ids[i];
      var mid := DrainHolds(c, t, published, counted, entries, front, worker, w);
      var before := DrainAll(c, t, front, worker, w);
      var trace, count := DrainTrace(c, t, front, worker, w), DrainCount(c, t, front, worker, w);
      more := ClaimHolds(c, before, published + trace, counted + count, mid, id, worker, w);
      Associate(published, trace, ClaimTrace(c, before, id, worker, w), counted, count, ClaimCount(c, before, id, worker, w));
    }
  }

  ghost predicate NoneDelivering(jobs: map<EventId, Job>) {
    forall id <- jobs :: jobs[id].status != Delivering
  }

  /** No claim is left over from an earlier tick. */
  lemma QuietBetweenTicks(c: Config, t: Tables, published: seq<Message>, counted: multiset<Counter>, entries: seq<Entry>)
    requires Holds(c, t, published, counted, entries)
    ensures NoneDelivering(t.jobs)
  {
    var b := Kept(c, entries).value;
    forall id <- t.jobs ensures t.jobs[id].status != Delivering {
      assert b.slices[id] == SliceAt(t, id);
      NextIsFree(c, t, id, Only(published, id));
    }
  }

  lemma NothingStale(jobs: map<EventId, Job>, cutoff: int, limit: nat, stale: seq<EventId>)
    requires NoneDelivering(jobs) && AreOldestExpired(jobs, cutoff, limit, stale)
    ensures stale == []
  {
    assert stale != [] ==> IsExpired(jobs, stale[0], cutoff);
  }

  ghost predicate CountersAre(counters: map<Counter, nat>, counted: multiset<Counter>) {
    forall name :: Count(counters, name) == counted[name]
  }

  ghost predicate ProcessHolds(c: Config, j: Journal, counted: multiset<Counter>, entries: seq<Entry>) {
    Holds(c, j.tables, j.published, counted, entries) && CountersAre(j.counters, counted)
  }

  /** With nothing to recover, a tick is its drain. */
  lemma TickIsDrain(c: Config, j: Journal, w: TickInputs, mid: Journal, ids: seq<EventId>, worker: string, after: Journal)
    requires SweptAll(c, j, [], w, mid) && DrainedAll(c, mid, ids, worker, w, after)
    ensures DrainedAll(c, j, ids, worker, w, after)
  {
    assert mid.tables == j.tables;
    assert mid.published == j.published;
  }

  /** A tick that finds no job being delivered is its drain. */
  lemma QuietTick(c: Config, j: Journal, w: TickInputs, worker: string, limit: nat, stale: seq<EventId>, mid: Journal,
                  due: seq<EventId>, served: nat, after: Journal)
    requires served <= |due| && SoloTick.RanOnce(c, j, w, worker, limit, stale, mid, due, served, after)
    requires NoneDelivering(j.tables.jobs)
    ensures DrainedAll(c, j, due[..served], worker, w, after)
  {
    NothingStale(j.tables.jobs, w.startedAt - c.leaseMs, limit, stale);
    TickIsDrain(c, j, w, mid, due[..served], worker, after);
  }

  lemma TickHolds(c: Config, j: Journal, counted: multiset<Counter>, entries: seq<Entry>, w: TickInputs, worker: string,
                  limit: nat, stale: seq<EventId>, mid: Journal, due: seq<EventId>, served: nat, after: Journal)
    returns (nowCounted: multiset<Counter>, more: seq<Entry>)
    requires ProcessHolds(c, j, counted, entries) && served <= |due|
    requires SoloTick.RanOnce(c, j.(counters := Incremented(j.counters, WorkerTicks)), w, worker, limit, stale, mid, due, served, after)
    requires forall id <- due[..served] :: Heard(w, id)
    ensures ProcessHolds(c, after, nowCounted, more)
  {
    QuietBetweenTicks(c, j.tables, j.published, counted, entries);
    QuietTick(c, j.(counters := Incremented(j.counters, WorkerTicks)), w, worker, limit, stale, mid, due, served, after);
    nowCounted, more := DrainedHolds(c, j, counted, entries, due[..served], worker, w, after);
  }

  lemma DrainedHolds(c: Config, j: Journal, counted: multiset<Counter>, entries: seq<Entry>, ids: seq<EventId>, worker: string,
                     w: TickInputs, after: Journal)
    returns (nowCounted: multiset<Counter>, more: seq<Entry>)
    requires ProcessHolds(c, j, counted, entries) && forall id <- ids :: Heard(w, id)
    requires DrainedAll(c, j.(counters := Incremented(j.counters, WorkerTicks)), ids, worker, w, after)
    ensures ProcessHolds(c, after, nowCounted, more)
  {
    var ticked := counted + multiset{WorkerTicks};
    assert Holds(c, j.tables, j.published, ticked, entries);
    more := DrainHolds(c, j.tables, j.published, ticked, entries, ids, worker, w);
    nowCounted := ticked + DrainCount(c, j.tables, ids, worker, w);
    CountersAfter(j.counters, counted, after.counters, DrainCount(c, j.tables, ids, worker, w));
  }

  lemma CountersAfter(counters: map<Counter, nat>, counted: multiset<Counter>, after: map<Counter, nat>, more: multiset<Counter>)
    requires CountersAre(counters, counted) && Added(Incremented(counters, WorkerTicks), after, more)
    ensures CountersAre(after, counted + multiset{WorkerTicks} + more)
  {
  }

  // ---- a submission --------------------------------------------------------------------------------------

  /** What EventsService.Ingest promises when it answers. */
  ghost predicate Submitted(j: Journal, id: EventId, eventType: string, occurredAt: int, payload: string, now: int,
                            result: IngestResult, after: Journal)
  {
    && result.Ingested? && (result.duplicate <==> id in j.tables.events)
    && result.event == (if result.duplicate then j.tables.events[id] else Event(eventType, occurredAt, payload, Pending))
    && after.tables == (if result.duplicate then j.tables
                        else j.tables.(events := j.tables.events[id := Event(eventType, occurredAt, payload, Pending)],
                                       jobs := j.tables.jobs[id := NewJob(now)]))
    && after.published == j.published + [IngestMessage(id, result)]
    && after.counters == Incremented(j.counters, if result.duplicate then EventsDuplicate else EventsAccepted)
  }

  lemma LivesAfterDuplicate(c: Config, slices: map<EventId, Slice>, published: seq<Message>, id: EventId, m: Message)
    requires LivesMatch(c, slices, published) && id in slices && m == IngestMessage(id, Ingested(true, slices[id].event))
    ensures LivesMatch(c, slices, published + [m])
  {
    LifeIsResubmitted(c, id, slices[id], Only(published, id), m);
    LivesAfter(c, slices, published, id, slices[id], [m]);
    assert slices[id := slices[id]] == slices;
  }

  lemma LivesAfterAcceptance(c: Config, slices: map<EventId, Slice>, published: seq<Message>, id: EventId, event: Event, at: int,
                             m: Message)
    requires LivesMatch(c, slices, published) && id !in slices
    requires event.status == Pending && m == IngestMessage(id, Ingested(false, event))
    ensures LivesMatch(c, slices[id := Born(event, at).slice], published + [m])
  {
    LifeBegins(c, id, event, at, m);
    assert Only(published, id) + [m] == [m];
    LivesAfter(c, slices, published, id, Born(event, at).slice, [m]);
  }

  lemma RowsAfterAcceptance(slices: map<EventId, Slice>, t: Tables, id: EventId, event: Event, at: int)
    requires RowsMatch(slices, t) && id !in slices && event.status == Pending
    ensures RowsMatch(slices[id := Born(event, at).slice], t.(events := t.events[id := event], jobs := t.jobs[id := NewJob(at)]))
  {
  }

  lemma DuplicateHolds(c: Config, t: Tables, published: seq<Message>, counted: multiset<Counter>, entries: seq<Entry>,
                       id: EventId)
    requires Holds(c, t, published, counted, entries) && id in t.events
    ensures Holds(c, t, published + [IngestMessage(id, Ingested(true, t.events[id]))], counted + multiset{EventsDuplicate},
                  entries + [Duplicate(id)])
  {
    var slices := Kept(c, entries).value.slices;
    assert slices[id] == SliceAt(t, id);
    KeptMore(c, entries, Duplicate(id));
    LivesAfterDuplicate(c, slices, published, id, IngestMessage(id, Ingested(true, t.events[id])));
    CountsAfter(counted, Kept(c, entries).value.counters, multiset{EventsDuplicate});
  }

  lemma AcceptanceHolds(c: Config, t: Tables, published: seq<Message>, counted: multiset<Counter>, entries: seq<Entry>,
                        id: EventId, event: Event, at: int)
    requires Holds(c, t, published, counted, entries) && id !in t.events && event.status == Pending
    ensures Holds(c, t.(events := t.events[id := event], jobs := t.jobs[id := NewJob(at)]),
                  published + [IngestMessage(id, Ingested(false, event))], counted + multiset{EventsAccepted},
                  entries + [Accept(id, event, at)])
  {
    var b := Kept(c, entries).value;
    KeptMore(c, entries, Accept(id, event, at));
    RowsAfterAcceptance(b.slices, t, id, event, at);
    LivesAfterAcceptance(c, b.slices, published, id, event, at, IngestMessage(id, Ingested(false, event)));
    CountsAfter(counted, b.counters, multiset{EventsAccepted});
  }

  lemma CountersBumped(counters: map<Counter, nat>, counted: multiset<Counter>, name: Counter)
    requires CountersAre(counters, counted)
    ensures CountersAre(Incremented(counters, name), counted + multiset{name})
  {
  }

  lemma SubmissionHolds(c: Config, j: Journal, counted: multiset<Counter>, entries: seq<Entry>, id: EventId, eventType: string,
                        occurredAt: int, payload: string, now: int, result: IngestResult, after: Journal)
    returns (nowCounted: multiset<Counter>, more: seq<Entry>)
    requires ProcessHolds(c, j, counted, entries)
    requires Submitted(j, id, eventType, occurredAt, payload, now, result, after)
    ensures ProcessHolds(c, after, nowCounted, more)
  {
    var event := Event(eventType, occurredAt, payload, Pending);
    if result.duplicate {
      DuplicateHolds(c, j.tables, j.published, counted, entries, id);
      CountersBumped(j.counters, counted, EventsDuplicate);
      nowCounted, more := counted + multiset{EventsDuplicate}, entries + [Duplicate(id)];
    } else {
      AcceptanceHolds(c, j.tables, j.published, counted, entries, id, event, now);
      CountersBumped(j.counters, counted, EventsAccepted);
      nowCounted, more := counted + multiset{EventsAccepted}, entries + [Accept(id, event, now)];
    }
  }

  // ---- the whole history -----------------------------------------------------------------------------------

  datatype Act =
    | Submission(id: EventId, eventType: string, occurredAt: int, payload: string, now: int, result: IngestResult)
    | Tick(w: TickInputs, stale: seq<EventId>, mid: Journal, due: seq<EventId>, served: nat)

  /** The act leads from one journal to the next as its method promises, and every answer is heard. */
  ghost predicate Does(c: Config, worker: string, limit: nat, j: Journal, act: Act, after: Journal) {
    match act
    case Submission(id, eventType, occurredAt, payload, now, result) =>
      Submitted(j, id, eventType, occurredAt, payload, now, result, after)
    case Tick(w, stale, mid, due, served) =>
      && served <= |due|
      && SoloTick.RanOnce(c, j.(counters := Incremented(j.counters, WorkerTicks)), w, worker, limit, stale, mid, due, served, after)
      && forall id <- due[..served] :: Heard(w, id)
  }

  /** The process starts with nothing stored, and js[i + 1] is what act i makes of js[i]. */
  ghost predicate IsHistory(c: Config, worker: string, limit: nat, acts: seq<Act>, js: seq<Journal>) {
    && |js| == |acts| + 1
    && js[0] == Journal(Tables(map[], map[], map[]), [], map[])
    && forall i :: 0 <= i < |acts| ==> Does(c, worker, limit, js[i], acts[i], js[i + 1])
  }

  lemma ActHolds(c: Config, worker: string, limit: nat, j: Journal, act: Act, after: Journal, counted: multiset<Counter>,
                 entries: seq<Entry>)
    returns (nowCounted: multiset<Counter>, more: seq<Entry>)
    requires ProcessHolds(c, j, counted, entries) && Does(c, worker, limit, j, act, after)
    ensures ProcessHolds(c, after, nowCounted, more)
  {
    match act
    case Submission(id, eventType, occurredAt, payload, now, result) =>
      nowCounted, more := SubmissionHolds(c, j, counted, entries, id, eventType, occurredAt, payload, now, result, after);
    case Tick(w, stale, mid, due, served) =>
      nowCounted, more := TickHolds(c, j, counted, entries, w, worker, limit, stale, mid, due, served, after);
  }

  lemma {:induction false} HistoryHolds(c: Config, worker: string, limit: nat, acts: seq<Act>, js: seq<Journal>)
    returns (counted: multiset<Counter>, entries: seq<Entry>)
    requires IsHistory(c, worker, limit, acts, js)
    ensures ProcessHolds(c, js[|acts|], counted, entries)
  {
    if acts == [] {
      counted, entries := multiset{}, [];
    } else {
      var n := |acts| - 1;
      counted, entries := HistoryHolds(c, worker, limit, acts[..n], js[..|acts|]);
      counted, entries := ActHolds(c, worker, limit, js[n], acts[n], js[n + 1], counted, entries);
    }
  }

  /**
   * After any history of submissions and ticks the counters are books that balance over the tables:
   * accepted events are the events with a job, and the sums of BooksBalance hold.
   */
  lemma ProcessBooksBalance(c: Config, worker: string, limit: nat, acts: seq<Act>, js: seq<Journal>) returns (b: Books)
    requires IsHistory(c, worker, limit, acts, js)
    ensures var last := js[|acts|];
            && RowsMatch(b.slices, last.tables)
            && (forall name :: name != WorkerTicks && name != JobsRecovered ==> Count(last.counters, name) == b.counters[name])
    ensures Consistent(b) && Balanced(b)
  {
    var counted, entries := HistoryHolds(c, worker, limit, acts, js);
    b := Kept(c, entries).value;
    BooksBalance(c, entries, b);
  }

  /** The row patched from the stream against the row REST returns, after these rounds. */
  ghost predicate RowsAgree(id: EventId, event: Event, at: int, rounds: seq<Round>, s: Slice, trace: seq<Message>) {
    var live, rest := LiveRow(id, event, at, trace), RestRow(id, s);
    && live.status == rest.status == s.job.status
    && live.attemptCount == rest.attemptCount == |rounds|
    && (live.nextAttemptAt == rest.nextAttemptAt <==> s.job.status != Delivered)
    && (live.lastError == rest.lastError
        <==> (rounds != [] ==>
                var last := rounds[|rounds| - 1].result; RetryPolicy.Classify(last).Succeeded? || TextSurvives(last)))
  }

  /**
   * After any history of submissions and ticks, what was published about the delivery of an event is
   * the trace of a life that ends in its rows, so it has the shape of TraceShape; and the row patched
   * from everything published about the event, submissions included, agrees with REST as
   * DashboardAgrees says.
   */
  lemma ProcessPublishesLives(c: Config, worker: string, limit: nat, acts: seq<Act>, js: seq<Journal>, id: EventId)
    requires IsHistory(c, worker, limit, acts, js) && id in js[|acts|].tables.jobs
    ensures id in js[|acts|].tables.events
    ensures var s, all := SliceAt(js[|acts|].tables, id), Only(js[|acts|].published, id);
            && IsDeliveryTrace(c, s.job, Deliveries(all))
            && exists event, at, rounds ::
                 IsLife(c, id, event, at, rounds, s, Deliveries(all)) && RowsAgree(id, event, at, rounds, s, all)
  {
    var counted, entries := HistoryHolds(c, worker, limit, acts, js);
    var b := Kept(c, entries).value;
    var s, all := SliceAt(js[|acts|].tables, id), Only(js[|acts|].published, id);
    assert b.slices[id] == s;
    var event, at, rounds :| IsLife(c, id, event, at, rounds, s, Deliveries(all)) && FoldsAlike(id, event, at, all);
    TraceShape(c, id, event, at, rounds, Life(s, Deliveries(all)));
    DashboardAgrees(c, id, event, at, rounds, Life(s, Deliveries(all)));
  }

  // ---- the methods are the acts ----------------------------------------------------------------------------

  ghost function JournalOf(db: Storage.Database, realtime: RealtimePublisher, metrics: MetricsService): Journal
    reads db, realtime, metrics
  {
    Journal(db.Snapshot(), realtime.published, metrics.counters)
  }

  method TickOnce(worker: DeliveryWorker, w: TickInputs, shutdownAt: nat)
    returns (result: WorkerTickResult, ghost stale: seq<EventId>, ghost mid: Journal, ghost due: seq<EventId>)
    requires worker.service.Valid()
    modifies worker`stopped, worker`ticking, worker`lastTickAt
    modifies worker.service.db, worker.service.metrics`counters, worker.service.metrics`httpStatuses, worker.service.realtime
    ensures SoloTick.RanOnce(worker.service.c,
                             old(worker.Now()).(counters := Incremented(old(worker.service.metrics.counters), WorkerTicks)),
                             w, worker.id, worker.batchSize, stale, mid, due, Served(old(worker.stopped), shutdownAt, |due|),
                             worker.Now())
  {
    result, stale, mid, due := worker.RunOnce(w, shutdownAt);
  }

  method SubmitOnce(events: EventsService, id: EventId, eventType: string, occurredAt: int, payload: string, now: int,
                    ghost c: Config, ghost worker: string, ghost limit: nat)
    returns (result: IngestResult)
    requires events.Valid()
    modifies events.db, events.metrics`counters, events.realtime
    ensures result.Ingested? ==>
              Does(c, worker, limit, old(JournalOf(events.db, events.realtime, events.metrics)),
                   Submission(id, eventType, occurredAt, payload, now, result),
                   JournalOf(events.db, events.realtime, events.metrics))
  {
    result := events.Ingest(id, eventType, occurredAt, payload, now);
  }
}
