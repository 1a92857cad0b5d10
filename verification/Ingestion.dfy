/**
 * Idempotent ingestion (events.service.ts) as concurrent database transactions: any number of
 * submissions, of the same id or of different ones, interleave statement by statement, and each
 * may die at any point.
 */
module Ingestion {
  import opened DeliveryTypes
  import Rows

  datatype Driver = MySql | Sqlite

  function LowerChar(ch: char): char {
    if 'A' <= ch <= 'Z' then ch - 'A' + 'a' else ch
  }

  /** Which ids the UNIQUE(eventId) index takes for equal: MySQL's collation ignores case. */
  function Key(d: Driver, id: EventId): string {
    if d == Sqlite || id == "" then id else [LowerChar(id[0])] + Key(d, id[1..])
  }

  datatype Submission = Submission(id: EventId, eventType: string, occurredAt: int, payload: string)

  datatype StoredEvent = StoredEvent(content: Submission, status: DeliveryStatus)

  const READS := 3

  datatype Phase =
    | Begun
    | EventInserted                 // uncommitted, and the index entry is locked
    | JobInserted
    | Committed
    | Accepted                      // answered duplicate:false
    | Looking(tries: nat)           // rolled back on a unique violation, reading the winner's row
    | AnsweredDuplicate(row: StoredEvent)
    | GaveUp                        // the winner rolled back; the caller gets an error
    | Died

  /** `key` is the index entry of the submitted id. */
  datatype Transaction = Transaction(key: string, submission: Submission, phase: Phase)

  datatype Tables = Tables(events: map<string, StoredEvent>, jobs: map<string, Job>, txs: seq<Transaction>)

  datatype Step =
    | Submit(submission: Submission)
    | InsertEvent(i: nat)
    | ViolateEvent(i: nat)
    | InsertJob(i: nat)
    | ViolateJob(i: nat)
    | Commit(i: nat, now: int)
    | Accept(i: nat)
    | Read(i: nat)
    | Die(i: nat)
    | Deliver(key: string, job: Job, shown: DeliveryStatus)

  predicate HoldsEvent(p: Phase) { p.EventInserted? || p.JobInserted? }

  predicate Won(p: Phase) { p.Committed? || p.Accepted? }

  /** Another open transaction has inserted the same key. */
  predicate Contended(s: Tables, i: nat)
    requires i < |s.txs|
  {
    exists j :: 0 <= j < |s.txs| && j != i && HoldsEvent(s.txs[j].phase) && s.txs[j].key == s.txs[i].key
  }

  /**
   * An INSERT goes through only when its key is neither stored nor held by an open transaction.
   * Otherwise it waits, or fails with a unique violation.
   */
  predicate Enabled(s: Tables, step: Step) {
    match step
    case Submit(_) => true
    case InsertEvent(i) =>
      i < |s.txs| && s.txs[i].phase.Begun? && s.txs[i].key !in s.events && !Contended(s, i)
    case ViolateEvent(i) =>
      i < |s.txs| && s.txs[i].phase.Begun? && (s.txs[i].key in s.events || Contended(s, i))
    case InsertJob(i) => i < |s.txs| && s.txs[i].phase.EventInserted? && s.txs[i].key !in s.jobs
    case ViolateJob(i) => i < |s.txs| && s.txs[i].phase.EventInserted? && s.txs[i].key in s.jobs
    case Commit(i, _) => i < |s.txs| && s.txs[i].phase.JobInserted?
    case Accept(i) => i < |s.txs| && s.txs[i].phase.Committed?
    case Read(i) => i < |s.txs| && s.txs[i].phase.Looking? && s.txs[i].phase.tries < READS
    case Die(i) => i < |s.txs| && !Won(s.txs[i].phase)
    case Deliver(key, _, _) => key in s.jobs && key in s.events
  }

  function Move(s: Tables, i: nat, p: Phase): Tables
    requires i < |s.txs|
  {
    s.(txs := s.txs[i := s.txs[i].(phase := p)])
  }

  predicate MovesTransaction(step: Step) { !step.Submit? && !step.Deliver? }

  /** Where a step leaves the transaction it names. */
  function NextPhase(s: Tables, step: Step): Phase
    requires Enabled(s, step) && MovesTransaction(step)
  {
    match step
    case InsertEvent(_) => EventInserted
    case ViolateEvent(_) => Looking(0)
    case InsertJob(_) => JobInserted
    case ViolateJob(_) => Looking(0)
    case Commit(_, _) => Committed
    case Accept(_) => Accepted
    case Read(i) =>
      var key, tries := s.txs[i].key, s.txs[i].phase.tries + 1;
      if key in s.events then AnsweredDuplicate(s.events[key])
      else if tries == READS then GaveUp
      else Looking(tries)
    case Die(_) => Died
  }

  function Apply(d: Driver, s: Tables, step: Step): Tables
    requires Enabled(s, step)
  {
    match step
    case Submit(submission) => s.(txs := s.txs + [Transaction(Key(d, submission.id), submission, Begun)])
    case Deliver(key, job, shown) =>
      s.(jobs := s.jobs[key := job], events := s.events[key := s.events[key].(status := shown)])
    case Commit(i, now) =>
      var t := s.txs[i];
      Move(s, i, Committed).(
        events := s.events[t.key := StoredEvent(t.submission, Pending)],
        jobs := s.jobs[t.key := Rows.NewJob(now)])
    case _ => Move(s, step.i, NextPhase(s, step))
  }

  function Run(d: Driver, steps: seq<Step>): Option<Tables> {
    if steps == [] then Some(Tables(map[], map[], []))
    else
      match Run(d, steps[..|steps| - 1])
      case None => None
      case Some(s) =>
        if Enabled(s, steps[|steps| - 1]) then Some(Apply(d, s, steps[|steps| - 1])) else None
  }

  // ---- invariants ---------------------------------------------------------------------

  predicate WonBy(t: Transaction, key: string) {
    Won(t.phase) && t.key == key
  }

  /** Each stored row is the submission of a winner, and every winner's submission is stored. */
  ghost predicate Stored(s: Tables) {
    && s.events.Keys == s.jobs.Keys
    && (forall i :: 0 <= i < |s.txs| && Won(s.txs[i].phase) ==>
          s.txs[i].key in s.events && s.events[s.txs[i].key].content == s.txs[i].submission)
    && (forall key <- s.events :: exists i :: 0 <= i < |s.txs| && WonBy(s.txs[i], key))
  }

  ghost predicate Keyed(d: Driver, s: Tables) {
    forall i :: 0 <= i < |s.txs| ==> s.txs[i].key == Key(d, s.txs[i].submission.id)
  }

  /** The transaction has inserted its event, and has not rolled back. */
  predicate Taken(p: Phase) { HoldsEvent(p) || Won(p) }

  /** No key is inserted by two transactions, and the key of an open one is not stored yet. */
  ghost predicate Exclusive(s: Tables) {
    forall i, j :: 0 <= i < j < |s.txs| && Taken(s.txs[i].phase) && Taken(s.txs[j].phase) ==> s.txs[i].key != s.txs[j].key
  }

  ghost predicate Free(s: Tables) {
    forall i :: 0 <= i < |s.txs| && HoldsEvent(s.txs[i].phase) ==> s.txs[i].key !in s.events
  }

  /** Every duplicate answer carries the stored content. */
  ghost predicate Answered(s: Tables) {
    && (forall i :: 0 <= i < |s.txs| && s.txs[i].phase.AnsweredDuplicate? ==>
          && s.txs[i].key in s.events
          && s.txs[i].phase.row.content == s.events[s.txs[i].key].content)
    && (forall i :: 0 <= i < |s.txs| && s.txs[i].phase.Looking? ==> s.txs[i].phase.tries < READS)
  }

  /** Moving a transaction on without winning or losing. */
  lemma StoredMove(s: Tables, i: nat, p: Phase)
    requires Stored(s) && i < |s.txs| && Won(p) == Won(s.txs[i].phase)
    ensures Stored(Move(s, i, p))
  {
    var s' := Move(s, i, p);
    forall key <- s'.events ensures exists j :: 0 <= j < |s'.txs| && WonBy(s'.txs[j], key) {
      var j :| 0 <= j < |s.txs| && WonBy(s.txs[j], key);
      assert WonBy(s'.txs[j], key);
    }
  }

  lemma StoredSubmit(s: Tables, t: Transaction)
    requires Stored(s) && !Won(t.phase)
    ensures Stored(s.(txs := s.txs + [t]))
  {
    var s' := s.(txs := s.txs + [t]);
    forall key <- s'.events ensures exists j :: 0 <= j < |s'.txs| && WonBy(s'.txs[j], key) {
      var j :| 0 <= j < |s.txs| && WonBy(s.txs[j], key);
      assert WonBy(s'.txs[j], key);
    }
  }

  lemma StoredCommit(d: Driver, s: Tables, i: nat, now: int)
    requires Stored(s) && Free(s) && Enabled(s, Commit(i, now))
    ensures Stored(Apply(d, s, Commit(i, now)))
  {
    var s' := Apply(d, s, Commit(i, now));
    forall key <- s'.events ensures exists j :: 0 <= j < |s'.txs| && WonBy(s'.txs[j], key) {
      if key == s.txs[i].key {
        assert WonBy(s'.txs[i], key);
      } else {
        var j :| 0 <= j < |s.txs| && WonBy(s.txs[j], key);
        assert WonBy(s'.txs[j], key);
      }
    }
  }

  lemma StoredDeliver(s: Tables, key: string, job: Job, shown: DeliveryStatus)
    requires Stored(s) && key in s.jobs && key in s.events
    ensures Stored(s.(jobs := s.jobs[key := job], events := s.events[key := s.events[key].(status := shown)]))
  {
  }

  /** Only a commit wins, and only an INSERT of the event takes a key. */
  lemma PhaseFacts(s: Tables, step: Step)
    requires Enabled(s, step) && MovesTransaction(step)
    ensures step.i < |s.txs|
    ensures !step.Commit? ==> Won(NextPhase(s, step)) == Won(s.txs[step.i].phase)
    ensures !step.InsertEvent? ==> Taken(NextPhase(s, step)) ==> Taken(s.txs[step.i].phase)
    ensures !step.InsertEvent? ==> HoldsEvent(NextPhase(s, step)) ==> HoldsEvent(s.txs[step.i].phase)
  {
  }

  lemma StoredStep(d: Driver, s: Tables, step: Step)
    requires Stored(s) && Free(s) && Enabled(s, step)
    ensures Stored(Apply(d, s, step))
  {
    if step.Submit? {
      StoredSubmit(s, Transaction(Key(d, step.submission.id), step.submission, Begun));
    } else if step.Deliver? {
      StoredDeliver(s, step.key, step.job, step.shown);
    } else if step.Commit? {
      StoredCommit(d, s, step.i, step.now);
    } else {
      PhaseFacts(s, step);
      StoredMove(s, step.i, NextPhase(s, step));
    }
  }

  lemma ExclusiveMove(s: Tables, i: nat, p: Phase)
    requires Exclusive(s) && i < |s.txs| && (Taken(p) ==> Taken(s.txs[i].phase))
    ensures Exclusive(Move(s, i, p))
  {
  }

  lemma ExclusiveInsert(s: Tables, i: nat)
    requires Stored(s) && Exclusive(s) && Enabled(s, InsertEvent(i))
    ensures Exclusive(Move(s, i, EventInserted))
  {
  }

  lemma ExclusiveStep(d: Driver, s: Tables, step: Step)
    requires Stored(s) && Exclusive(s) && Enabled(s, step)
    ensures Exclusive(Apply(d, s, step))
  {
    if step.InsertEvent? {
      ExclusiveInsert(s, step.i);
    } else if MovesTransaction(step) {
      PhaseFacts(s, step);
      ExclusiveMove(s, step.i, NextPhase(s, step));
    }
  }

  lemma FreeStep(d: Driver, s: Tables, step: Step)
    requires Free(s) && Exclusive(s) && Enabled(s, step)
    ensures Free(Apply(d, s, step))
  {
    if MovesTransaction(step) && !step.InsertEvent? {
      PhaseFacts(s, step);
    }
  }

  lemma AnsweredStep(d: Driver, s: Tables, step: Step)
    requires Free(s) && Answered(s) && Enabled(s, step)
    ensures Answered(Apply(d, s, step))
  {
  }

  lemma KeyedStep(d: Driver, s: Tables, step: Step)
    requires Keyed(d, s) && Enabled(s, step)
    ensures Keyed(d, Apply(d, s, step))
  {
  }

  ghost predicate Good(d: Driver, s: Tables) {
    Keyed(d, s) && Stored(s) && Exclusive(s) && Free(s) && Answered(s)
  }

  lemma GoodStep(d: Driver, s: Tables, step: Step)
    requires Good(d, s) && Enabled(s, step)
    ensures Good(d, Apply(d, s, step))
  {
    KeyedStep(d, s, step);
    StoredStep(d, s, step);
    ExclusiveStep(d, s, step);
    FreeStep(d, s, step);
    AnsweredStep(d, s, step);
  }

  lemma {:induction false} Invariant(d: Driver, steps: seq<Step>)
    requires Run(d, steps).Some?
    ensures Good(d, Run(d, steps).value)
  {
    if steps != [] {
      var front := steps[..|steps| - 1];
      Invariant(d, front);
      GoodStep(d, Run(d, front).value, steps[|steps| - 1]);
    }
  }

  // ---- guarantees -----------------------------------------------------------------------

  /** An event is stored exactly when its job is. */
  lemma EventAndJobTogether(d: Driver, steps: seq<Step>, s: Tables)
    requires Run(d, steps) == Some(s)
    ensures s.events.Keys == s.jobs.Keys
  {
    Invariant(d, steps);
  }

  /** Of all submissions of one id, however they interleave, at most one is accepted as new. */
  lemma AtMostOneAccepted(d: Driver, steps: seq<Step>, s: Tables, i: nat, j: nat)
    requires Run(d, steps) == Some(s) && i < |s.txs| && j < |s.txs|
    requires s.txs[i].phase.Accepted? && s.txs[j].phase.Accepted?
    requires Key(d, s.txs[i].submission.id) == Key(d, s.txs[j].submission.id)
    ensures i == j
  {
    Invariant(d, steps);
  }

  /**
   * Every duplicate answer returns the row of a submission of the same id that had committed, and
   * that row is still what is stored.
   */
  lemma DuplicatesReturnTheWinner(d: Driver, steps: seq<Step>, s: Tables, i: nat) returns (winner: nat)
    requires Run(d, steps) == Some(s) && i < |s.txs| && s.txs[i].phase.AnsweredDuplicate?
    ensures winner < |s.txs| && winner != i && Won(s.txs[winner].phase)
    ensures Key(d, s.txs[winner].submission.id) == Key(d, s.txs[i].submission.id)
    ensures s.txs[i].phase.row.content == s.txs[winner].submission
    ensures s.txs[i].key in s.events && s.events[s.txs[i].key].content == s.txs[winner].submission
  {
    Invariant(d, steps);
    winner :| 0 <= winner < |s.txs| && WonBy(s.txs[winner], s.txs[i].key);
  }

  /** What was stored first stays: no later submission and no delivery step changes it. */
  lemma StoredContentStep(d: Driver, s: Tables, step: Step, key: string)
    requires Free(s) && Enabled(s, step) && key in s.events
    ensures key in Apply(d, s, step).events
    ensures Apply(d, s, step).events[key].content == s.events[key].content
  {
  }

  lemma {:induction false} FirstContentStays(d: Driver, steps: seq<Step>, i: nat, s: Tables, later: Tables, key: string)
    requires i <= |steps| && Run(d, steps[..i]) == Some(s) && Run(d, steps) == Some(later) && key in s.events
    ensures key in later.events && later.events[key].content == s.events[key].content
  {
    if i < |steps| {
      var front := steps[..|steps| - 1];
      assert front[..i] == steps[..i];
      var before := Run(d, front).value;
      FirstContentStays(d, front, i, s, before, key);
      Invariant(d, front);
      StoredContentStep(d, before, steps[|steps| - 1], key);
    } else {
      assert steps[..i] == steps;
    }
  }

  // ---- what a commit stores ---------------------------------------------------------------------

  /** No delivery step of the run has touched the key. */
  ghost predicate Undelivered(steps: seq<Step>, key: string) {
    forall i :: 0 <= i < |steps| && steps[i].Deliver? ==> steps[i].key != key
  }

  /** Steps other than its own commit and delivery leave the rows of a key alone. */
  lemma RowsOfKeyStay(d: Driver, s: Tables, step: Step, key: string)
    requires Enabled(s, step) && key in Apply(d, s, step).jobs && key in Apply(d, s, step).events
    requires !(step.Deliver? && step.key == key) && !(step.Commit? && s.txs[step.i].key == key)
    ensures key in s.jobs && Apply(d, s, step).jobs[key] == s.jobs[key]
    ensures key in s.events && Apply(d, s, step).events[key] == s.events[key]
  {
  }

  lemma CommitStores(d: Driver, s: Tables, i: nat, now: int)
    requires Enabled(s, Commit(i, now))
    ensures var after, key := Apply(d, s, Commit(i, now)), s.txs[i].key;
            && |after.txs| == |s.txs| && after.txs[i].key == key && after.txs[i].submission == s.txs[i].submission
            && key in after.events && after.events[key] == StoredEvent(s.txs[i].submission, Pending)
            && key in after.jobs && after.jobs[key] == Job(Pending, 0, now, None, None)
  {
  }

  /** The keys of submissions never change. */
  lemma KeysStay(d: Driver, s: Tables, step: Step, i: nat)
    requires Enabled(s, step) && i < |s.txs|
    ensures i < |Apply(d, s, step).txs| && Apply(d, s, step).txs[i].key == s.txs[i].key
    ensures Apply(d, s, step).txs[i].submission == s.txs[i].submission
  {
  }

  /** Every transaction was begun by a submission, whose content it still carries. */
  lemma {:induction false} TransactionWasSubmitted(d: Driver, steps: seq<Step>, s: Tables, i: nat) returns (at: nat)
    requires Run(d, steps) == Some(s) && i < |s.txs|
    ensures at < |steps| && steps[at] == Submit(s.txs[i].submission) && s.txs[i].key == Key(d, s.txs[i].submission.id)
  {
    var front := steps[..|steps| - 1];
    var before := Run(d, front).value;
    at := |steps| - 1;
    if i < |before.txs| {
      KeysStay(d, before, steps[|steps| - 1], i);
      at := TransactionWasSubmitted(d, front, before, i);
    }
  }

  /** What is stored under a key was submitted, word for word, under an id with that key. */
  lemma StoredWasSubmitted(d: Driver, steps: seq<Step>, s: Tables, key: string) returns (at: nat)
    requires Run(d, steps) == Some(s) && key in s.events
    ensures at < |steps| && steps[at] == Submit(s.events[key].content) && Key(d, s.events[key].content.id) == key
  {
    Invariant(d, steps);
    var i :| 0 <= i < |s.txs| && WonBy(s.txs[i], key);
    at := TransactionWasSubmitted(d, steps, s, i);
  }

  /**
   * However submissions interleave, a stored key that no delivery step has touched has a pending event
   * row and a job that nobody has claimed, due at the moment of its own commit.
   */
  lemma {:induction false} CommitStoresPendingJob(d: Driver, steps: seq<Step>, s: Tables, key: string)
    returns (at: nat, i: nat, now: int)
    requires Run(d, steps) == Some(s) && key in s.events && Undelivered(steps, key)
    ensures at < |steps| && steps[at] == Commit(i, now) && i < |s.txs| && s.txs[i].key == key
    ensures s.events[key].status == Pending && s.events[key].content == s.txs[i].submission
    ensures key in s.jobs && s.jobs[key] == Job(Pending, 0, now, None, None)
  {
    var front, last := steps[..|steps| - 1], steps[|steps| - 1];
    var before := Run(d, front).value;
    EventAndJobTogether(d, steps, s);
    if last.Commit? && before.txs[last.i].key == key {
      at, i, now := |steps| - 1, last.i, last.now;
      CommitStores(d, before, i, now);
    } else {
      assert !(last.Deliver? && last.key == key);
      RowsOfKeyStay(d, before, last, key);
      assert Undelivered(front, key);
      at, i, now := CommitStoresPendingJob(d, front, before, key);
      KeysStay(d, before, last, i);
    }
  }

  /** A duplicate answer carries the row, status included, that was stored when it was read. */
  lemma {:induction false} DuplicateAnswersWhatItRead(d: Driver, steps: seq<Step>, s: Tables, i: nat)
    returns (at: nat, before: Tables)
    requires Run(d, steps) == Some(s) && i < |s.txs| && s.txs[i].phase.AnsweredDuplicate?
    ensures at < |steps| && steps[at] == Read(i) && Run(d, steps[..at]) == Some(before)
    ensures s.txs[i].key in before.events && s.txs[i].phase.row == before.events[s.txs[i].key]
  {
    var front, last := steps[..|steps| - 1], steps[|steps| - 1];
    before := Run(d, front).value;
    at := |steps| - 1;
    if i < |before.txs| && before.txs[i].phase.AnsweredDuplicate? {
      var was := before;
      AnswersStay(d, was, last, i);
      at, before := DuplicateAnswersWhatItRead(d, front, was, i);
      assert front[..at] == steps[..at];
    } else {
      OnlyReadsAnswer(d, before, last, i);
    }
  }

  lemma AnswersStay(d: Driver, s: Tables, step: Step, i: nat)
    requires Enabled(s, step) && i < |s.txs| && s.txs[i].phase.AnsweredDuplicate?
    requires Apply(d, s, step).txs[i].phase.AnsweredDuplicate?
    ensures Apply(d, s, step).txs[i] == s.txs[i]
  {
  }

  lemma OnlyReadsAnswer(d: Driver, s: Tables, step: Step, i: nat)
    requires Enabled(s, step) && i < |Apply(d, s, step).txs| && Apply(d, s, step).txs[i].phase.AnsweredDuplicate?
    requires !(i < |s.txs| && s.txs[i].phase.AnsweredDuplicate?)
    ensures step == Read(i) && Apply(d, s, step).txs[i].key in s.events
    ensures Apply(d, s, step).txs[i].phase.row == s.events[Apply(d, s, step).txs[i].key]
  {
  }

  // ---- which ids are the same, and that a fresh one is accepted -----------------------------------

  predicate SameLetter(a: char, b: char) {
    a == b || ('A' <= a <= 'Z' && b == a - 'A' + 'a') || ('A' <= b <= 'Z' && a == b - 'A' + 'a')
  }

  /** SQLite takes ids for equal when they are; MySQL also when they differ in the case of letters. */
  lemma {:induction false} KeyMeaning(a: EventId, b: EventId)
    ensures Key(Sqlite, a) == Key(Sqlite, b) <==> a == b
    ensures |Key(MySql, a)| == |a|
    ensures Key(MySql, a) == Key(MySql, b) <==> |a| == |b| && forall i :: 0 <= i < |a| ==> SameLetter(a[i], b[i])
  {
    KeyIsPointwise(a);
    KeyIsPointwise(b);
    assert forall i :: 0 <= i < |a| && |a| == |b| ==> (LowerChar(a[i]) == LowerChar(b[i]) <==> SameLetter(a[i], b[i]));
  }

  lemma {:induction false} KeyIsPointwise(a: EventId)
    ensures |Key(MySql, a)| == |a| && forall i :: 0 <= i < |a| ==> Key(MySql, a)[i] == LowerChar(a[i])
  {
    if a != "" {
      KeyIsPointwise(a[1..]);
      assert forall i :: 0 < i < |a| ==> Key(MySql, a)[i] == Key(MySql, a[1..])[i - 1];
    }
  }

  /** A submission whose id is not stored and that nobody else is inserting can be accepted, whatever else goes on. */
  lemma FreshIsAccepted(d: Driver, steps: seq<Step>, s: Tables, i: nat, now: int)
    requires Run(d, steps) == Some(s) && i < |s.txs| && s.txs[i].phase.Begun?
    requires s.txs[i].key !in s.events && !Contended(s, i)
    ensures var more := [InsertEvent(i), InsertJob(i), Commit(i, now), Accept(i)];
            && Run(d, steps + more).Some?
            && var after := Run(d, steps + more).value;
               && i < |after.txs| && after.txs[i].phase.Accepted? && s.txs[i].key in after.events
               && after.events == s.events[s.txs[i].key := StoredEvent(s.txs[i].submission, Pending)]
               && after.jobs == s.jobs[s.txs[i].key := Job(Pending, 0, now, None, None)]
  {
    Invariant(d, steps);
    var s1 := Apply(d, s, InsertEvent(i));
    var s2 := Apply(d, s1, InsertJob(i));
    var s3 := Apply(d, s2, Commit(i, now));
    RunMore(d, steps, s, InsertEvent(i));
    RunMore(d, steps + [InsertEvent(i)], s1, InsertJob(i));
    RunMore(d, steps + [InsertEvent(i)] + [InsertJob(i)], s2, Commit(i, now));
    RunMore(d, steps + [InsertEvent(i)] + [InsertJob(i)] + [Commit(i, now)], s3, Accept(i));
    assert steps + [InsertEvent(i)] + [InsertJob(i)] + [Commit(i, now)] + [Accept(i)]
           == steps + [InsertEvent(i), InsertJob(i), Commit(i, now), Accept(i)];
  }

  /** A submission whose id is stored is answered with the stored row, whatever else goes on. */
  lemma StoredIsAnswered(d: Driver, steps: seq<Step>, s: Tables, i: nat)
    requires Run(d, steps) == Some(s) && i < |s.txs| && s.txs[i].phase.Begun? && s.txs[i].key in s.events
    ensures var more := [ViolateEvent(i), Read(i)];
            && Run(d, steps + more).Some?
            && var after := Run(d, steps + more).value;
               && after.events == s.events && after.jobs == s.jobs
               && i < |after.txs| && after.txs[i].phase == AnsweredDuplicate(s.events[s.txs[i].key])
  {
    RunMore(d, steps, s, ViolateEvent(i));
    RunMore(d, steps + [ViolateEvent(i)], Apply(d, s, ViolateEvent(i)), Read(i));
    assert steps + [ViolateEvent(i)] + [Read(i)] == steps + [ViolateEvent(i), Read(i)];
  }

  /** And once delivery has shown a new status, with that status. */
  lemma AnswerFollowsDelivery(d: Driver, steps: seq<Step>, s: Tables, i: nat, job: Job, shown: DeliveryStatus)
    requires Run(d, steps) == Some(s) && i < |s.txs| && s.txs[i].phase.Begun? && s.txs[i].key in s.events
    ensures var key := s.txs[i].key;
            var more := [Deliver(key, job, shown), ViolateEvent(i), Read(i)];
            && Run(d, steps + more).Some?
            && var after := Run(d, steps + more).value;
               && i < |after.txs| && after.txs[i].phase == AnsweredDuplicate(StoredEvent(s.events[key].content, shown))
               && after.jobs == s.jobs[key := job]
  {
    Invariant(d, steps);
    var step := Deliver(s.txs[i].key, job, shown);
    RunMore(d, steps, s, step);
    StoredIsAnswered(d, steps + [step], Apply(d, s, step), i);
    assert steps + [step] + [ViolateEvent(i), Read(i)] == steps + [step, ViolateEvent(i), Read(i)];
  }

  lemma RunMore(d: Driver, steps: seq<Step>, s: Tables, step: Step)
    requires Run(d, steps) == Some(s) && Enabled(s, step)
    ensures Run(d, steps + [step]) == Some(Apply(d, s, step))
  {
    assert (steps + [step])[..|steps|] == steps;
  }

  // ---- giving up ------------------------------------------------------------------------------

  /** The reads of a submission so far. */
  function Reads(steps: seq<Step>, i: nat): nat {
    if steps == [] then 0 else Reads(steps[..|steps| - 1], i) + if steps[|steps| - 1] == Read(i) then 1 else 0
  }

  /** Those that found nothing stored under its key. */
  function MissedReads(d: Driver, steps: seq<Step>, i: nat): nat
    requires Run(d, steps).Some?
  {
    if steps == [] then 0
    else
      var front := steps[..|steps| - 1];
      var before := Run(d, front).value;
      MissedReads(d, front, i)
      + if steps[|steps| - 1] == Read(i) && before.txs[i].key !in before.events then 1 else 0
  }

  lemma {:induction false} ReadsMissed(d: Driver, steps: seq<Step>, i: nat)
    requires Run(d, steps).Some?
    ensures var s := Run(d, steps).value;
            && (i >= |s.txs| ==> Reads(steps, i) == 0)
            && (i < |s.txs| && (s.txs[i].phase.Begun? || HoldsEvent(s.txs[i].phase)) ==> Reads(steps, i) == 0)
            && (i < |s.txs| && s.txs[i].phase.Looking? ==>
                  Reads(steps, i) == MissedReads(d, steps, i) == s.txs[i].phase.tries)
            && (i < |s.txs| && s.txs[i].phase.GaveUp? ==> Reads(steps, i) == MissedReads(d, steps, i) == READS)
            && (Reads(steps, i) == 0 ==> MissedReads(d, steps, i) == 0)
  {
    if steps != [] {
      ReadsMissed(d, steps[..|steps| - 1], i);
    }
  }

  /** A submission that is answered with an error has read READS times and found nothing each time. */
  lemma GaveUpFoundNothing(d: Driver, steps: seq<Step>, s: Tables, i: nat)
    requires Run(d, steps) == Some(s) && i < |s.txs| && s.txs[i].phase.GaveUp?
    ensures Reads(steps, i) == MissedReads(d, steps, i) == 3
  {
    ReadsMissed(d, steps, i);
  }

  // ---- findExistingWithRetry --------------------------------------------------------------

  /** `sees(k)` is what the k-th SELECT sees. */
  method FindExistingWithRetry(sees: nat -> Option<StoredEvent>, attempts: nat) returns (found: Option<StoredEvent>)
    ensures found.None? <==> forall k: nat :: k < attempts ==> sees(k).None?
    ensures found.Some? ==> exists k: nat :: k < attempts && sees(k) == found && forall j: nat :: j < k ==> sees(j).None?
  {
    var i := 0;
    while i < attempts
      invariant i <= attempts
      invariant forall j: nat :: j < i ==> sees(j).None?
    {
      var existing := sees(i);
      if existing.Some? {
        return existing;
      }
      i := i + 1;
    }
    return None;
  }
}
