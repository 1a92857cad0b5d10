/**
 * What the rows record. Retries are due at the moment they were decided plus the configured delay;
 * attempt rows tell the order of events and what the receiver said; and the row REST returns says
 * of an event what its tables hold, at any moment of any run.
 */
module Records {
  import opened DeliveryTypes
  import opened RetryPolicy
  import Rows
  import opened Protocol
  import opened AnyRegime
  import Reachability
  import Guarantees
  import Dashboard

  // ---- when a retry is due ---------------------------------------------------------------

  /**
   * A settling write delivers the job on a 2xx, fails it on a permanent status or when the budget is
   * spent, and otherwise has it retried.
   */
  lemma SettledStatus(c: Config, g: Regime, now: int, s: Cell, i: nat)
    requires CellEnabled(c, g, now, s, WriteJob(i))
    ensures var n, result, status := s.phases[i].job.attemptCount, s.phases[i].result, ApplyWriteJob(c, g, s, now, i).job.status;
            var answered := result.responded && result.httpStatus.Some?;
            && (status == Delivered <==> answered && Is2xx(result.httpStatus.value))
            && (status == DeliveryStatus.Failed <==>
                  || (answered && IsPermanentStatus(result.httpStatus.value))
                  || (!(answered && Is2xx(result.httpStatus.value)) && n >= c.maxAttempts))
            && (status == Retrying <==>
                  n < c.maxAttempts && (!answered || AsksToTryAgain(result.httpStatus.value)))
  {
    ClassifyMeaning(s.phases[i].result);
  }

  /** A settling write dates the retry from its own moment; a final verdict leaves the date alone. */
  lemma SettledDue(c: Config, g: Regime, now: int, s: Cell, i: nat)
    requires CellEnabled(c, g, now, s, WriteJob(i))
    ensures var after := ApplyWriteJob(c, g, s, now, i).job;
            && after.attemptCount == s.job.attemptCount && after.lockedAt.None? && after.lockedBy.None?
            && after.nextAttemptAt ==
               if after.status == Retrying then now + DelayAfterAttemptMs(c.delaysMs, s.phases[i].job.attemptCount)
               else s.job.nextAttemptAt
  {
  }

  /** A release dates the retry from the clock its pass read first. */
  lemma ReleasedDue(c: Config, g: Regime, s: Cell, r: nat)
    requires r < |s.recs| && s.recs[r].sweep.Swept? && Rows.CanRelease(s.job, s.recs[r].sweep.seen)
    ensures var after := ApplyRelease(c, g, s, r).job;
            && after.attemptCount == s.job.attemptCount && after.lockedAt.None? && after.lockedBy.None?
            && after.nextAttemptAt ==
               if after.status == Retrying then
                 s.recs[r].now + DelayAfterAttemptMs(c.delaysMs, s.recs[r].sweep.seen.attemptCount)
               else s.recs[r].sweep.seen.nextAttemptAt
  {
  }

  /** The step decides a retry of the event: when it counts from, and after which attempt. */
  predicate Decides(s: System, id: EventId, step: Step, decidedAt: int, n: nat) {
    && id in s.cells && step.On? && step.id == id
    && var cell := s.cells[id];
       || (step.step.WriteJob? && step.step.i < |cell.phases| && cell.phases[step.step.i].Closed?
           && decidedAt == s.now && n == cell.phases[step.step.i].job.attemptCount)
       || (Guarantees.Wins(cell, step.step) && decidedAt == cell.recs[step.step.r].now
           && n == cell.recs[step.step.r].sweep.seen.attemptCount)
  }

  /** Between a retry's decision and its claim nothing touches its date. */
  lemma RetryStep(c: Config, g: Regime, now: int, s: Cell, step: CellStep)
    requires CellEnabled(c, g, now, s, step)
    requires !step.WriteJob? && !Guarantees.Wins(s, step)
    ensures var after := CellApply(c, g, now, s, step).job; after == s.job || after.status == Delivering
  {
  }

  /**
   * Any regime: a job that waits for a retry was made to by a settling write or a release of the run,
   * and is due exactly at the moment that write counts from plus the delay after its attempt.
   */
  lemma {:induction false} RetryDueExactly(c: Config, g: Regime, t0: int, steps: seq<Step>, s: System, id: EventId)
    returns (i: nat, before: System, decidedAt: int, n: nat)
    requires Reaches(c, g, t0, steps, s) && id in s.cells && s.cells[id].job.status == Retrying
    ensures i < |steps| && Run(c, g, Empty(t0), steps[..i]) == Some(before) && Decides(before, id, steps[i], decidedAt, n)
    ensures s.cells[id].job.nextAttemptAt == decidedAt + DelayAfterAttemptMs(c.delaysMs, n)
  {
    var front, last := steps[..|steps| - 1], steps[|steps| - 1];
    before := Run(c, g, Empty(t0), front).value;
    OnlyNamedIfThere(c, g, before, last, id);
    i := |steps| - 1;
    if last.On? && last.id == id && last.step.WriteJob? {
      decidedAt, n := before.now, before.cells[id].phases[last.step.i].job.attemptCount;
      SettledDue(c, g, before.now, before.cells[id], last.step.i);
    } else if last.On? && last.id == id && Guarantees.Wins(before.cells[id], last.step) {
      decidedAt, n := before.cells[id].recs[last.step.r].now, before.cells[id].recs[last.step.r].sweep.seen.attemptCount;
      ReleasedDue(c, g, before.cells[id], last.step.r);
    } else {
      if last.On? && last.id == id {
        RetryStep(c, g, before.now, before.cells[id], last.step);
      }
      i, before, decidedAt, n := RetryDueExactly(c, g, t0, front, before, id);
      assert front[..i] == steps[..i];
    }
  }

  /** A step changes the event it names, makes a new one, or leaves the event alone. */
  lemma OnlyNamedIfThere(c: Config, g: Regime, s: System, step: Step, id: EventId)
    requires Enabled(c, g, s, step) && id in Apply(c, g, s, step).cells
    ensures id !in s.cells ==> step.Ingest? && Apply(c, g, s, step).cells[id].job.status == Pending
    ensures id in s.cells && !(step.On? && step.id == id) ==> Apply(c, g, s, step).cells[id] == s.cells[id]
    ensures id in s.cells && step.On? && step.id == id ==>
              Apply(c, g, s, step).cells[id] == CellApply(c, g, s.now, s.cells[id], step.step)
  {
  }

  // ---- what was submitted --------------------------------------------------------------------

  /** Ingestion stores what was submitted, with a job that is due at once. */
  lemma IngestStores(c: Config, g: Regime, s: System, id: EventId, eventType: string, occurredAt: int, payload: string)
    requires Enabled(c, g, s, Ingest(id, eventType, occurredAt, payload))
    ensures var after := Apply(c, g, s, Ingest(id, eventType, occurredAt, payload));
            && id in after.cells
            && after.cells[id].event == Event(eventType, occurredAt, payload, Pending)
            && after.cells[id].job == Job(Pending, 0, s.now, None, None)
            && after.cells[id].attempts == map[]
  {
  }

  /** Any regime: the stored content of an event is the content of its submission. */
  lemma {:induction false} StoredIsSubmitted(c: Config, g: Regime, t0: int, steps: seq<Step>, s: System, id: EventId) returns (i: nat)
    requires Reaches(c, g, t0, steps, s) && id in s.cells
    ensures i < |steps| && steps[i].Ingest? && steps[i].id == id
    ensures s.cells[id].event == Event(steps[i].eventType, steps[i].occurredAt, steps[i].payload, s.cells[id].event.status)
  {
    var front, last := steps[..|steps| - 1], steps[|steps| - 1];
    var before := Run(c, g, Empty(t0), front).value;
    i := |steps| - 1;
    if id in before.cells {
      i := StoredIsSubmitted(c, g, t0, front, before, id);
    }
  }

  // ---- the attempt rows -------------------------------------------------------------------------

  /** The attempt was closed by its worker with this answer at `now`. */
  predicate TellsAnswer(was: Attempt, row: Attempt, result: WebhookResult, now: int) {
    && row.startedAt == was.startedAt && row.completedAt == Some(now) && row.httpStatus == result.httpStatus
    && (if result.responded && result.httpStatus.Some? && Is2xx(result.httpStatus.value) then
          row.status == Success && row.errorType.None? && row.errorMessage.None?
        else
          && row.status == AttemptStatus.Failed
          && row.errorType == (if result.errorType.Some? then result.errorType else Some(Unknown))
          && TellsText(row.errorMessage, result.errorMessage))
  }

  /** The text as sent, or its first 1000 characters and three dots; an empty one is none. */
  predicate TellsText(stored: Option<string>, sent: Option<string>) {
    if sent.None? || |sent.value| == 0 then stored.None?
    else
      && stored.Some?
      && if |sent.value| <= 1000 then stored == sent
         else |stored.value| == 1003 && stored.value[..1000] == sent.value[..1000] && stored.value[1000..] == "..."
  }

  lemma AnswerIsRecorded(c: Config, g: Regime, now: int, s: Cell, i: nat)
    requires CellEnabled(c, g, now, s, Complete(i)) && s.phases[i].job.attemptCount in s.attempts
    ensures var n := s.phases[i].job.attemptCount;
            var after := ApplyComplete(s, now, i);
            && after.attempts.Keys == s.attempts.Keys
            && TellsAnswer(s.attempts[n], after.attempts[n], s.phases[i].result, now)
            && (forall k <- s.attempts :: k != n ==> after.attempts[k] == s.attempts[k])
  {
    ClassifyMeaning(s.phases[i].result);
  }

  /** A row is dated after the claim of its number and before its completion, and says only what is known by then. */
  ghost predicate IsDated(now: int, claims: seq<ClaimRecord>, n: nat, row: Attempt) {
    && 1 <= n <= |claims| && claims[n - 1].at <= row.startedAt <= now
    && (row.status == InProgress <==> row.completedAt.None?)
    && (row.completedAt.Some? ==> row.startedAt <= row.completedAt.value <= now)
    && (row.status == InProgress ==> row.httpStatus.None? && row.errorType.None? && row.errorMessage.None?)
    && (row.status == Success ==> row.errorType.None? && row.errorMessage.None? && row.httpStatus.Some? && Is2xx(row.httpStatus.value))
    && (row.status == AttemptStatus.Failed ==> row.errorType.Some?)
  }

  ghost predicate AllDated(now: int, claims: seq<ClaimRecord>, attempts: map<nat, Attempt>) {
    forall n <- attempts :: IsDated(now, claims, n, attempts[n])
  }

  /** Whoever has an answer, or waits for one, has sent the request of its number. */
  ghost predicate AllSent(phases: seq<Phase>, sent: multiset<nat>) {
    forall i :: 0 <= i < |phases| && (phases[i].Sent? || phases[i].Answered? || phases[i].Closed?) ==>
      phases[i].job.attemptCount in sent
  }

  ghost predicate Told(now: int, s: Cell) {
    AllDated(now, s.claims, s.attempts) && AllSent(s.phases, s.sent)
  }

  lemma ToldComplete(c: Config, g: Regime, now: int, s: Cell, i: nat)
    requires Told(now, s) && CellEnabled(c, g, now, s, Complete(i))
    ensures Told(now, ApplyComplete(s, now, i))
  {
    ClassifyMeaning(s.phases[i].result);
  }

  lemma ToldStart(c: Config, g: Regime, now: int, s: Cell, i: nat)
    requires Told(now, s) && CellEnabled(c, g, now, s, Start(i))
    requires Claims(now, s.job, s.claims, s.attempts.Keys) && Numbers(|s.claims|, s.phases, s.attempts.Keys)
    ensures Told(now, ApplyStart(s, now, i))
  {
  }

  lemma ToldCloseAbandoned(c: Config, g: Regime, now: int, s: Cell, r: nat)
    requires Told(now, s) && CellEnabled(c, g, now, s, CloseAbandoned(r))
    ensures Told(now, ApplyCloseAbandoned(s, now, r))
  {
  }

  lemma ToldOther(c: Config, g: Regime, now: int, s: Cell, step: CellStep)
    requires Told(now, s) && CellEnabled(c, g, now, s, step)
    requires !step.Complete? && !step.Start? && !step.CloseAbandoned?
    ensures Told(now, CellApply(c, g, now, s, step))
  {
  }

  lemma ToldStep(c: Config, g: Regime, now: int, s: Cell, step: CellStep)
    requires Told(now, s) && Basic(c, now, s) && CellEnabled(c, g, now, s, step)
    ensures Told(now, CellApply(c, g, now, s, step))
  {
    if step.Complete? {
      ToldComplete(c, g, now, s, step.i);
    } else if step.Start? {
      ToldStart(c, g, now, s, step.i);
    } else if step.CloseAbandoned? {
      ToldCloseAbandoned(c, g, now, s, step.r);
    } else {
      ToldOther(c, g, now, s, step);
    }
  }

  lemma {:induction false} ToldRun(c: Config, g: Regime, t0: int, steps: seq<Step>, s: System, id: EventId)
    requires Reaches(c, g, t0, steps, s) && id in s.cells
    ensures Told(s.now, s.cells[id])
  {
    if steps != [] {
      var front, last := steps[..|steps| - 1], steps[|steps| - 1];
      var before := Run(c, g, Empty(t0), front).value;
      if id in before.cells {
        ToldRun(c, g, t0, front, before, id);
        if last.On? && last.id == id {
          Reachability.ReachableCell(c, g, t0, front, before, id);
          ToldStep(c, g, before.now, before.cells[id], last.step);
        }
      }
    }
  }

  /**
   * Any regime: every attempt row was opened no earlier than the claim of its number and closed no
   * earlier than it was opened; it is open exactly while it has no completion, and then says nothing of
   * an outcome; a success has a 2xx and no error, and a failure has its kind. Whoever waits for an
   * answer or holds one has sent the request of its number.
   */
  lemma AttemptsTellTheStory(c: Config, g: Regime, t0: int, steps: seq<Step>, s: System, id: EventId)
    requires Reaches(c, g, t0, steps, s) && id in s.cells
    ensures AllDated(s.now, s.cells[id].claims, s.cells[id].attempts)
    ensures AllSent(s.cells[id].phases, s.cells[id].sent)
  {
    ToldRun(c, g, t0, steps, s, id);
  }

  // ---- the row REST returns -------------------------------------------------------------------------

  /** `last` is the attempt with the highest number, if there is any. */
  ghost predicate IsHighest(attempts: map<nat, Attempt>, last: Option<Attempt>) {
    match last
    case None => attempts == map[]
    case Some(attempt) => exists n: nat :: n in attempts && attempts[n] == attempt && forall m <- attempts :: m <= n
  }

  /**
   * Any regime, at any moment, attempts in flight included: the row shows an error exactly when the
   * highest attempt is closed as FAILED, and then that attempt's; it shows a next attempt exactly while
   * the job is PENDING or RETRYING, and then the job's own time; the rest is the event's and the job's.
   */
  lemma RestRowIsRight(c: Config, g: Regime, t0: int, steps: seq<Step>, s: System, id: EventId, last: Option<Attempt>)
    requires Reaches(c, g, t0, steps, s) && id in s.cells && IsHighest(s.cells[id].attempts, last)
    ensures var cell := s.cells[id];
            var row := Dashboard.ToSummary(id, cell.event, Some(cell.job), last);
            && row.id == id && row.eventType == cell.event.eventType && row.status == cell.event.status
            && row.attemptCount == cell.job.attemptCount
            && (row.lastError.Some? <==> last.Some? && last.value.status == AttemptStatus.Failed && last.value.completedAt.Some?)
            && (row.lastError.Some? ==>
                  && row.lastError.value.httpStatus == last.value.httpStatus
                  && row.lastError.value.errorType == last.value.errorType
                  && row.lastError.value.message == last.value.errorMessage)
            && (row.nextAttemptAt.Some? <==> cell.job.status == Pending || cell.job.status == Retrying)
            && (row.nextAttemptAt.Some? ==> row.nextAttemptAt.value == cell.job.nextAttemptAt)
  {
    ToldRun(c, g, t0, steps, s, id);
    if last.Some? {
      var n: nat :| n in s.cells[id].attempts && s.cells[id].attempts[n] == last.value;
      assert IsDated(s.now, s.cells[id].claims, n, last.value);
    }
  }

  /** Without a job and without attempts the row shows zero attempts, no error and no next attempt. */
  lemma RestRowAlone(id: EventId, event: Event)
    ensures var row := Dashboard.ToSummary(id, event, None, None);
            && row.id == id && row.eventType == event.eventType && row.status == event.status
            && row.attemptCount == 0 && row.nextAttemptAt.None? && row.lastError.None?
  {
  }

  // ---- the clock of a pass ----------------------------------------------------------------------------

  /** The sweep moved on, if at all, under the same pass and clock, and with the row it had read. */
  predicate MovesOn(before: Recovery, after: Recovery) {
    && after.now == before.now && after.pass == before.pass
    && (MidSweep(after) ==> MidSweep(before) && after.sweep.seen == before.sweep.seen)
  }

  /** A step of a sweep moves that sweep on and no other. */
  lemma OneSweepMoves(c: Config, g: Regime, now: int, s: Cell, step: CellStep)
    requires CellEnabled(c, g, now, s, step)
    requires step.CloseAbandoned? || step.Release? || step.WriteReleased? || step.CrashRecovery?
    ensures var after := CellApply(c, g, now, s, step).recs;
            step.r < |s.recs| && after == s.recs[step.r := after[step.r]] && MovesOn(s.recs[step.r], after[step.r])
  {
  }

  /** A sweep carries the pass and the clock it was read with, and the row as it was then, to its end. */
  lemma SweepKeepsItsClock(c: Config, g: Regime, now: int, s: Cell, step: CellStep)
    requires CellEnabled(c, g, now, s, step)
    ensures var after := CellApply(c, g, now, s, step).recs;
            && |after| == |s.recs| + (if step.ReadStale? then 1 else 0)
            && (step.ReadStale? ==> after[|s.recs|] == Recovery(step.pass, step.at, Seen(s.job)))
            && forall r :: 0 <= r < |s.recs| ==> MovesOn(s.recs[r], after[r])
  {
    if step.CloseAbandoned? || step.Release? || step.WriteReleased? || step.CrashRecovery? {
      OneSweepMoves(c, g, now, s, step);
    }
  }
}
