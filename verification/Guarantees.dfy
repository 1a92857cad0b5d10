/**
 * What the protocol guarantees over whole runs. Every statement is about an arbitrary
 * interleaving `steps` from an empty database, for any number of events, workers and sweeps.
 */
module Guarantees {
  import opened Collections
  import opened DeliveryTypes
  import opened StatusMachine
  import RetryPolicy
  import Rows
  import opened Protocol
  import opened AnyRegime
  import opened LeaseRegime
  import opened SoloSweeps
  import FusedWrites
  import opened Reachability
  import opened Tallies

  // ---- safety of the unguarded writes --------------------------------------------

  predicate IsExecutionWrite(step: CellStep) {
    step.Start? || step.Complete? || step.WriteJob?
  }

  /**
   * Lease regime: whenever an execution writes a row, the stored job is still Delivering under
   * that execution's own attempt number, lock time and worker. This is what the unguarded
   * `transition` relies on, and what checking the literal DELIVERING stands for.
   */
  lemma UnguardedWritesAreSafe(c: Config, g: Regime, t0: int, steps: seq<Step>, s: System, id: EventId, step: CellStep)
    requires g.leased && Reaches(c, g, t0, steps, s)
    requires Enabled(c, g, s, On(id, step)) && IsExecutionWrite(step)
    ensures var cell := s.cells[id];
            && cell.job.status == Delivering
            && cell.job.attemptCount == step.i + 1
            && cell.job.lockedAt == Some(cell.claims[step.i].at)
            && cell.job.lockedBy == Some(cell.claims[step.i].worker)
            && cell.phases[step.i].job == cell.job
  {
    ReachableCell(c, g, t0, steps, s, id);
    WriterOwnsRow(c, g, s.now, s.cells[id], step.i);
  }

  /** Lease regime: every status history is a path in the transition table. */
  lemma HistoriesAreLegal(c: Config, g: Regime, t0: int, steps: seq<Step>, s: System, id: EventId)
    requires g.leased && Reaches(c, g, t0, steps, s) && id in s.cells
    ensures var h := s.cells[id].history;
            && |h| > 0 && h[0] == Pending && h[|h| - 1] == s.cells[id].job.status
            && IsPath(h)
  {
    ReachableCell(c, g, t0, steps, s, id);
  }

  /** A step changes the cell it names, as its cell step says, and no other. */
  lemma OnlyNamedCell(c: Config, g: Regime, s: System, step: Step, id: EventId)
    requires Enabled(c, g, s, step) && id in s.cells
    ensures id in Apply(c, g, s, step).cells
    ensures Apply(c, g, s, step).cells[id] ==
            if step.On? && step.id == id then CellApply(c, g, s.now, s.cells[id], step.step) else s.cells[id]
  {
  }

  lemma NoWriteWhenTerminal(c: Config, g: Regime, now: int, s: Cell, step: CellStep)
    requires g.leased && Basic(c, now, s) && Leased(c, now, s) && CellEnabled(c, g, now, s, step) && IsTerminal(s.job.status)
    ensures !IsExecutionWrite(step)
  {
    if IsExecutionWrite(step) {
      WriterOwnsRow(c, g, now, s, step.i);
    }
  }

  lemma TerminalStep(c: Config, g: Regime, now: int, s: Cell, step: CellStep)
    requires CellEnabled(c, g, now, s, step) && !IsExecutionWrite(step) && IsTerminal(s.job.status)
    requires OpenRowsCurrent(s.job, s.attempts, s.recs)
    ensures var s' := CellApply(c, g, now, s, step); s'.job == s.job && s'.attempts == s.attempts
  {
    if step.CloseAbandoned? {
      var rows := CloseAbandonedRows(s.attempts, Rows.AbandonReason(s.recs[step.r].sweep.seen), now);
      assert rows == s.attempts;
    }
  }

  lemma {:induction false} TerminalRun(c: Config, g: Regime, s: System, more: seq<Step>, id: EventId)
    requires g.leased && SystemInv(c, g, s) && id in s.cells && IsTerminal(s.cells[id].job.status)
    requires Run(c, g, s, more).Some?
    ensures var later := Run(c, g, s, more).value;
            && id in later.cells
            && later.cells[id].job == s.cells[id].job && later.cells[id].attempts == s.cells[id].attempts
  {
    if more != [] {
      var front, last := more[..|more| - 1], more[|more| - 1];
      TerminalRun(c, g, s, front, id);
      RunKeepsInv(c, g, s, front);
      var before := Run(c, g, s, front).value;
      OnlyNamedCell(c, g, before, last, id);
      if last.On? && last.id == id {
        CellOf(c, g, before, id);
        NoWriteWhenTerminal(c, g, before.now, before.cells[id], last.step);
        TerminalStep(c, g, before.now, before.cells[id], last.step);
      }
    }
  }

  /** Lease regime: once terminal, the job row and the whole attempt log never change again. */
  lemma TerminalIsForever(c: Config, g: Regime, t0: int, steps: seq<Step>, s: System, more: seq<Step>, later: System,
                          id: EventId)
    requires g.leased && Reaches(c, g, t0, steps, s) && id in s.cells && IsTerminal(s.cells[id].job.status)
    requires Run(c, g, s, more) == Some(later)
    ensures id in later.cells
    ensures later.cells[id].job == s.cells[id].job && later.cells[id].attempts == s.cells[id].attempts
  {
    Invariant(c, g, t0, steps, s);
    TerminalRun(c, g, s, more, id);
  }

  // ---- bounds ---------------------------------------------------------------------

  /** Lease regime: the budget holds for any number of crashes, although claim never checks it. */
  lemma AttemptsWithinBudget(c: Config, g: Regime, t0: int, steps: seq<Step>, s: System, id: EventId)
    requires g.leased && Reaches(c, g, t0, steps, s) && id in s.cells
    ensures s.cells[id].job.attemptCount <= c.maxAttempts
    ensures IsClaimable(s.cells[id].job.status) ==> s.cells[id].job.attemptCount < c.maxAttempts
  {
    ReachableCell(c, g, t0, steps, s, id);
  }

  /** Any regime: each attempt number reaches the receiver at most once. */
  lemma SendsAtMostAttempts(c: Config, g: Regime, t0: int, steps: seq<Step>, s: System, id: EventId)
    requires Reaches(c, g, t0, steps, s) && id in s.cells
    ensures forall n <- s.cells[id].sent :: s.cells[id].sent[n] == 1 && 1 <= n <= s.cells[id].job.attemptCount
    ensures |s.cells[id].sent| <= s.cells[id].job.attemptCount
  {
    ReachableCell(c, g, t0, steps, s, id);
    BoundedMultiset(s.cells[id].sent, s.cells[id].job.attemptCount);
  }

  /** Any regime, with late writers overwriting any row: retries are still bounded. */
  lemma ZombieBound(c: Config, g: Regime, t0: int, steps: seq<Step>, s: System, id: EventId)
    requires Reaches(c, g, t0, steps, s) && id in s.cells
    ensures s.cells[id].job.attemptCount <= 2 * c.maxAttempts - 1
  {
    ReachableCell(c, g, t0, steps, s, id);
    BoundedSet(s.cells[id].retriedBySettle, c.maxAttempts - 1);
    BoundedSet(s.cells[id].retriedByRelease, c.maxAttempts - 1);
  }

  /** Any regime: a run that requeues no attempt number twice stays within the budget. */
  lemma BudgetUnlessRequeuedTwice(c: Config, g: Regime, t0: int, steps: seq<Step>, s: System, id: EventId)
    requires Reaches(c, g, t0, steps, s) && id in s.cells
    requires s.cells[id].retriedBySettle !! s.cells[id].retriedByRelease
    ensures s.cells[id].job.attemptCount <= c.maxAttempts
  {
    ReachableCell(c, g, t0, steps, s, id);
    var settled, released := s.cells[id].retriedBySettle, s.cells[id].retriedByRelease;
    assert |settled + released| == |settled| + |released|;
    BoundedSet(settled + released, c.maxAttempts - 1);
  }

  /** The sum of the first m configured delays. */
  function TotalDelay(delays: seq<int>, m: nat): int {
    if m == 0 then 0 else TotalDelay(delays, m - 1) + RetryPolicy.DelayAfterAttemptMs(delays, m)
  }

  lemma {:induction false} SpacedClaims(c: Config, s: Cell, m: nat)
    requires Spaced(c, s.job, s.claims) && 1 <= m <= |s.claims|
    ensures s.claims[0].at + TotalDelay(c.delaysMs, m - 1) <= s.claims[m - 1].at
  {
    if m > 1 {
      SpacedClaims(c, s, m - 1);
    }
  }

  /** Lease regime: the m-th claim waits out the first m-1 delays, through failures and crashes alike. */
  lemma BackoffRespected(c: Config, g: Regime, t0: int, steps: seq<Step>, s: System, id: EventId, m: nat)
    requires g.leased && Reaches(c, g, t0, steps, s) && id in s.cells
    requires 1 <= m <= s.cells[id].job.attemptCount
    ensures |s.cells[id].claims| == s.cells[id].job.attemptCount
    ensures s.cells[id].claims[0].at + TotalDelay(c.delaysMs, m - 1) <= s.cells[id].claims[m - 1].at
  {
    ReachableCell(c, g, t0, steps, s, id);
    SpacedClaims(c, s.cells[id], m);
  }

  // ---- verdicts -------------------------------------------------------------------

  /** Lease regime: a terminal status is backed by the attempt numbered attemptCount. */
  lemma VerdictsAreJustified(c: Config, g: Regime, t0: int, steps: seq<Step>, s: System, id: EventId)
    requires g.leased && Reaches(c, g, t0, steps, s) && id in s.cells
    ensures Justified(c, s.cells[id].job, s.cells[id].attempts)
  {
    ReachableCell(c, g, t0, steps, s, id);
  }

  datatype Reason = OnAttempt(n: nat) | RetryLimitReached | PermanentFailure

  /** terminalReason of the dashboard, for an event whose status is terminal. */
  function TerminalReason(c: Config, shown: DeliveryStatus, attemptCount: nat): Reason {
    if shown == Delivered then OnAttempt(attemptCount)
    else if attemptCount >= c.maxAttempts then RetryLimitReached
    else PermanentFailure
  }

  predicate LastAttemptIsPermanent(s: Cell) {
    var n := s.job.attemptCount;
    n in s.attempts && s.attempts[n].httpStatus.Some? && RetryPolicy.IsPermanentStatus(s.attempts[n].httpStatus.value)
  }

  /**
   * Lease regime: when the event row shows a terminal status it is the job's own, and the reason
   * the dashboard derives from attemptCount alone is the truth, except exactly when the receiver
   * rejected the very last allowed attempt for good.
   */
  lemma ClientReasonIsRight(c: Config, g: Regime, t0: int, steps: seq<Step>, s: System, id: EventId)
    requires g.leased && Reaches(c, g, t0, steps, s) && id in s.cells
    requires IsTerminal(s.cells[id].event.status)
    ensures s.cells[id].event.status == s.cells[id].job.status
    ensures var cell := s.cells[id];
            var reason := TerminalReason(c, cell.event.status, cell.job.attemptCount);
            && (reason.OnAttempt? ==> reason.n in cell.attempts && cell.attempts[reason.n].status == Success)
            && (reason.PermanentFailure? ==> LastAttemptIsPermanent(cell))
            && (cell.job.status == DeliveryStatus.Failed ==>
                  ((reason == if LastAttemptIsPermanent(cell) then PermanentFailure else RetryLimitReached)
                   <==> !(cell.job.attemptCount == c.maxAttempts && LastAttemptIsPermanent(cell))))
  {
    ReachableCell(c, g, t0, steps, s, id);
    var cell := s.cells[id];
    var i :| 0 <= i < |cell.history| && cell.history[i] == cell.event.status;
    TerminalIsLast(cell.history, i);
  }

  // ---- the attempt log --------------------------------------------------------------

  /** Any regime: the log holds distinct numbers within 1..attemptCount. Lease regime: an open row is current. */
  lemma AttemptLogNumbers(c: Config, g: Regime, t0: int, steps: seq<Step>, s: System, id: EventId)
    requires Reaches(c, g, t0, steps, s) && id in s.cells
    ensures forall n <- s.cells[id].attempts :: 1 <= n <= s.cells[id].job.attemptCount
    ensures g.leased ==> forall n <- s.cells[id].attempts :: s.cells[id].attempts[n].status == InProgress ==>
              s.cells[id].job.status == Delivering && n == s.cells[id].job.attemptCount
  {
    ReachableCell(c, g, t0, steps, s, id);
  }

  /** Lease regime, no colliding sweeps: every row is written at most once after its INSERT. */
  lemma AttemptLogWrittenOnce(c: Config, g: Regime, t0: int, steps: seq<Step>, s: System, id: EventId)
    requires SweepsCannotCollide(c, g) && Reaches(c, g, t0, steps, s) && id in s.cells
    ensures forall n: nat :: s.cells[id].closings[n] <= 1
    ensures forall n <- s.cells[id].attempts ::
              s.cells[id].closings[n] == 0 <==> s.cells[id].attempts[n].status == InProgress
  {
    Invariant(c, g, t0, steps, s);
  }

  predicate IsClosedRow(s: System, id: EventId, n: nat) {
    id in s.cells && n in s.cells[id].attempts && s.cells[id].attempts[n].status != InProgress
  }

  lemma LiveAttemptsAreOpen(c: Config, g: Regime, s: System, id: EventId)
    requires SweepsCannotCollide(c, g) && SystemInv(c, g, s) && id in s.cells
    ensures LiveOpen(c, s.now, s.cells[id].claims, s.cells[id].attempts, s.cells[id].phases)
  {
    assert CellInv(c, g, s.now, s.cells[id]);
  }

  /** The attempt an execution completes is still open. */
  lemma CompleteFindsOpen(c: Config, g: Regime, now: int, s: Cell, i: nat)
    requires g.leased && CellEnabled(c, g, now, s, Complete(i))
    requires LiveOpen(c, now, s.claims, s.attempts, s.phases)
    ensures s.phases[i].job.attemptCount in s.attempts
    ensures s.attempts[s.phases[i].job.attemptCount].status == InProgress
  {
  }

  lemma ClosedRowStep(c: Config, g: Regime, now: int, s: Cell, step: CellStep, n: nat)
    requires CellEnabled(c, g, now, s, step) && n in s.attempts && s.attempts[n].status != InProgress
    requires step.Complete? ==> s.phases[step.i].job.attemptCount != n
    ensures var s' := CellApply(c, g, now, s, step); n in s'.attempts && s'.attempts[n] == s.attempts[n]
  {
  }

  lemma {:induction false} ClosedRowRun(c: Config, g: Regime, s: System, more: seq<Step>, id: EventId, n: nat)
    requires SweepsCannotCollide(c, g) && SystemInv(c, g, s) && IsClosedRow(s, id, n)
    requires Run(c, g, s, more).Some?
    ensures IsClosedRow(Run(c, g, s, more).value, id, n)
    ensures Run(c, g, s, more).value.cells[id].attempts[n] == s.cells[id].attempts[n]
  {
    if more != [] {
      var front, last := more[..|more| - 1], more[|more| - 1];
      ClosedRowRun(c, g, s, front, id, n);
      RunKeepsInv(c, g, s, front);
      var before := Run(c, g, s, front).value;
      OnlyNamedCell(c, g, before, last, id);
      if last.On? && last.id == id {
        if last.step.Complete? {
          LiveAttemptsAreOpen(c, g, before, id);
          CompleteFindsOpen(c, g, before.now, before.cells[id], last.step.i);
        }
        ClosedRowStep(c, g, before.now, before.cells[id], last.step, n);
      }
    }
  }

  /** Lease regime, no colliding sweeps: a closed attempt row is history and is never rewritten. */
  lemma ClosedRowsAreImmutable(c: Config, g: Regime, t0: int, steps: seq<Step>, s: System, more: seq<Step>,
                               later: System, id: EventId, n: nat)
    requires SweepsCannotCollide(c, g) && Reaches(c, g, t0, steps, s) && IsClosedRow(s, id, n)
    requires Run(c, g, s, more) == Some(later)
    ensures IsClosedRow(later, id, n)
    ensures later.cells[id].attempts[n] == s.cells[id].attempts[n]
  {
    Invariant(c, g, t0, steps, s);
    ClosedRowRun(c, g, s, more, id, n);
  }

  // ---- recovery ---------------------------------------------------------------------

  /** How many sweeps have released this event's row. */
  function ReleasedSweeps(s: Cell): nat {
    CountIf(s.recs, HasReleased)
  }

  /** Where a sweep that has released the row stands: counted by its pass, on the way there, or dead before that. */
  predicate IsCounted(r: Recovery) { r.sweep.Recovered? }

  predicate IsUnderway(r: Recovery) { r.sweep.Released? }

  predicate IsTorn(r: Recovery) { r.sweep.Torn? }

  lemma {:induction false} ReleasedSplit(recs: seq<Recovery>)
    ensures CountIf(recs, HasReleased) == CountIf(recs, IsCounted) + CountIf(recs, IsUnderway) + CountIf(recs, IsTorn)
  {
    if recs != [] {
      ReleasedSplit(recs[..|recs| - 1]);
    }
  }

  /** The claims whose rows were released. */
  function ReleasedNumbers(recs: seq<Recovery>): set<nat> {
    if recs == [] then {}
    else
      var last := recs[|recs| - 1];
      ReleasedNumbers(recs[..|recs| - 1]) + if HasReleased(last) then {last.sweep.number} else {}
  }

  lemma {:induction false} ReleasedNumbersAre(recs: seq<Recovery>)
    ensures forall n <- ReleasedNumbers(recs) :: exists r :: 0 <= r < |recs| && HasReleased(recs[r]) && recs[r].sweep.number == n
  {
    if recs != [] {
      var front := recs[..|recs| - 1];
      ReleasedNumbersAre(front);
      forall n <- ReleasedNumbers(recs) ensures exists r :: 0 <= r < |recs| && HasReleased(recs[r]) && recs[r].sweep.number == n {
        if n in ReleasedNumbers(front) {
          var r :| 0 <= r < |front| && HasReleased(front[r]) && front[r].sweep.number == n;
          assert recs[r] == front[r];
        } else {
          assert HasReleased(recs[|recs| - 1]);
        }
      }
    }
  }

  /** They are different claims, so there are no more of them than claims. */
  lemma {:induction false} ReleasedClaims(status: DeliveryStatus, count: nat, recs: seq<Recovery>)
    requires Releases(status, count, recs)
    ensures |ReleasedNumbers(recs)| == CountIf(recs, HasReleased)
  {
    if recs != [] {
      var front, last := recs[..|recs| - 1], recs[|recs| - 1];
      assert forall r :: 0 <= r < |front| ==> front[r] == recs[r];
      ReleasedClaims(status, count, front);
      ReleasedNumbersAre(front);
      assert HasReleased(last) ==> last.sweep.number !in ReleasedNumbers(front);
    }
  }

  predicate Wins(s: Cell, step: CellStep) {
    step.Release? && step.r < |s.recs| && s.recs[step.r].sweep.Swept? && Rows.CanRelease(s.job, s.recs[step.r].sweep.seen)
  }

  lemma ReleasedSweepsStep(c: Config, g: Regime, now: int, s: Cell, step: CellStep)
    requires CellEnabled(c, g, now, s, step)
    ensures ReleasedSweeps(CellApply(c, g, now, s, step)) == ReleasedSweeps(s) + if Wins(s, step) then 1 else 0
  {
    match step
    case ReadStale(pass, at) => CountIfAppend(s.recs, Recovery(pass, at, Seen(s.job)), HasReleased);
    case CloseAbandoned(r) => CountIfUpdate(s.recs, r, s.recs[r].(sweep := Swept(s.recs[r].sweep.seen)), HasReleased);
    case Release(r) => CountIfUpdate(s.recs, r, ApplyRelease(c, g, s, r).recs[r], HasReleased);
    case WriteReleased(r) => CountIfUpdate(s.recs, r, s.recs[r].(sweep := Recovered(s.recs[r].sweep.number)), HasReleased);
    case CrashRecovery(r) => CountIfUpdate(s.recs, r, s.recs[r].(sweep := AfterDeath(s.recs[r].sweep)), HasReleased);
    case _ =>
  }

  lemma ReleasedSweepsMeasure(c: Config, g: Regime)
    ensures Measures(c, g, ReleasedSweeps, Wins)
  {
    forall now, s, step | CellEnabled(c, g, now, s, step)
      ensures ReleasedSweeps(CellApply(c, g, now, s, step)) == ReleasedSweeps(s) + if Wins(s, step) then 1 else 0
    {
      ReleasedSweepsStep(c, g, now, s, step);
    }
  }

  /**
   * Any regime, any number of concurrent sweeps: each expired claim is released by at most one
   * sweep, and the UPDATEs that released the row of an event are the sweeps that have counted it,
   * those that have not got that far yet, and those that died in between.
   */
  lemma ReleasedAtMostOnce(c: Config, g: Regime, t0: int, steps: seq<Step>, s: System, id: EventId)
    requires Reaches(c, g, t0, steps, s) && id in s.cells
    ensures var recs := s.cells[id].recs;
            forall q, r :: 0 <= q < r < |recs| && HasReleased(recs[q]) && HasReleased(recs[r]) ==>
              recs[q].sweep.number != recs[r].sweep.number
    ensures var recs := s.cells[id].recs;
            CountIf(recs, IsCounted) + CountIf(recs, IsUnderway) + CountIf(recs, IsTorn)
            == Occurrences(c, g, Empty(t0), steps, OfEvent(id, Wins)) <= s.cells[id].job.attemptCount
  {
    ReachableCell(c, g, t0, steps, s, id);
    var cell := s.cells[id];
    ReleasedClaims(cell.job.status, |cell.claims|, cell.recs);
    ReleasedNumbersAre(cell.recs);
    BoundedSet(ReleasedNumbers(cell.recs), |cell.claims|);
    ReleasedSplit(cell.recs);
    ReleasedSweepsMeasure(c, g);
    MeasureIsOccurrences(c, g, t0, steps, id, ReleasedSweeps, Wins);
  }

  // ---- the events.status projection ---------------------------------------------------

  /** Any regime: the event row never says Delivering and never says what the job has not been. */
  lemma ProjectionIsPast(c: Config, g: Regime, t0: int, steps: seq<Step>, s: System, id: EventId)
    requires Reaches(c, g, t0, steps, s) && id in s.cells
    ensures s.cells[id].event.status != Delivering
    ensures s.cells[id].event.status in s.cells[id].history
  {
    ReachableCell(c, g, t0, steps, s, id);
  }

  /** With the two writes as one statement the event row is the job's latest status but Delivering. */
  lemma FusedProjectionIsLatest(c: Config, g: Regime, t0: int, steps: seq<Step>, s: System, id: EventId)
    requires g.fused && Reaches(c, g, t0, steps, s) && id in s.cells
    ensures s.cells[id].event.status == FusedWrites.LastShown(s.cells[id].history)
    ensures s.cells[id].job.status != Delivering ==> s.cells[id].event.status == s.cells[id].job.status
  {
    Invariant(c, g, t0, steps, s);
  }

  /** Any regime: delivery writes nothing but `status` to the event row. */
  lemma {:induction false} StoredEventNeverChanges(c: Config, g: Regime, s: System, more: seq<Step>, later: System, id: EventId)
    requires id in s.cells && Run(c, g, s, more) == Some(later)
    ensures id in later.cells
    ensures later.cells[id].event == s.cells[id].event.(status := later.cells[id].event.status)
  {
    if more != [] {
      var front := more[..|more| - 1];
      StoredEventNeverChanges(c, g, s, front, Run(c, g, s, front).value, id);
    }
  }
}
