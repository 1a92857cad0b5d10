/** Nothing is stranded, and everything ends: what can happen next, and for how long. */
module Progress {
  import Collections
  import opened DeliveryTypes
  import StatusMachine
  import opened Rows
  import opened Protocol
  import LeaseRegime
  import Reachability
  import opened Tallies
  import opened Guarantees

  // ---- nothing is stranded ------------------------------------------------------

  function Later(a: int, b: int): int { if a < b then b else a }

  /** Any regime: the lock columns are set exactly while the row is Delivering. */
  lemma LocksMatchStatus(c: Config, g: Regime, t0: int, steps: seq<Step>, s: System, id: EventId)
    requires Reaches(c, g, t0, steps, s) && id in s.cells
    ensures s.cells[id].job.lockedAt.Some? <==> s.cells[id].job.status == Delivering
    ensures s.cells[id].job.lockedBy.Some? <==> s.cells[id].job.status == Delivering
  {
    Reachability.ReachableCell(c, g, t0, steps, s, id);
  }

  /** Reading a stale row, closing its attempts and releasing it, with nothing in between. */
  function SweepSteps(s: Cell, at: int): seq<CellStep> {
    [ReadStale(0, at), CloseAbandoned(|s.recs|), Release(|s.recs|)]
  }

  /** Cell steps at one moment, or None when some step is not enabled where it stands. */
  function CellRun(c: Config, g: Regime, now: int, s: Cell, steps: seq<CellStep>): Option<Cell>
    decreases |steps|
  {
    if steps == [] then Some(s)
    else if !CellEnabled(c, g, now, s, steps[0]) then None
    else CellRun(c, g, now, CellApply(c, g, now, s, steps[0]), steps[1..])
  }

  lemma CellRunCons(c: Config, g: Regime, now: int, s: Cell, step: CellStep, rest: seq<CellStep>)
    requires CellEnabled(c, g, now, s, step)
    ensures CellRun(c, g, now, s, [step] + rest) == CellRun(c, g, now, CellApply(c, g, now, s, step), rest)
  {
    assert ([step] + rest)[1..] == rest;
  }

  lemma {:induction false} CellRunAppend(c: Config, g: Regime, now: int, s: Cell, first: seq<CellStep>, second: seq<CellStep>)
    requires CellRun(c, g, now, s, first).Some?
    ensures CellRun(c, g, now, s, first + second) == CellRun(c, g, now, CellRun(c, g, now, s, first).value, second)
    decreases |first|
  {
    if first == [] {
      assert first + second == second;
    } else {
      var rest := first[1..];
      CellRunAppend(c, g, now, CellApply(c, g, now, s, first[0]), rest, second);
      CellRunCons(c, g, now, s, first[0], rest + second);
      assert first + second == [first[0]] + (rest + second);
    }
  }

  /** What SweepSteps leaves: the attempts closed, the row released, and the event row still to be written. */
  function SweptAlone(c: Config, g: Regime, now: int, at: int, s: Cell): Cell {
    var next := ReleaseTarget(c, s.job, at);
    var n := s.job.attemptCount;
    s.(job := ReleaseRow(s.job, next),
       event := if g.fused then s.event.(status := next.0) else s.event,
       attempts := CloseAbandonedRows(s.attempts, AbandonReason(s.job), now),
       recs := s.recs + [Recovery(0, at, if g.fused then Recovered(n) else Released(n, next.0))],
       closings := s.closings + multiset(OpenRows(s.attempts)),
       history := s.history + [next.0],
       retriedByRelease := s.retriedByRelease + (if next.0 == Retrying then {n} else {}),
       progress := s.progress + 1)
  }

  lemma SweepAlone(c: Config, g: Regime, now: int, at: int, s: Cell)
    requires s.job.status == Delivering && s.job.lockedAt.Some? && s.job.lockedAt.value + c.leaseMs < at <= now
    requires g.solo ==> forall r <- s.recs :: !MidSweep(r)
    ensures CellRun(c, g, now, s, SweepSteps(s, at)) == Some(SweptAlone(c, g, now, at, s))
  {
    var r := |s.recs|;
    var s1 := s.(recs := s.recs + [Recovery(0, at, Seen(s.job))]);
    var s2 := ApplyCloseAbandoned(s1, now, r);
    ReleaseLast(c, g, now, at, s, s2);
    CellRunCons(c, g, now, s2, Release(r), []);
    CellRunCons(c, g, now, s1, CloseAbandoned(r), [Release(r)]);
    CellRunCons(c, g, now, s, ReadStale(0, at), [CloseAbandoned(r), Release(r)]);
    assert SweepSteps(s, at) == [ReadStale(0, at)] + ([CloseAbandoned(r)] + ([Release(r)] + []));
  }

  lemma ReleaseLast(c: Config, g: Regime, now: int, at: int, s: Cell, swept: Cell)
    requires CanRelease(s.job, s.job)
    requires swept == s.(recs := s.recs + [Recovery(0, at, Swept(s.job))],
                         attempts := CloseAbandonedRows(s.attempts, AbandonReason(s.job), now),
                         closings := s.closings + multiset(OpenRows(s.attempts)))
    ensures ApplyRelease(c, g, swept, |s.recs|) == SweptAlone(c, g, now, at, s)
  {
    assert ApplyRelease(c, g, swept, |s.recs|).recs == SweptAlone(c, g, now, at, s).recs;
  }

  /**
   * Any regime: whatever has happened to the workers, including an exception that escaped an
   * execution, a job that is not terminal is either claimable from its due time on, or recoverable
   * by one uninterrupted sweep, however long after its pass read the clock, once that clock `at` has
   * passed lockedAt + lease, and then ends Failed or claimable.
   */
  lemma NothingIsStranded(c: Config, g: Regime, t0: int, steps: seq<Step>, s: System, id: EventId, now: int, at: int,
                           worker: string)
    requires Reaches(c, g, t0, steps, s) && id in s.cells && !StatusMachine.IsTerminal(s.cells[id].job.status)
    requires s.now <= now && at <= now
    requires g.solo ==> forall r <- s.cells[id].recs :: !MidSweep(r)
    ensures var cell := s.cells[id];
            || (StatusMachine.IsClaimable(cell.job.status)
                && (cell.job.nextAttemptAt <= now ==> CellEnabled(c, g, now, cell, Claim(worker))))
            || (cell.job.status == Delivering && cell.job.lockedAt.Some?
                && (cell.job.lockedAt.value + c.leaseMs < at ==>
                      && CellRun(c, g, now, cell, SweepSteps(cell, at)).Some?
                      && var swept := CellRun(c, g, now, cell, SweepSteps(cell, at)).value;
                         && swept.job.status in {Retrying, DeliveryStatus.Failed}
                         && swept.job.attemptCount == cell.job.attemptCount))
  {
    LocksMatchStatus(c, g, t0, steps, s, id);
    var cell := s.cells[id];
    if cell.job.status == Delivering && cell.job.lockedAt.value + c.leaseMs < at {
      SweepAlone(c, g, now, at, cell);
    }
  }

  // ---- everything ends ------------------------------------------------------------

  /** The steps that move a job along: a claim, a settling write, a release that matched its row. */
  predicate MovesJob(s: Cell, step: CellStep) {
    step.Claim? || step.WriteJob? || Wins(s, step)
  }

  /** Lease regime: each such step uses up some of what remains; every other step uses none. */
  lemma RemainingDecreases(c: Config, g: Regime, t0: int, steps: seq<Step>, s: System, id: EventId, step: CellStep)
    requires g.leased && Reaches(c, g, t0, steps, s) && Enabled(c, g, s, On(id, step))
    ensures var after := CellApply(c, g, s.now, s.cells[id], step);
            if MovesJob(s.cells[id], step) then LeaseRegime.Remaining(c, after.job) < LeaseRegime.Remaining(c, s.cells[id].job)
            else after.job == s.cells[id].job
  {
    var cell := s.cells[id];
    AttemptsWithinBudget(c, g, t0, steps, s, id);
    if step.WriteJob? {
      UnguardedWritesAreSafe(c, g, t0, steps, s, id, step);
    }
  }

  /** Nothing remains exactly when the job is terminal. */
  lemma RemainingZero(c: Config, g: Regime, t0: int, steps: seq<Step>, s: System, id: EventId)
    requires g.leased && Reaches(c, g, t0, steps, s) && id in s.cells
    ensures LeaseRegime.Remaining(c, s.cells[id].job) == 0 <==> StatusMachine.IsTerminal(s.cells[id].job.status)
  {
    AttemptsWithinBudget(c, g, t0, steps, s, id);
  }

  function ProgressOf(s: Cell): nat {
    s.progress
  }

  lemma ProgressMeasure(c: Config, g: Regime)
    ensures Measures(c, g, ProgressOf, MovesJob)
  {
    forall now, s, step | CellEnabled(c, g, now, s, step)
      ensures ProgressOf(CellApply(c, g, now, s, step)) == ProgressOf(s) + if MovesJob(s, step) then 1 else 0
    {
      ProgressCountsMoves(c, g, now, s, step);
    }
  }

  lemma ProgressCountsMoves(c: Config, g: Regime, now: int, s: Cell, step: CellStep)
    requires CellEnabled(c, g, now, s, step)
    ensures CellApply(c, g, now, s, step).progress == s.progress + if MovesJob(s, step) then 1 else 0
  {
  }

  /**
   * Lease regime: N accepted events are over after at most 2 * N * maxAttempts claims, settling
   * writes and releases, whatever the receiver answers and however often processes crash.
   */
  lemma EverythingEnds(c: Config, g: Regime, t0: int, steps: seq<Step>, s: System)
    requires g.leased && Reaches(c, g, t0, steps, s)
    ensures Occurrences(c, g, Empty(t0), steps, Of(MovesJob)) <= 2 * c.maxAttempts * |s.accepted|
  {
    ProgressMeasure(c, g);
    TotalIsOccurrences(c, g, t0, steps, ProgressOf, MovesJob);
    forall id <- s.accepted ensures id in s.cells && s.cells[id].progress <= 2 * c.maxAttempts {
      Reachability.ReachableCell(c, g, t0, steps, s, id);
    }
    Collections.SumBound(s.accepted, Values(s.cells, ProgressOf), 2 * c.maxAttempts);
  }
}
