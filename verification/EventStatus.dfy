/**
 * When events.status is in step with the job. The job row and the event row are written by two
 * statements; the row is in step whenever no event write is outstanding, exactly if nobody dies
 * between its two writes and no second writer comes in between them.
 */
module EventStatus {
  import opened DeliveryTypes
  import StatusMachine
  import Rows
  import opened Protocol
  import AnyRegime
  import LeaseRegime
  import opened FusedWrites
  import Reachability
  import opened Guarantees
  import opened Progress
  import opened RunBuilder
  import opened LateWrites

  /** No event write is outstanding: whoever wrote the job has written the event, or has died. */
  predicate AtRest(s: Cell) {
    && (forall i :: 0 <= i < |s.phases| ==> !s.phases[i].Written?)
    && (forall r :: 0 <= r < |s.recs| ==> !s.recs[r].sweep.Released?)
  }

  /**
   * What a run is assumed to keep to.
   *  finishes: nobody dies between its job write and its event write.
   *  ordered:  no job write of an event falls between another job write and its event write.
   */
  datatype Discipline = Discipline(finishes: bool, ordered: bool)

  /** The process that takes the step dies with its event write outstanding. */
  predicate TearsWrites(s: Cell, step: CellStep) {
    || (step.Crash? && step.i < |s.phases| && s.phases[step.i].Written?)
    || (step.CrashRecovery? && step.r < |s.recs| && s.recs[step.r].sweep.Released?)
  }

  predicate WritesJob(s: Cell, step: CellStep) {
    step.WriteJob? || Wins(s, step)
  }

  predicate Obeys(d: Discipline, s: Cell, step: CellStep) {
    && (d.finishes ==> !TearsWrites(s, step))
    && (d.ordered && WritesJob(s, step) ==> AtRest(s))
  }

  /** The run is enabled, and each of its steps obeys the discipline where it stands. */
  predicate RunObeys(c: Config, g: Regime, d: Discipline, s: System, steps: seq<Step>) {
    steps == [] ||
    (var front, last := steps[..|steps| - 1], steps[|steps| - 1];
     && Run(c, g, s, front).Some?
     && RunObeys(c, g, d, s, front)
     && var before := Run(c, g, s, front).value;
        (last.On? && last.id in before.cells ==> Obeys(d, before.cells[last.id], last.step)))
  }

  ghost predicate EventInStep(c: Config, g: Regime, d: Discipline) {
    forall t0, steps, s, id ::
      Reaches(c, g, t0, steps, s) && RunObeys(c, g, d, Empty(t0), steps) && id in s.cells && AtRest(s.cells[id]) ==>
        s.cells[id].event.status == LastShown(s.cells[id].history)
  }

  // ---- why the discipline is enough -------------------------------------------------------

  /** Every outstanding event write carries the job's latest status, and without one the row shows it. */
  ghost predicate InStep(s: Cell) {
    && (forall i :: 0 <= i < |s.phases| && s.phases[i].Written? ==> s.phases[i].status == LastShown(s.history))
    && (forall r :: 0 <= r < |s.recs| && s.recs[r].sweep.Released? ==> s.recs[r].sweep.next == LastShown(s.history))
    && (AtRest(s) ==> s.event.status == LastShown(s.history))
  }

  lemma InStepWriteJob(c: Config, g: Regime, now: int, s: Cell, i: nat)
    requires !g.fused && InStep(s) && AtRest(s) && CellEnabled(c, g, now, s, WriteJob(i))
    ensures InStep(ApplyWriteJob(c, g, s, now, i))
  {
    var s' := ApplyWriteJob(c, g, s, now, i);
    LastShownAppend(s.history, Rows.Verdict(c, s.phases[i].job.attemptCount, s.phases[i].result));
    assert s'.phases[i].Written?;
  }

  lemma InStepRelease(c: Config, g: Regime, now: int, s: Cell, r: nat)
    requires !g.fused && InStep(s) && CellEnabled(c, g, now, s, Release(r)) && (Wins(s, Release(r)) ==> AtRest(s))
    ensures InStep(ApplyRelease(c, g, s, r))
  {
    var s' := ApplyRelease(c, g, s, r);
    LastShownAppend(s.history, Rows.ReleaseTarget(c, s.recs[r].sweep.seen, s.recs[r].now).0);
    if Wins(s, Release(r)) {
      assert s'.recs[r].sweep.Released?;
    } else {
      RestAfterSweep(s, r, s'.recs[r]);
    }
  }

  /** Moving an execution that has no event write outstanding, to where it has none. */
  lemma InStepMove(s: Cell, i: nat, p: Phase)
    requires InStep(s) && i < |s.phases| && !s.phases[i].Written? && !p.Written?
    ensures InStep(s.(phases := s.phases[i := p]))
  {
    var s' := s.(phases := s.phases[i := p]);
    if AtRest(s') {
      assert forall j :: 0 <= j < |s.phases| ==> s.phases[j] == (if j == i then s.phases[i] else s'.phases[j]);
    }
  }

  lemma RestAfterSweep(s: Cell, r: nat, rec: Recovery)
    requires r < |s.recs| && !s.recs[r].sweep.Released? && !rec.sweep.Released?
    ensures AtRest(s.(recs := s.recs[r := rec])) ==> AtRest(s)
  {
    var s' := s.(recs := s.recs[r := rec]);
    assert forall q :: 0 <= q < |s.recs| ==> s.recs[q] == (if q == r then s.recs[r] else s'.recs[q]);
  }

  lemma InStepSweep(s: Cell, r: nat, rec: Recovery)
    requires InStep(s) && r < |s.recs| && !s.recs[r].sweep.Released? && !rec.sweep.Released?
    ensures InStep(s.(recs := s.recs[r := rec]))
  {
    RestAfterSweep(s, r, rec);
  }

  /** A new claim or a new sweep brings no event write. */
  lemma InStepGrow(s: Cell, s': Cell)
    requires InStep(s) && s'.event == s.event && LastShown(s'.history) == LastShown(s.history)
    requires |s.phases| <= |s'.phases| && forall i :: 0 <= i < |s'.phases| && s'.phases[i].Written? ==> i < |s.phases|
    requires forall i :: 0 <= i < |s.phases| ==> s'.phases[i] == s.phases[i]
    requires |s.recs| <= |s'.recs| && forall r :: 0 <= r < |s'.recs| && s'.recs[r].sweep.Released? ==> r < |s.recs|
    requires forall r :: 0 <= r < |s.recs| ==> s'.recs[r] == s.recs[r]
    ensures InStep(s')
  {
    if AtRest(s') {
      assert forall i :: 0 <= i < |s.phases| ==> !s'.phases[i].Written?;
      assert forall r :: 0 <= r < |s.recs| ==> !s'.recs[r].sweep.Released?;
    }
  }

  /** A step of an execution, other than writing the job. */
  lemma InStepExecution(c: Config, g: Regime, now: int, s: Cell, step: CellStep)
    requires InStep(s) && CellEnabled(c, g, now, s, step) && !TearsWrites(s, step)
    requires step.Load? || step.Start? || step.Send? || step.Answer? || step.Complete? || step.WriteEvent? || step.Crash?
    ensures InStep(CellApply(c, g, now, s, step))
  {
    var s' := CellApply(c, g, now, s, step);
    if !step.WriteEvent? {
      InStepMove(s.(attempts := s'.attempts, sent := s'.sent, answers := s'.answers, closings := s'.closings), step.i, s'.phases[step.i]);
    }
  }

  lemma InStepQuiet(c: Config, g: Regime, now: int, s: Cell, step: CellStep)
    requires InStep(s) && CellEnabled(c, g, now, s, step)
    requires !step.WriteJob? && !step.Release? && !TearsWrites(s, step)
    ensures InStep(CellApply(c, g, now, s, step))
  {
    var s' := CellApply(c, g, now, s, step);
    if step.Claim? {
      LastShownAppend(s.history, Delivering);
      InStepGrow(s, s');
    } else if step.ReadStale? {
      InStepGrow(s, s');
    } else if step.CloseAbandoned? || step.CrashRecovery? {
      InStepSweep(s.(attempts := s'.attempts, closings := s'.closings), step.r, s'.recs[step.r]);
    } else if !step.WriteReleased? {
      InStepExecution(c, g, now, s, step);
    }
  }

  lemma InStepStep(c: Config, g: Regime, now: int, s: Cell, step: CellStep)
    requires !g.fused && InStep(s) && CellEnabled(c, g, now, s, step) && Obeys(Discipline(true, true), s, step)
    ensures InStep(CellApply(c, g, now, s, step))
  {
    if step.WriteJob? {
      InStepWriteJob(c, g, now, s, step.i);
    } else if step.Release? {
      InStepRelease(c, g, now, s, step.r);
    } else {
      InStepQuiet(c, g, now, s, step);
    }
  }

  // ---- one attempt under the lease writes the job once ---------------------------------------

  /** An outstanding event write means that the job is over. */
  ghost predicate OverWhenOutstanding(s: Cell) {
    !AtRest(s) ==> StatusMachine.IsTerminal(s.job.status)
  }

  /** Whoever writes a job row under the lease finds it Delivering. */
  lemma WriterFindsDelivering(c: Config, g: Regime, now: int, s: Cell, step: CellStep)
    requires g.leased && AnyRegime.Basic(c, now, s) && LeaseRegime.Leased(c, now, s)
    requires CellEnabled(c, g, now, s, step) && WritesJob(s, step)
    ensures s.job.status == Delivering
    ensures c.maxAttempts == 1 ==> StatusMachine.IsTerminal(CellApply(c, g, now, s, step).job.status)
  {
    if step.WriteJob? {
      LeaseRegime.WriterOwnsRow(c, g, now, s, step.i);
    } else {
      AnyRegime.SeenIsCurrent(c, now, s, step.r);
    }
  }

  lemma OverStep(c: Config, g: Regime, now: int, s: Cell, step: CellStep)
    requires CellEnabled(c, g, now, s, step) && !WritesJob(s, step) && OverWhenOutstanding(s)
    ensures OverWhenOutstanding(CellApply(c, g, now, s, step))
  {
    if AtRest(s) {
      NothingNew(c, g, now, s, step);
    }
  }

  /** Only a job write brings an event write. */
  lemma NothingNew(c: Config, g: Regime, now: int, s: Cell, step: CellStep)
    requires CellEnabled(c, g, now, s, step) && !WritesJob(s, step) && AtRest(s)
    ensures AtRest(CellApply(c, g, now, s, step))
  {
  }

  // ---- the two together -------------------------------------------------------------------------

  predicate KeepsInStep(c: Config, g: Regime, d: Discipline) {
    d.finishes && (d.ordered || (g.leased && c.maxAttempts == 1))
  }

  lemma InStepCell(c: Config, g: Regime, d: Discipline, now: int, s: Cell, step: CellStep)
    requires !g.fused && KeepsInStep(c, g, d) && CellEnabled(c, g, now, s, step) && Obeys(d, s, step)
    requires AnyRegime.Basic(c, now, s) && (g.leased ==> LeaseRegime.Leased(c, now, s))
    requires InStep(s) && (!d.ordered ==> OverWhenOutstanding(s))
    ensures var s' := CellApply(c, g, now, s, step);
            InStep(s') && (!d.ordered ==> OverWhenOutstanding(s'))
  {
    if !d.ordered {
      if WritesJob(s, step) {
        WriterFindsDelivering(c, g, now, s, step);
      } else {
        OverStep(c, g, now, s, step);
      }
    }
    InStepStep(c, g, now, s, step);
  }

  lemma {:induction false} InStepRun(c: Config, g: Regime, d: Discipline, t0: int, steps: seq<Step>, s: System, id: EventId)
    requires !g.fused && KeepsInStep(c, g, d) && id in s.cells
    requires Reaches(c, g, t0, steps, s) && RunObeys(c, g, d, Empty(t0), steps)
    ensures InStep(s.cells[id]) && (!d.ordered ==> OverWhenOutstanding(s.cells[id]))
  {
    if steps != [] {
      var front, last := steps[..|steps| - 1], steps[|steps| - 1];
      var before := Run(c, g, Empty(t0), front).value;
      if id in before.cells {
        InStepRun(c, g, d, t0, front, before, id);
        if last.On? && last.id == id {
          Reachability.ReachableCell(c, g, t0, front, before, id);
          InStepCell(c, g, d, before.now, before.cells[id], last.step);
        }
      }
    }
  }

  // ---- what fails without it -----------------------------------------------------------------------

  /** A step that the discipline does not allow everywhere. */
  predicate Restricted(d: Discipline, step: CellStep) {
    || (d.finishes && Dies(step))
    || (d.ordered && (step.WriteJob? || step.Release?))
  }

  lemma {:induction false} UnrestrictedObeys(c: Config, g: Regime, d: Discipline, s: System, steps: seq<Step>)
    requires Run(c, g, s, steps).Some?
    requires forall i :: 0 <= i < |steps| && steps[i].On? ==> !Restricted(d, steps[i].step)
    ensures RunObeys(c, g, d, s, steps)
  {
    if steps != [] {
      var front, last := steps[..|steps| - 1], steps[|steps| - 1];
      UnrestrictedObeys(c, g, d, s, front);
      assert last.On? ==> !Restricted(d, last.step);
    }
  }

  lemma ObeysMore(c: Config, g: Regime, d: Discipline, t0: int, steps: seq<Step>, s: System, step: Step)
    requires Reaches(c, g, t0, steps, s) && RunObeys(c, g, d, Empty(t0), steps)
    requires Enabled(c, g, s, step) && (step.On? ==> Obeys(d, s.cells[step.id], step.step))
    ensures Reaches(c, g, t0, steps + [step], Apply(c, g, s, step))
    ensures RunObeys(c, g, d, Empty(t0), steps + [step])
  {
    assert (steps + [step])[..|steps|] == steps;
  }

  /** The job is delivered, and nobody is left who could write either row. */
  ghost predicate Deserted(s: Cell, shown: DeliveryStatus) {
    && StatusMachine.IsTerminal(s.job.status) && s.event.status == shown
    && (forall i :: 0 <= i < |s.phases| ==> s.phases[i].Crashed?)
    && s.recs == []
  }

  lemma {:induction false} DesertedStays(c: Config, g: Regime, s: System, more: seq<Step>, later: System, id: EventId)
    requires id in s.cells && Deserted(s.cells[id], s.cells[id].event.status) && Run(c, g, s, more) == Some(later)
    ensures id in later.cells && Deserted(later.cells[id], s.cells[id].event.status)
    ensures later.cells[id].job == s.cells[id].job
  {
    if more != [] {
      var front, last := more[..|more| - 1], more[|more| - 1];
      var before := Run(c, g, s, front).value;
      DesertedStays(c, g, s, front, before, id);
      OnlyNamedCell(c, g, before, last, id);
    }
  }

  lemma WriteAndDie(c: Config, g: Regime, d: Discipline, t0: int, steps: seq<Step>, s: System, id: EventId)
    returns (more: seq<Step>, later: System)
    requires !g.fused && !d.finishes && Reaches(c, g, t0, steps, s) && RunObeys(c, g, d, Empty(t0), steps)
    requires id in s.cells && AtRest(s.cells[id]) && s.cells[id].recs == [] && s.cells[id].event.status == Pending
    requires |s.cells[id].phases| == |s.cells[id].claims| == 1 && MayWrite(c, g, s.now, s.cells[id], 0)
    requires s.cells[id].phases[0].Closed? && s.cells[id].phases[0].result == OK_200
    ensures Reaches(c, g, t0, more, later) && RunObeys(c, g, d, Empty(t0), more) && id in later.cells
    ensures later.cells[id].job.status == Delivered && later.cells[id].phases == [Crashed] && later.cells[id].recs == []
    ensures later.cells[id].event.status == Pending && LastShown(later.cells[id].history) == Delivered
  {
    LastShownAppend(s.cells[id].history, Delivered);
    ObeysMore(c, g, d, t0, steps, s, On(id, WriteJob(0)));
    more, later := steps + [On(id, WriteJob(0))], Apply(c, g, s, On(id, WriteJob(0)));
    ObeysMore(c, g, d, t0, more, later, On(id, Crash(0)));
    more, later := more + [On(id, Crash(0))], Apply(c, g, later, On(id, Crash(0)));
  }

  /**
   * A worker that dies between its two writes, in a run that is ordered: the job is delivered and
   * the event shown as pending, and no continuation of the run changes either.
   */
  lemma CrashBetweenWrites(c: Config, g: Regime, d: Discipline, t0: int, id: EventId) returns (steps: seq<Step>, s: System)
    requires !g.fused && !d.finishes
    ensures Reaches(c, g, t0, steps, s) && RunObeys(c, g, d, Empty(t0), steps) && id in s.cells && AtRest(s.cells[id])
    ensures s.cells[id].event.status != LastShown(s.cells[id].history)
    ensures forall more, later :: Run(c, g, s, more) == Some(later) ==>
              id in later.cells && later.cells[id].job.status == Delivered && later.cells[id].event.status == Pending
  {
    var closed;
    steps, s, closed := AnswerFirst(c, g, t0, id, OK_200);
    LiftAt(id, AttemptSteps(0, OK_200));
    UnrestrictedObeys(c, g, d, Empty(t0), steps);
    steps, s := WriteAndDie(c, g, d, t0, steps, s, id);
    forall more, later | Run(c, g, s, more) == Some(later)
      ensures id in later.cells && later.cells[id].job.status == Delivered && later.cells[id].event.status == Pending
    {
      DesertedStays(c, g, s, more, later, id);
    }
  }

  /** Settling the execution at index i, and then the event write of the sweep that came before it. */
  function OvertakenSteps(i: nat): seq<CellStep> {
    [WriteJob(i), WriteEvent(i), WriteReleased(0)]
  }

  lemma SweepOvertaken(c: Config, g: Regime, now: int, s: Cell, i: nat) returns (s': Cell)
    requires !g.fused && Exists(s, i) && MayWrite(c, g, now, s, i)
    requires s.phases[i].Closed? && s.phases[i].result == OK_200
    requires |s.recs| == 1 && s.recs[0].sweep.Released? && s.recs[0].sweep.next != Delivered
    requires forall j :: 0 <= j < |s.phases| ==> !s.phases[j].Written?
    ensures CellRun(c, g, now, s, OvertakenSteps(i)) == Some(s')
    ensures AtRest(s') && s'.job.status == Delivered && s'.event.status == s.recs[0].sweep.next
    ensures s'.event.status != LastShown(s'.history)
  {
    var s1 := ApplyWriteJob(c, g, s, now, i);
    var s2 := Move(s1, i, Settled).(event := s1.event.(status := Delivered));
    s' := MoveSweep(s2, 0, Recovered(s.recs[0].sweep.number)).(event := s2.event.(status := s.recs[0].sweep.next));
    LastShownAppend(s.history, Delivered);
    CellRunCons(c, g, now, s2, WriteReleased(0), []);
    CellRunCons(c, g, now, s1, WriteEvent(i), [WriteReleased(0)]);
    CellRunCons(c, g, now, s, WriteJob(i), [WriteEvent(i), WriteReleased(0)]);
    assert OvertakenSteps(i) == [WriteJob(i)] + ([WriteEvent(i)] + ([WriteReleased(0)] + []));
  }

  lemma OvertakeLater(c: Config, g: Regime, t0: int, steps: seq<Step>, s: System, id: EventId)
    returns (more: seq<Step>, later: System)
    requires !g.fused && c.maxAttempts > 1 && Reaches(c, g, t0, steps, s) && Without(Dies, steps)
    requires id in s.cells && StalledAndSwept(c, g, s.cells[id], OK_200)
    ensures Reaches(c, g, t0, more, later) && Without(Dies, more) && id in later.cells
    ensures AtRest(later.cells[id]) && later.cells[id].job.status == Delivered
    ensures later.cells[id].event.status == Retrying && LastShown(later.cells[id].history) != Retrying
  {
    var closed;
    more, later, closed := AnswerSecond(c, g, t0, steps, s, id, OK_200, OK_200);
    var late := SweepOvertaken(c, g, later.now, closed, 1);
    WithoutLift(Dies, more, id, OvertakenSteps(1));
    more, later := ExtendCell(c, g, t0, more, later, id, OvertakenSteps(1));
  }

  /** Nobody dies, but a sweep writes the event after a later execution has: delivered, and shown as retrying or failed. */
  lemma LateEventWrite(c: Config, g: Regime, d: Discipline, t0: int, id: EventId) returns (steps: seq<Step>, s: System)
    requires !g.fused && !d.ordered && !(g.leased && c.maxAttempts == 1)
    ensures Reaches(c, g, t0, steps, s) && RunObeys(c, g, d, Empty(t0), steps) && id in s.cells && AtRest(s.cells[id])
    ensures s.cells[id].job.status == Delivered
    ensures s.cells[id].event.status == if c.maxAttempts == 1 then DeliveryStatus.Failed else Retrying
    ensures s.cells[id].event.status != LastShown(s.cells[id].history)
  {
    steps, s := StallAndSweep(c, g, t0, id, OK_200);
    if c.maxAttempts == 1 {
      var late := SweepOvertaken(c, g, s.now, s.cells[id], 0);
      WithoutLift(Dies, steps, id, OvertakenSteps(0));
      steps, s := ExtendCell(c, g, t0, steps, s, id, OvertakenSteps(0));
    } else {
      steps, s := OvertakeLater(c, g, t0, steps, s, id);
    }
    UnrestrictedObeys(c, g, d, Empty(t0), steps);
  }

  /**
   * With the two statements the source has, the event row is in step whenever no event write is
   * outstanding exactly when nobody dies between its two writes and nobody else writes the job in
   * between; a single attempt under the lease sees to the latter by itself. With one statement, as the
   * entity's comment has it, nothing need be assumed.
   */
  lemma EventInStepExactly(c: Config, g: Regime, d: Discipline)
    ensures EventInStep(c, g, d) <==> g.fused || KeepsInStep(c, g, d)
  {
    if g.fused || KeepsInStep(c, g, d) {
      forall t0, steps, s, id
        | Reaches(c, g, t0, steps, s) && RunObeys(c, g, d, Empty(t0), steps) && id in s.cells && AtRest(s.cells[id])
        ensures s.cells[id].event.status == LastShown(s.cells[id].history)
      {
        if g.fused {
          FusedProjectionIsLatest(c, g, t0, steps, s, id);
        } else {
          InStepRun(c, g, d, t0, steps, s, id);
        }
      }
    } else if !d.finishes {
      var steps, s := CrashBetweenWrites(c, g, d, 0, "evt");
    } else {
      var steps, s := LateEventWrite(c, g, d, 0, "evt");
    }
  }
}
