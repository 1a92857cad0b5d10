/** Every invariant, in every reachable system, for every event. */
module Reachability {
  import Collections
  import opened DeliveryTypes
  import opened Protocol
  import opened AnyRegime
  import opened LeaseRegime
  import opened SoloSweeps
  import FusedWrites

  ghost predicate CellInv(c: Config, g: Regime, now: int, s: Cell) {
    && Basic(c, now, s)
    && (g.leased ==> Leased(c, now, s) && Logged(c, s))
    && (g.leased && g.solo ==> OneSweep(s.job, s.recs))
    && (SweepsCannotCollide(c, g) ==> WrittenOnce(c, now, s))
    && (g.fused ==> FusedWrites.Mirrored(s))
  }

  lemma CellInvNew(c: Config, g: Regime, now: int, eventType: string, occurredAt: int, payload: string)
    ensures CellInv(c, g, now, NewCell(now, eventType, occurredAt, payload))
  {
    BasicNew(c, now, eventType, occurredAt, payload);
    LeasedNew(c, now, eventType, occurredAt, payload);
  }

  lemma BasicNew(c: Config, now: int, eventType: string, occurredAt: int, payload: string)
    ensures Basic(c, now, NewCell(now, eventType, occurredAt, payload))
  {
  }

  lemma LeasedNew(c: Config, now: int, eventType: string, occurredAt: int, payload: string)
    ensures Leased(c, now, NewCell(now, eventType, occurredAt, payload)) && Logged(c, NewCell(now, eventType, occurredAt, payload))
  {
  }

  /** Time passing only takes away the right to write. */
  lemma CellInvAdvance(c: Config, g: Regime, now: int, to: int, s: Cell)
    requires CellInv(c, g, now, s) && now <= to
    ensures CellInv(c, g, to, s)
  {
  }

  lemma CellInvStep(c: Config, g: Regime, now: int, s: Cell, step: CellStep)
    requires CellInv(c, g, now, s) && CellEnabled(c, g, now, s, step)
    ensures CellInv(c, g, now, CellApply(c, g, now, s, step))
  {
    BasicStep(c, g, now, s, step);
    if g.leased {
      LeasedStep(c, g, now, s, step);
      LoggedStep(c, g, now, s, step);
      if g.solo {
        OneSweepStep(c, g, now, s, step);
      }
      if SweepsCannotCollide(c, g) {
        WrittenOnceStep(c, g, now, s, step);
      }
    }
    if g.fused {
      FusedWrites.MirroredStep(c, g, now, s, step);
    }
  }

  ghost predicate SystemInv(c: Config, g: Regime, s: System) {
    && Collections.NoRepeats(s.accepted)
    && (forall id :: id in s.accepted <==> id in s.cells)
    && (forall id <- s.cells :: CellInv(c, g, s.now, s.cells[id]))
  }

  lemma SystemInvIngest(c: Config, g: Regime, s: System, step: Step)
    requires SystemInv(c, g, s) && Enabled(c, g, s, step) && step.Ingest?
    ensures SystemInv(c, g, Apply(c, g, s, step))
  {
    CellInvNew(c, g, s.now, step.eventType, step.occurredAt, step.payload);
  }

  lemma SystemInvOn(c: Config, g: Regime, s: System, step: Step)
    requires SystemInv(c, g, s) && Enabled(c, g, s, step) && step.On?
    ensures SystemInv(c, g, Apply(c, g, s, step))
  {
    CellInvStep(c, g, s.now, s.cells[step.id], step.step);
  }

  lemma SystemInvStep(c: Config, g: Regime, s: System, step: Step)
    requires SystemInv(c, g, s) && Enabled(c, g, s, step)
    ensures SystemInv(c, g, Apply(c, g, s, step))
  {
    match step
    case Ingest(_, _, _, _) => SystemInvIngest(c, g, s, step);
    case On(_, _) => SystemInvOn(c, g, s, step);
    case Advance(to) =>
      forall id <- s.cells ensures CellInv(c, g, to, s.cells[id]) {
        CellInvAdvance(c, g, s.now, to, s.cells[id]);
      }
  }

  lemma {:induction false} RunKeepsInv(c: Config, g: Regime, s: System, steps: seq<Step>)
    requires SystemInv(c, g, s) && Run(c, g, s, steps).Some?
    ensures SystemInv(c, g, Run(c, g, s, steps).value)
  {
    if steps != [] {
      var front := steps[..|steps| - 1];
      RunKeepsInv(c, g, s, front);
      SystemInvStep(c, g, Run(c, g, s, front).value, steps[|steps| - 1]);
    }
  }

  lemma CellOf(c: Config, g: Regime, s: System, id: EventId)
    requires SystemInv(c, g, s) && id in s.cells
    ensures Basic(c, s.now, s.cells[id])
    ensures g.leased ==> Leased(c, s.now, s.cells[id]) && Logged(c, s.cells[id])
  {
    assert CellInv(c, g, s.now, s.cells[id]);
  }

  /** What every regime, and the lease, give for one event of a reachable system. */
  lemma ReachableCell(c: Config, g: Regime, t0: int, steps: seq<Step>, s: System, id: EventId)
    requires Reaches(c, g, t0, steps, s) && id in s.cells
    ensures Basic(c, s.now, s.cells[id])
    ensures g.leased ==> Leased(c, s.now, s.cells[id]) && Logged(c, s.cells[id])
  {
    Invariant(c, g, t0, steps, s);
    CellOf(c, g, s, id);
  }

  /** The one induction behind every guarantee below. */
  lemma Invariant(c: Config, g: Regime, t0: int, steps: seq<Step>, s: System)
    requires Reaches(c, g, t0, steps, s)
    ensures SystemInv(c, g, s)
  {
    RunKeepsInv(c, g, Empty(t0), steps);
  }
}
