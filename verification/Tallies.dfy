/**
 * Counting the steps of a run. A measure of one event that starts at 0 and grows by one with each
 * step of a kind adds up, over all events, to the number of such steps.
 */
module Tallies {
  import opened Collections
  import opened DeliveryTypes
  import opened Protocol
  import Reachability

  /** How many steps of the run are of this kind where they stand. */
  function Occurrences(c: Config, g: Regime, s: System, steps: seq<Step>, kind: (System, Step) -> bool): nat
    requires Run(c, g, s, steps).Some?
  {
    if steps == [] then 0
    else
      var front, last := steps[..|steps| - 1], steps[|steps| - 1];
      Occurrences(c, g, s, front, kind) + if kind(Run(c, g, s, front).value, last) then 1 else 0
  }

  /** Steps of one event, or of any. */
  function Of(kind: (Cell, CellStep) -> bool): (System, Step) -> bool {
    (s: System, step: Step) => step.On? && step.id in s.cells && kind(s.cells[step.id], step.step)
  }

  function OfEvent(id: EventId, kind: (Cell, CellStep) -> bool): (System, Step) -> bool {
    (s: System, step: Step) => step.On? && step.id == id && id in s.cells && kind(s.cells[id], step.step)
  }

  function Values(cells: map<EventId, Cell>, measure: Cell -> nat): map<EventId, nat> {
    map id | id in cells :: measure(cells[id])
  }

  function Total(s: System, measure: Cell -> nat): nat
    requires forall id <- s.accepted :: id in s.cells
  {
    Sum(s.accepted, Values(s.cells, measure))
  }

  /** The measure starts at 0 and grows by one with each step of the kind, and with no other. */
  ghost predicate Measures(c: Config, g: Regime, measure: Cell -> nat, kind: (Cell, CellStep) -> bool) {
    && (forall now, eventType, occurredAt, payload :: measure(NewCell(now, eventType, occurredAt, payload)) == 0)
    && (forall now, s, step :: CellEnabled(c, g, now, s, step) ==>
          measure(CellApply(c, g, now, s, step)) == measure(s) + if kind(s, step) then 1 else 0)
  }

  ghost predicate Listed(s: System) {
    NoRepeats(s.accepted) && (forall id :: id in s.accepted <==> id in s.cells)
  }

  lemma TotalIngest(c: Config, g: Regime, s: System, step: Step, measure: Cell -> nat, kind: (Cell, CellStep) -> bool)
    requires Measures(c, g, measure, kind) && Listed(s) && step.Ingest? && Enabled(c, g, s, step)
    ensures Total(Apply(c, g, s, step), measure) == Total(s, measure)
  {
    var s' := Apply(c, g, s, step);
    SumAppend(s.accepted, Values(s'.cells, measure), step.id);
    SumSame(s.accepted, Values(s'.cells, measure), Values(s.cells, measure));
  }

  lemma TotalOn(c: Config, g: Regime, s: System, step: Step, measure: Cell -> nat, kind: (Cell, CellStep) -> bool)
    requires Measures(c, g, measure, kind) && Listed(s) && step.On? && Enabled(c, g, s, step)
    ensures Total(Apply(c, g, s, step), measure) == Total(s, measure) + if kind(s.cells[step.id], step.step) then 1 else 0
  {
    var cell := CellApply(c, g, s.now, s.cells[step.id], step.step);
    SumUpdate(s.accepted, Values(s.cells, measure), step.id, measure(cell));
    assert Values(s.cells[step.id := cell], measure) == Values(s.cells, measure)[step.id := measure(cell)];
  }

  lemma {:induction false} TotalIsOccurrences(c: Config, g: Regime, t0: int, steps: seq<Step>, measure: Cell -> nat,
                                              kind: (Cell, CellStep) -> bool)
    requires Measures(c, g, measure, kind) && Run(c, g, Empty(t0), steps).Some?
    ensures var s := Run(c, g, Empty(t0), steps).value;
            Listed(s) && Total(s, measure) == Occurrences(c, g, Empty(t0), steps, Of(kind))
  {
    Reachability.RunKeepsInv(c, g, Empty(t0), steps);
    if steps != [] {
      var front, last := steps[..|steps| - 1], steps[|steps| - 1];
      TotalIsOccurrences(c, g, t0, front, measure, kind);
      var before := Run(c, g, Empty(t0), front).value;
      match last
      case Ingest(_, _, _, _) => TotalIngest(c, g, before, last, measure, kind);
      case On(_, _) => TotalOn(c, g, before, last, measure, kind);
      case Advance(_) =>
    }
  }

  /** The same for a single event. */
  lemma {:induction false} MeasureIsOccurrences(c: Config, g: Regime, t0: int, steps: seq<Step>, id: EventId,
                                                measure: Cell -> nat, kind: (Cell, CellStep) -> bool)
    requires Measures(c, g, measure, kind) && Run(c, g, Empty(t0), steps).Some?
    ensures var s := Run(c, g, Empty(t0), steps).value;
            Occurrences(c, g, Empty(t0), steps, OfEvent(id, kind)) == if id in s.cells then measure(s.cells[id]) else 0
  {
    if steps != [] {
      MeasureIsOccurrences(c, g, t0, steps[..|steps| - 1], id, measure, kind);
    }
  }
}
