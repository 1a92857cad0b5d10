/**
 * What concurrent recovery passes count and return. recoverStaleJobs counts a row once its job and
 * event rows are written; a pass whose process dies before that counts nothing for it, and a pass
 * that dies at all returns nothing.
 */
module Passes {
  import opened Collections
  import opened DeliveryTypes
  import opened Protocol
  import opened Guarantees
  import opened Tallies
  import LateWrites
  import RunBuilder

  // ---- counting ------------------------------------------------------------------------

  function CountedBy(pass: nat): Recovery -> bool {
    (r: Recovery) => IsCounted(r) && r.pass == pass
  }

  function CountedBelow(n: nat): Recovery -> bool {
    (r: Recovery) => IsCounted(r) && r.pass < n
  }

  /** How many sweeps of one event are of this kind. */
  function Sweeps(kind: Recovery -> bool): Cell -> nat {
    (s: Cell) => CountIf(s.recs, kind)
  }

  ghost predicate Listing(s: System) {
    forall id <- s.accepted :: id in s.cells
  }

  /** The variable `recovered` of the pass. */
  function RecoveredBy(pass: nat, s: System): nat
    requires Listing(s)
  {
    Total(s, Sweeps(CountedBy(pass)))
  }

  /** Passes 0 to n - 1 together. */
  function RecoveredByAll(n: nat, s: System): nat
    requires Listing(s)
  {
    if n == 0 then 0 else RecoveredByAll(n - 1, s) + RecoveredBy(n - 1, s)
  }

  /** Every row that was released has been counted by its pass. */
  ghost predicate NoneOutstanding(s: System) {
    forall id <- s.cells, r <- s.cells[id].recs :: !IsUnderway(r) && !IsTorn(r)
  }

  ghost predicate PassesBelow(n: nat, s: System) {
    forall id <- s.cells, r <- s.cells[id].recs :: r.pass < n
  }

  // ---- passes against events --------------------------------------------------------------

  lemma {:induction false} OneMorePass(n: nat, recs: seq<Recovery>)
    ensures CountIf(recs, CountedBelow(n + 1)) == CountIf(recs, CountedBelow(n)) + CountIf(recs, CountedBy(n))
  {
    if recs != [] {
      OneMorePass(n, recs[..|recs| - 1]);
    }
  }

  lemma {:induction false} EachByOnePass(n: nat, recs: seq<Recovery>)
    requires forall r <- recs :: r.pass < n
    ensures CountIf(recs, CountedBelow(n)) == CountIf(recs, IsCounted)
  {
    if recs != [] {
      EachByOnePass(n, recs[..|recs| - 1]);
    }
  }

  lemma NoPass(recs: seq<Recovery>)
    ensures CountIf(recs, CountedBelow(0)) == 0
  {
    CountIfZero(recs, CountedBelow(0));
  }

  lemma {:induction false} ByAllIsBelow(n: nat, s: System)
    requires Listing(s)
    ensures RecoveredByAll(n, s) == Total(s, Sweeps(CountedBelow(n)))
  {
    if n == 0 {
      forall id <- s.cells ensures CountIf(s.cells[id].recs, CountedBelow(0)) == 0 {
        NoPass(s.cells[id].recs);
      }
      SumZero(s.accepted, Values(s.cells, Sweeps(CountedBelow(0))));
    } else {
      ByAllIsBelow(n - 1, s);
      forall id <- s.cells
        ensures CountIf(s.cells[id].recs, CountedBelow(n))
                == CountIf(s.cells[id].recs, CountedBelow(n - 1)) + CountIf(s.cells[id].recs, CountedBy(n - 1))
      {
        OneMorePass(n - 1, s.cells[id].recs);
      }
      SumPlus(s.accepted, Values(s.cells, Sweeps(CountedBelow(n - 1))), Values(s.cells, Sweeps(CountedBy(n - 1))),
              Values(s.cells, Sweeps(CountedBelow(n))));
    }
  }

  lemma ByAllIsCounted(n: nat, s: System)
    requires Listing(s) && Listed(s) && PassesBelow(n, s)
    ensures RecoveredByAll(n, s) == Total(s, Sweeps(IsCounted))
  {
    ByAllIsBelow(n, s);
    forall id <- s.cells ensures CountIf(s.cells[id].recs, CountedBelow(n)) == CountIf(s.cells[id].recs, IsCounted) {
      EachByOnePass(n, s.cells[id].recs);
    }
    SumSame(s.accepted, Values(s.cells, Sweeps(CountedBelow(n))), Values(s.cells, Sweeps(IsCounted)));
  }

  /** Those that have released a row have counted it, are about to, or have died before that. */
  lemma ReleasedInAll(s: System)
    requires Listing(s) && Listed(s)
    ensures Total(s, ReleasedSweeps) == Total(s, Sweeps(IsCounted)) + Total(s, Sweeps(IsUnderway)) + Total(s, Sweeps(IsTorn))
  {
    var rest := map id | id in s.cells :: CountIf(s.cells[id].recs, IsUnderway) + CountIf(s.cells[id].recs, IsTorn);
    forall id <- s.cells ensures ReleasedSweeps(s.cells[id]) == CountIf(s.cells[id].recs, IsCounted) + rest[id] {
      ReleasedSplit(s.cells[id].recs);
    }
    SumPlus(s.accepted, Values(s.cells, Sweeps(IsUnderway)), Values(s.cells, Sweeps(IsTorn)), rest);
    SumPlus(s.accepted, Values(s.cells, Sweeps(IsCounted)), rest, Values(s.cells, ReleasedSweeps));
  }

  lemma NoneOfKind(s: System, kind: Recovery -> bool)
    requires Listing(s) && Listed(s)
    ensures Total(s, Sweeps(kind)) == 0 <==> forall id <- s.cells, r <- s.cells[id].recs :: !kind(r)
  {
    SumZero(s.accepted, Values(s.cells, Sweeps(kind)));
    forall id <- s.cells ensures CountIf(s.cells[id].recs, kind) == 0 <==> forall r <- s.cells[id].recs :: !kind(r) {
      CountIfZero(s.cells[id].recs, kind);
    }
  }

  // ---- the law ---------------------------------------------------------------------------------

  lemma PassesSum(c: Config, g: Regime, t0: int, steps: seq<Step>, s: System, n: nat)
    requires Reaches(c, g, t0, steps, s) && PassesBelow(n, s)
    ensures Listing(s) && Listed(s)
    ensures RecoveredByAll(n, s) + Total(s, Sweeps(IsUnderway)) + Total(s, Sweeps(IsTorn))
            == Occurrences(c, g, Empty(t0), steps, Of(Wins))
  {
    ReleasedSweepsMeasure(c, g);
    TotalIsOccurrences(c, g, t0, steps, ReleasedSweeps, Wins);
    ReleasedInAll(s);
    ByAllIsCounted(n, s);
  }

  lemma OutstandingTotals(s: System)
    requires Listing(s) && Listed(s)
    ensures Total(s, Sweeps(IsUnderway)) + Total(s, Sweeps(IsTorn)) == 0 <==> NoneOutstanding(s)
  {
    NoneOfKind(s, IsUnderway);
    NoneOfKind(s, IsTorn);
  }

  /**
   * Any regime, any number of passes in any interleaving: the UPDATEs that released a row are those
   * the passes have counted, those whose event write is still to come, and those whose pass died
   * before it. So the counts add up to the rows released exactly when none of the latter is left.
   */
  lemma PassesAddUp(c: Config, g: Regime, t0: int, steps: seq<Step>, s: System, n: nat)
    requires Reaches(c, g, t0, steps, s) && PassesBelow(n, s)
    ensures Listing(s)
    ensures RecoveredByAll(n, s) + Total(s, Sweeps(IsUnderway)) + Total(s, Sweeps(IsTorn))
            == Occurrences(c, g, Empty(t0), steps, Of(Wins))
    ensures RecoveredByAll(n, s) == Occurrences(c, g, Empty(t0), steps, Of(Wins)) <==> NoneOutstanding(s)
  {
    PassesSum(c, g, t0, steps, s, n);
    OutstandingTotals(s);
  }

  // ---- what is returned ------------------------------------------------------------------------

  /** The process running the pass has died on some row of its batch. */
  ghost predicate Died(pass: nat, s: System) {
    exists id, i :: id in s.cells && 0 <= i < |s.cells[id].recs| && s.cells[id].recs[i].pass == pass
                    && (s.cells[id].recs[i].sweep.Abandoned? || s.cells[id].recs[i].sweep.Torn?)
  }

  ghost function Returned(pass: nat, s: System): nat
    requires Listing(s)
  {
    if Died(pass, s) then 0 else RecoveredBy(pass, s)
  }

  ghost function ReturnedByAll(n: nat, s: System): nat
    requires Listing(s)
  {
    if n == 0 then 0 else ReturnedByAll(n - 1, s) + Returned(n - 1, s)
  }

  lemma {:induction false} ReturnedOrLost(n: nat, s: System)
    requires Listing(s)
    ensures ReturnedByAll(n, s) <= RecoveredByAll(n, s)
    ensures ReturnedByAll(n, s) == RecoveredByAll(n, s) <==> forall pass: nat :: pass < n && Died(pass, s) ==> RecoveredBy(pass, s) == 0
  {
    if n > 0 {
      ReturnedOrLost(n - 1, s);
    }
  }

  /**
   * What the passes return never exceeds the rows released, and equals it exactly when every released
   * row has been counted and no pass died after counting one.
   */
  lemma ReturnsAddUp(c: Config, g: Regime, t0: int, steps: seq<Step>, s: System, n: nat)
    requires Reaches(c, g, t0, steps, s) && PassesBelow(n, s)
    ensures Listing(s)
    ensures ReturnedByAll(n, s) <= Occurrences(c, g, Empty(t0), steps, Of(Wins))
    ensures ReturnedByAll(n, s) == Occurrences(c, g, Empty(t0), steps, Of(Wins)) <==>
            NoneOutstanding(s) && forall pass: nat :: pass < n && Died(pass, s) ==> RecoveredBy(pass, s) == 0
  {
    PassesAddUp(c, g, t0, steps, s, n);
    ReturnedOrLost(n, s);
  }

  /** A pass that dies between its two writes: one row released, and nobody has counted it. */
  lemma TornPassCountsNothing(c: Config, g: Regime, t0: int, id: EventId) returns (steps: seq<Step>, s: System)
    requires !g.fused
    ensures Reaches(c, g, t0, steps, s) && Listing(s) && PassesBelow(1, s)
    ensures RecoveredByAll(1, s) == 0 && Occurrences(c, g, Empty(t0), steps, Of(Wins)) == 1
  {
    steps, s := LateWrites.StallAndSweep(c, g, t0, id, LateWrites.OK_200);
    var step := On(id, CrashRecovery(0));
    RunBuilder.Extend(c, g, t0, steps, s, step);
    steps, s := steps + [step], Apply(c, g, s, step);
    PassesSum(c, g, t0, steps, s, 1);
    TornAlone(s, id);
  }

  lemma TornAlone(s: System, id: EventId)
    requires Listing(s) && Listed(s) && s.cells.Keys == {id} && |s.cells[id].recs| == 1
    requires s.cells[id].recs[0].pass == 0 && IsTorn(s.cells[id].recs[0])
    ensures RecoveredByAll(1, s) == 0 && Total(s, Sweeps(IsUnderway)) == 0 && Total(s, Sweeps(IsTorn)) == 1
  {
    ByAllIsCounted(1, s);
    OnlySweep(s, id, IsCounted);
    OnlySweep(s, id, IsUnderway);
    OnlySweep(s, id, IsTorn);
  }

  /** One event and one sweep. */
  lemma OnlySweep(s: System, id: EventId, kind: Recovery -> bool)
    requires Listing(s) && Listed(s) && s.cells.Keys == {id} && |s.cells[id].recs| == 1
    ensures Total(s, Sweeps(kind)) == if kind(s.cells[id].recs[0]) then 1 else 0
  {
    DistinctSize(s.accepted);
    assert (set k | k in s.accepted) == {id};
    assert s.accepted == [] + [id];
    SumAppend([], Values(s.cells, Sweeps(kind)), id);
    assert s.cells[id].recs == [] + [s.cells[id].recs[0]];
    CountIfAppend([], s.cells[id].recs[0], kind);
  }
}
