/** What one statement for the job write and the event write adds, with no lease assumption. */
module FusedWrites {
  import opened DeliveryTypes
  import Rows
  import opened Protocol

  /** The latest status other than Delivering. */
  function LastShown(history: seq<DeliveryStatus>): DeliveryStatus {
    if history == [] then Pending
    else if history[|history| - 1] != Delivering then history[|history| - 1]
    else LastShown(history[..|history| - 1])
  }

  lemma LastShownAppend(history: seq<DeliveryStatus>, st: DeliveryStatus)
    ensures LastShown(history + [st]) == if st == Delivering then LastShown(history) else st
  {
    assert (history + [st])[..|history|] == history;
  }

  ghost predicate Mirrored(s: Cell) {
    && s.event.status == LastShown(s.history)
    && (forall i :: 0 <= i < |s.phases| ==> !s.phases[i].Written?)
    && (forall r :: 0 <= r < |s.recs| ==> !s.recs[r].sweep.Released?)
  }

  lemma MirroredWriteJob(c: Config, g: Regime, now: int, s: Cell, i: nat)
    requires g.fused && Mirrored(s) && CellEnabled(c, g, now, s, WriteJob(i))
    ensures Mirrored(ApplyWriteJob(c, g, s, now, i))
  {
    LastShownAppend(s.history, Rows.Verdict(c, s.phases[i].job.attemptCount, s.phases[i].result));
  }

  lemma MirroredRelease(c: Config, g: Regime, now: int, s: Cell, r: nat)
    requires g.fused && Mirrored(s) && CellEnabled(c, g, now, s, Release(r))
    ensures Mirrored(ApplyRelease(c, g, s, r))
  {
    LastShownAppend(s.history, Rows.ReleaseTarget(c, s.recs[r].sweep.seen, s.recs[r].now).0);
  }

  lemma MirroredStep(c: Config, g: Regime, now: int, s: Cell, step: CellStep)
    requires g.fused && Mirrored(s) && CellEnabled(c, g, now, s, step)
    ensures Mirrored(CellApply(c, g, now, s, step))
  {
    match step
    case Claim(_) => LastShownAppend(s.history, Delivering);
    case WriteJob(i) => MirroredWriteJob(c, g, now, s, i);
    case Release(r) => MirroredRelease(c, g, now, s, r);
    case _ =>
  }
}
