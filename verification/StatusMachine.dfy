/** The delivery status transition table (delivery-status.enum.ts). */
module StatusMachine {
  import opened DeliveryTypes

  function AllowedTransitions(from: DeliveryStatus): seq<DeliveryStatus> {
    match from
    case Pending => [Delivering]
    case Delivering => [Delivered, Retrying, DeliveryStatus.Failed]
    case Retrying => [Delivering]
    case Delivered => []
    case Failed => []
  }

  predicate CanTransition(from: DeliveryStatus, to: DeliveryStatus) {
    to in AllowedTransitions(from)
  }

  predicate IsTerminal(status: DeliveryStatus) {
    status in [Delivered, DeliveryStatus.Failed]
  }

  predicate IsClaimable(status: DeliveryStatus) {
    status in [Pending, Retrying]
  }

  /** A sequence of statuses in which each one is allowed to follow the one before. */
  ghost predicate IsPath(history: seq<DeliveryStatus>) {
    forall i :: 0 < i < |history| ==> CanTransition(history[i - 1], history[i])
  }

  /**
   * Nothing can follow a terminal status on a path, so a path holds at most one
   * terminal status and holds it last.
   */
  lemma TerminalIsLast(history: seq<DeliveryStatus>, i: nat)
    requires IsPath(history) && i < |history| && IsTerminal(history[i])
    ensures i == |history| - 1
  {
    assert i + 1 < |history| ==> CanTransition(history[(i + 1) - 1], history[i + 1]);
  }

  /** Where position i of a history that begins with PENDING may stand. */
  ghost predicate IsStage(history: seq<DeliveryStatus>, i: nat)
    requires i < |history|
  {
    var status := history[i];
    if i == 0 then status == Pending
    else if i % 2 == 1 then status == Delivering
    else status == Retrying || (i == |history| - 1 && (status == Delivered || status == DeliveryStatus.Failed))
  }

  /**
   * From PENDING, the paths of the table are PENDING (DELIVERING RETRYING)*, possibly followed by
   * DELIVERING, or by DELIVERING and a terminal status.
   */
  lemma PathsFromPending(history: seq<DeliveryStatus>)
    requires |history| > 0 && history[0] == Pending
    ensures IsPath(history) <==> forall i :: 0 <= i < |history| ==> IsStage(history, i)
  {
    if IsPath(history) {
      for i := 0 to |history|
        invariant forall j :: 0 <= j < i ==> IsStage(history, j)
      {
        assert i > 0 ==> IsStage(history, i - 1) && CanTransition(history[i - 1], history[i]);
        if IsTerminal(history[i]) {
          TerminalIsLast(history, i);
        }
      }
    }
    if forall i :: 0 <= i < |history| ==> IsStage(history, i) {
      forall i | 0 < i < |history| ensures CanTransition(history[i - 1], history[i]) {
        assert IsStage(history, i - 1) && IsStage(history, i);
      }
    }
  }
}
