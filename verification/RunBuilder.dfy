/** Building concrete runs, for showing that a guarantee fails without its hypothesis. */
module RunBuilder {
  import opened DeliveryTypes
  import opened Rows
  import opened Protocol
  import opened Progress

  lemma Extend(c: Config, g: Regime, t0: int, steps: seq<Step>, s: System, step: Step)
    requires Reaches(c, g, t0, steps, s) && Enabled(c, g, s, step)
    ensures Reaches(c, g, t0, steps + [step], Apply(c, g, s, step))
  {
    assert (steps + [step])[..|steps|] == steps;
  }

  /** Steps of one event. */
  function Lift(id: EventId, cellSteps: seq<CellStep>): seq<Step> {
    if cellSteps == [] then [] else [On(id, cellSteps[0])] + Lift(id, cellSteps[1..])
  }

  lemma LiftCons(steps: seq<Step>, id: EventId, cellSteps: seq<CellStep>)
    requires cellSteps != []
    ensures steps + [On(id, cellSteps[0])] + Lift(id, cellSteps[1..]) == steps + Lift(id, cellSteps)
  {
  }

  lemma {:induction false} LiftAt(id: EventId, cellSteps: seq<CellStep>)
    ensures |Lift(id, cellSteps)| == |cellSteps|
    ensures forall i :: 0 <= i < |cellSteps| ==> Lift(id, cellSteps)[i] == On(id, cellSteps[i])
  {
    if cellSteps != [] {
      LiftAt(id, cellSteps[1..]);
      assert forall i :: 0 < i < |cellSteps| ==> Lift(id, cellSteps)[i] == Lift(id, cellSteps[1..])[i - 1];
    }
  }

  /** No step of the run is of this kind. */
  predicate Without(kind: CellStep -> bool, steps: seq<Step>) {
    forall i :: 0 <= i < |steps| && steps[i].On? ==> !kind(steps[i].step)
  }

  lemma WithoutLift(kind: CellStep -> bool, steps: seq<Step>, id: EventId, cellSteps: seq<CellStep>)
    requires Without(kind, steps) && forall i :: 0 <= i < |cellSteps| ==> !kind(cellSteps[i])
    ensures Without(kind, steps + Lift(id, cellSteps))
  {
    LiftAt(id, cellSteps);
  }

  lemma {:induction false} ExtendCell(c: Config, g: Regime, t0: int, steps: seq<Step>, s: System, id: EventId,
                                      cellSteps: seq<CellStep>)
    returns (more: seq<Step>, later: System)
    requires Reaches(c, g, t0, steps, s) && id in s.cells
    requires CellRun(c, g, s.now, s.cells[id], cellSteps).Some?
    ensures Reaches(c, g, t0, more, later)
    ensures later.now == s.now && id in later.cells
    ensures Some(later.cells[id]) == CellRun(c, g, s.now, s.cells[id], cellSteps)
    ensures more == steps + Lift(id, cellSteps) && later.cells.Keys == s.cells.Keys
    ensures forall k :: k in s.cells && k != id ==> later.cells[k] == s.cells[k]
    decreases |cellSteps|
  {
    if cellSteps == [] {
      more, later := steps, s;
    } else {
      var step := On(id, cellSteps[0]);
      Extend(c, g, t0, steps, s, step);
      more, later := ExtendCell(c, g, t0, steps + [step], Apply(c, g, s, step), id, cellSteps[1..]);
      LiftCons(steps, id, cellSteps);
    }
  }

  const TIMED_OUT := WebhookResult(false, None, Some(Timeout), Some("ETIMEDOUT"))

  lemma WaitUntil(c: Config, g: Regime, t0: int, steps: seq<Step>, s: System, due: int)
    returns (more: seq<Step>, later: System)
    requires Reaches(c, g, t0, steps, s)
    ensures Reaches(c, g, t0, more, later) && later == s.(now := Later(s.now, due))
    ensures more == steps + [Advance(later.now)]
  {
    var step := Advance(Later(s.now, due));
    Extend(c, g, t0, steps, s, step);
    more, later := steps + [step], Apply(c, g, s, step);
  }

  lemma StartRun(c: Config, g: Regime, t0: int, id: EventId) returns (steps: seq<Step>, s: System)
    ensures Reaches(c, g, t0, steps, s) && s.now == t0 && steps == [Ingest(id, "incident.created", 0, "{}")]
    ensures s.cells == map[id := NewCell(t0, "incident.created", 0, "{}")]
  {
    steps, s := [], Empty(t0);
    var step := Ingest(id, "incident.created", 0, "{}");
    Extend(c, g, t0, steps, s, step);
    steps, s := steps + [step], Apply(c, g, s, step);
  }

  // ---- one attempt, all at one moment ---------------------------------------------------

  function OpenSteps(i: nat): seq<CellStep> {
    [Claim("worker"), Load(i), Start(i)]
  }

  function ReceiveSteps(i: nat, result: WebhookResult): seq<CellStep> {
    [Send(i), Answer(i, result), Complete(i)]
  }

  /** A claim and everything up to the completed attempt row. */
  function AttemptSteps(i: nat, result: WebhookResult): seq<CellStep> {
    OpenSteps(i) + ReceiveSteps(i, result)
  }

  /** Claimed, and the attempt row opened. */
  function OpenedCell(s: Cell, now: int): Cell {
    var job := ClaimRow(s.job, "worker", now);
    s.(job := job,
       claims := s.claims + [ClaimRecord("worker", now)],
       phases := s.phases + [Started(job)],
       attempts := s.attempts[job.attemptCount := OpenAttempt(now)],
       history := s.history + [Delivering],
       progress := s.progress + 1)
  }

  lemma OpenOne(c: Config, g: Regime, now: int, s: Cell)
    requires CanClaim(s.job, now) && |s.claims| == |s.phases| && s.job.attemptCount + 1 !in s.attempts
    ensures CellRun(c, g, now, s, OpenSteps(|s.claims|)) == Some(OpenedCell(s, now))
  {
    var i := |s.claims|;
    var s1 := ApplyClaim(s, now, "worker");
    var s2 := Move(s1, i, Loaded(s1.job));
    assert ApplyStart(s2, now, i).phases == OpenedCell(s, now).phases;
    CellRunCons(c, g, now, s2, Start(i), []);
    CellRunCons(c, g, now, s1, Load(i), [Start(i)]);
    CellRunCons(c, g, now, s, Claim("worker"), [Load(i), Start(i)]);
    assert OpenSteps(i) == [Claim("worker")] + ([Load(i)] + ([Start(i)] + []));
  }

  /** The request sent and answered, and the attempt row completed. */
  function ReceivedCell(s: Cell, now: int, i: nat, result: WebhookResult): Cell
    requires i < |s.phases| && s.phases[i].Started? && s.phases[i].job.attemptCount in s.attempts
  {
    var job := s.phases[i].job;
    var n := job.attemptCount;
    s.(phases := s.phases[i := Closed(job, result)],
       attempts := s.attempts[n := CompleteAttempt(s.attempts[n], result, now)],
       sent := s.sent + multiset{n},
       answers := s.answers + {result},
       closings := s.closings + multiset{n})
  }

  lemma ReceiveOne(c: Config, g: Regime, now: int, s: Cell, i: nat, result: WebhookResult)
    requires Exists(s, i) && s.phases[i].Started? && s.phases[i].job.attemptCount in s.attempts && MayWrite(c, g, now, s, i)
    ensures CellRun(c, g, now, s, ReceiveSteps(i, result)) == Some(ReceivedCell(s, now, i, result))
  {
    var job := s.phases[i].job;
    var s1 := ApplySend(s, i);
    var s2 := ApplyAnswer(s1, i, result);
    assert ApplyComplete(s2, now, i).phases == ReceivedCell(s, now, i, result).phases;
    CellRunCons(c, g, now, s2, Complete(i), []);
    CellRunCons(c, g, now, s1, Answer(i, result), [Complete(i)]);
    CellRunCons(c, g, now, s, Send(i), [Answer(i, result), Complete(i)]);
    assert ReceiveSteps(i, result) == [Send(i)] + ([Answer(i, result)] + ([Complete(i)] + []));
  }

  lemma AttemptOne(c: Config, g: Regime, now: int, s: Cell, m: nat, result: WebhookResult) returns (s': Cell)
    requires CanClaim(s.job, now) && s.job.attemptCount == |s.claims| == |s.phases| == m
    requires forall n <- s.attempts :: n <= m
    ensures CellRun(c, g, now, s, AttemptSteps(m, result)) == Some(s')
    ensures s'.job == ClaimRow(s.job, "worker", now) && s'.claims == s.claims + [ClaimRecord("worker", now)]
    ensures s'.phases == s.phases + [Closed(s'.job, result)] && s'.recs == s.recs
    ensures s'.attempts == s.attempts[m + 1 := CompleteAttempt(OpenAttempt(now), result, now)]
    ensures s'.event == s.event && s'.history == s.history + [Delivering]
  {
    OpenOne(c, g, now, s);
    var mid := OpenedCell(s, now);
    ReceiveOne(c, g, now, mid, m, result);
    CellRunAppend(c, g, now, s, OpenSteps(m), ReceiveSteps(m, result));
    s' := ReceivedCell(mid, now, m, result);
  }
}
