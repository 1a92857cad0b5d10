/**
 * Guarantees that the source's comments promise without condition, and exactly when they hold:
 * the attempt log being immutable history (delivery-attempt.entity.ts), and the reason the dashboard
 * gives for a failure.
 */
module ExactConditions {
  import opened DeliveryTypes
  import StatusMachine
  import opened Rows
  import opened Protocol
  import SoloSweeps
  import opened Guarantees
  import opened Progress
  import opened RunBuilder
  import opened LateWrites
  import Scheduling
  import RetryPolicy

  // ---- the attempt log ----------------------------------------------------------

  ghost predicate LogIsHistory(c: Config, g: Regime) {
    forall t0, steps, s, id, n: nat :: Reaches(c, g, t0, steps, s) && id in s.cells ==> s.cells[id].closings[n] <= 1
  }

  function ReadTwice(now: int): seq<CellStep> {
    [ReadStale(0, now), ReadStale(1, now)]
  }

  const SecondSweeps: seq<CellStep> := [CloseAbandoned(1), Release(1)]

  lemma ReadsTwice(c: Config, g: Regime, now: int, s: Cell)
    requires !g.solo && IsStale(s.job, now - c.leaseMs)
    ensures CellRun(c, g, now, s, ReadTwice(now))
            == Some(s.(recs := s.recs + [Recovery(0, now, Seen(s.job)), Recovery(1, now, Seen(s.job))]))
  {
    var s1 := s.(recs := s.recs + [Recovery(0, now, Seen(s.job))]);
    assert s.recs + [Recovery(0, now, Seen(s.job)), Recovery(1, now, Seen(s.job))]
           == s.recs + [Recovery(0, now, Seen(s.job))] + [Recovery(1, now, Seen(s.job))];
    CellRunCons(c, g, now, s1, ReadStale(1, now), []);
    CellRunCons(c, g, now, s, ReadStale(0, now), [ReadStale(1, now)]);
    assert ReadTwice(now) == [ReadStale(0, now)] + ([ReadStale(1, now)] + []);
  }

  /** Two sweeps read the expired claim; the second one closes it and releases it. */
  lemma SweepTwice(c: Config, g: Regime, now: int, s: Cell) returns (s': Cell)
    requires !g.solo && c.maxAttempts > 1 && s.job.attemptCount == 1
    requires s.job.status == Delivering && s.job.lockedAt.Some? && s.job.lockedAt.value + c.leaseMs < now
    requires s.attempts.Keys == {1} && IsOpen(s.attempts[1]) && s.recs == []
    ensures CellRun(c, g, now, s, ReadTwice(now) + SecondSweeps) == Some(s')
    ensures s'.job.status == Retrying && s'.job.attemptCount == 1 && s'.claims == s.claims && s'.phases == s.phases
    ensures s'.attempts.Keys == {1} && s'.attempts[1].status == AttemptStatus.Failed
    ensures |s'.recs| == 2 && s'.recs[0].sweep == Seen(s.job)
  {
    ReadsTwice(c, g, now, s);
    var s2 := s.(recs := s.recs + [Recovery(0, now, Seen(s.job)), Recovery(1, now, Seen(s.job))]);
    CellRunAppend(c, g, now, s, ReadTwice(now), SecondSweeps);
    var s3 := ApplyCloseAbandoned(s2, now, 1);
    s' := ApplyRelease(c, g, s3, 1);
    CellRunCons(c, g, now, s3, Release(1), []);
    CellRunCons(c, g, now, s2, CloseAbandoned(1), [Release(1)]);
    assert SecondSweeps == [CloseAbandoned(1)] + ([Release(1)] + []);
  }

  /** The sweep that lost closes the next attempt while it is in flight. */
  function CollisionSteps(): seq<CellStep> {
    OpenSteps(1) + ([CloseAbandoned(0)] + ReceiveSteps(1, OK_200))
  }

  lemma CloseLiveAttempt(c: Config, g: Regime, now: int, s: Cell) returns (s': Cell)
    requires CanClaim(s.job, now) && s.job.attemptCount == |s.claims| == |s.phases| == 1
    requires s.attempts.Keys == {1} && s.attempts[1].status == AttemptStatus.Failed
    requires |s.recs| == 2 && s.recs[0].sweep.Seen?
    ensures CellRun(c, g, now, s, CollisionSteps()) == Some(s')
    ensures s'.closings[2] >= 2
  {
    OpenOne(c, g, now, s);
    var live := OpenedCell(s, now);
    assert 2 in OpenRows(live.attempts);
    s' := SweepThenReceive(c, g, now, live, 1);
    CellRunAppend(c, g, now, s, OpenSteps(1), [CloseAbandoned(0)] + ReceiveSteps(1, OK_200));
  }

  /** A sweep closes an attempt whose worker is still there, and the worker completes it afterwards. */
  lemma SweepThenReceive(c: Config, g: Regime, now: int, s: Cell, i: nat) returns (s': Cell)
    requires s.recs != [] && s.recs[0].sweep.Seen? && Exists(s, i) && s.phases[i].Started? && MayWrite(c, g, now, s, i)
    requires s.phases[i].job.attemptCount in OpenRows(s.attempts)
    ensures CellRun(c, g, now, s, [CloseAbandoned(0)] + ReceiveSteps(i, OK_200)) == Some(s')
    ensures s'.closings[s.phases[i].job.attemptCount] >= 2
  {
    var swept := ApplyCloseAbandoned(s, now, 0);
    ReceiveOne(c, g, now, swept, i, OK_200);
    s' := ReceivedCell(swept, now, i, OK_200);
    CellRunCons(c, g, now, s, CloseAbandoned(0), ReceiveSteps(i, OK_200));
  }

  /** Colliding sweeps: the attempt row of a live worker is closed as a crash and then rewritten. */
  lemma CollidingSweepsRewriteTheLog(c: Config, g: Regime, t0: int, id: EventId) returns (steps: seq<Step>, s: System)
    requires !g.solo && c.maxAttempts > 1
    ensures Reaches(c, g, t0, steps, s) && id in s.cells && s.cells[id].closings[2] >= 2
  {
    steps, s := StartRun(c, g, t0, id);
    var first := OpenedCell(s.cells[id], t0);
    OpenOne(c, g, t0, s.cells[id]);
    steps, s := ExtendCell(c, g, t0, steps, s, id, OpenSteps(0));
    steps, s := WaitUntil(c, g, t0, steps, s, t0 + c.leaseMs + 1);
    var released := SweepTwice(c, g, s.now, first);
    steps, s := ExtendCell(c, g, t0, steps, s, id, ReadTwice(s.now) + SecondSweeps);
    steps, s := WaitUntil(c, g, t0, steps, s, released.job.nextAttemptAt);
    var rewritten := CloseLiveAttempt(c, g, s.now, released);
    steps, s := ExtendCell(c, g, t0, steps, s, id, CollisionSteps());
  }

  /** The sweep closes the attempt of a worker that is only slow, and the worker completes it late. */
  function LateSteps(now: int): seq<CellStep> {
    [ReadStale(0, now)] + ([CloseAbandoned(0)] + ReceiveSteps(0, OK_200))
  }

  lemma CompleteLate(c: Config, g: Regime, now: int, s: Cell) returns (s': Cell)
    requires !g.leased && IsStale(s.job, now - c.leaseMs) && s.job.attemptCount == 1
    requires s.phases == [Started(s.job)] && |s.claims| == 1 && s.recs == []
    requires s.attempts.Keys == {1} && IsOpen(s.attempts[1])
    ensures CellRun(c, g, now, s, LateSteps(now)) == Some(s') && s'.closings[1] >= 2
  {
    var seen := s.(recs := s.recs + [Recovery(0, now, Seen(s.job))]);
    assert 1 in OpenRows(seen.attempts);
    s' := SweepThenReceive(c, g, now, seen, 0);
    CellRunCons(c, g, now, s, ReadStale(0, now), [CloseAbandoned(0)] + ReceiveSteps(0, OK_200));
  }

  lemma LateWorkerRewritesTheLog(c: Config, g: Regime, t0: int, id: EventId) returns (steps: seq<Step>, s: System)
    requires !g.leased
    ensures Reaches(c, g, t0, steps, s) && id in s.cells && s.cells[id].closings[1] >= 2
  {
    steps, s := StartRun(c, g, t0, id);
    var first := OpenedCell(s.cells[id], t0);
    OpenOne(c, g, t0, s.cells[id]);
    steps, s := ExtendCell(c, g, t0, steps, s, id, OpenSteps(0));
    steps, s := WaitUntil(c, g, t0, steps, s, t0 + c.leaseMs + 1);
    var late := CompleteLate(c, g, s.now, first);
    steps, s := ExtendCell(c, g, t0, steps, s, id, LateSteps(s.now));
  }

  /**
   * Attempt rows are immutable history on every run exactly when workers keep to their lease and
   * sweeps cannot collide on a job.
   */
  lemma LogIsHistoryExactly(c: Config, g: Regime)
    ensures LogIsHistory(c, g) <==> SoloSweeps.SweepsCannotCollide(c, g)
  {
    if SoloSweeps.SweepsCannotCollide(c, g) {
      forall t0, steps, s, id, n: nat | Reaches(c, g, t0, steps, s) && id in s.cells
        ensures s.cells[id].closings[n] <= 1
      {
        AttemptLogWrittenOnce(c, g, t0, steps, s, id);
      }
    } else if g.leased {
      var steps, s := CollidingSweepsRewriteTheLog(c, g, 0, "evt");
    } else {
      var steps, s := LateWorkerRewritesTheLog(c, g, 0, "evt");
    }
  }

  // ---- the reason the dashboard gives -------------------------------------------------

  /** m attempts have failed with a retryable outcome and the job waits for the next one. */
  ghost predicate FailedSoFar(s: Cell, m: nat) {
    && s.job.attemptCount == |s.claims| == |s.phases| == m
    && StatusMachine.IsClaimable(s.job.status) && s.recs == []
    && (forall n <- s.attempts :: n <= m)
  }

  lemma {:induction false} FailUpTo(c: Config, g: Regime, t0: int, id: EventId, m: nat)
    returns (steps: seq<Step>, s: System)
    requires m < c.maxAttempts
    ensures Reaches(c, g, t0, steps, s) && id in s.cells && FailedSoFar(s.cells[id], m) && Without(Dies, steps)
  {
    if m == 0 {
      steps, s := StartRun(c, g, t0, id);
    } else {
      steps, s := FailUpTo(c, g, t0, id, m - 1);
      steps, s := FailOnce(c, g, t0, steps, s, id, m - 1);
    }
  }

  lemma FailOnce(c: Config, g: Regime, t0: int, steps: seq<Step>, s: System, id: EventId, m: nat)
    returns (more: seq<Step>, later: System)
    requires m + 1 < c.maxAttempts && Reaches(c, g, t0, steps, s) && id in s.cells && FailedSoFar(s.cells[id], m)
    requires Without(Dies, steps)
    ensures Reaches(c, g, t0, more, later) && id in later.cells && FailedSoFar(later.cells[id], m + 1) && Without(Dies, more)
  {
    var closed;
    more, later, closed := AnswerNext(c, g, t0, steps, s, id, m, TIMED_OUT);
    CellRunCons(c, g, later.now, closed, WriteJob(m), []);
    assert [WriteJob(m)] == [WriteJob(m)] + [];
    WithoutLift(Dies, more, id, [WriteJob(m)]);
    more, later := ExtendCell(c, g, t0, more, later, id, [WriteJob(m)]);
  }

  /** The next attempt, up to its completed row. */
  lemma AnswerNext(c: Config, g: Regime, t0: int, steps: seq<Step>, s: System, id: EventId, m: nat, result: WebhookResult)
    returns (more: seq<Step>, later: System, closed: Cell)
    requires Reaches(c, g, t0, steps, s) && id in s.cells && FailedSoFar(s.cells[id], m) && Without(Dies, steps)
    ensures Reaches(c, g, t0, more, later) && id in later.cells && later.cells[id] == closed && Without(Dies, more)
    ensures closed.job.attemptCount == |closed.claims| == |closed.phases| == m + 1 && closed.recs == []
    ensures closed.claims[m].at == later.now && closed.phases[m] == Closed(closed.job, result)
    ensures forall n <- closed.attempts :: n <= m + 1
    ensures m + 1 in closed.attempts && closed.attempts[m + 1].httpStatus == result.httpStatus
  {
    more, later := WaitUntil(c, g, t0, steps, s, s.cells[id].job.nextAttemptAt);
    closed := AttemptOne(c, g, later.now, later.cells[id], m, result);
    WithoutLift(Dies, more, id, AttemptSteps(m, result));
    more, later := ExtendCell(c, g, t0, more, later, id, AttemptSteps(m, result));
  }

  /**
   * For every configuration and regime there is a run in which nobody dies, the receiver rejects the
   * last allowed attempt for good, the event shows FAILED, and the dashboard says "retry limit
   * reached".
   */
  lemma ClientReasonCanBeWrong(c: Config, g: Regime, t0: int, id: EventId) returns (steps: seq<Step>, s: System)
    ensures Reaches(c, g, t0, steps, s) && id in s.cells && Without(Dies, steps)
    ensures s.cells[id].event.status == s.cells[id].job.status == DeliveryStatus.Failed
    ensures LastAttemptIsPermanent(s.cells[id])
    ensures TerminalReason(c, s.cells[id].event.status, s.cells[id].job.attemptCount) == RetryLimitReached
  {
    var m := c.maxAttempts - 1;
    var closed;
    steps, s := FailUpTo(c, g, t0, id, m);
    steps, s, closed := AnswerNext(c, g, t0, steps, s, id, m, BAD_REQUEST);
    var rest := SettleSteps(c, g, s.now, closed, m);
    WithoutLift(Dies, steps, id, rest);
    steps, s := ExtendCell(c, g, t0, steps, s, id, rest);
  }

  /** Writing the job, and then the event where that is a statement of its own. */
  lemma SettleSteps(c: Config, g: Regime, now: int, closed: Cell, i: nat) returns (steps: seq<CellStep>)
    requires Exists(closed, i) && MayWrite(c, g, now, closed, i)
    requires closed.phases[i].Closed? && closed.phases[i].job.attemptCount == closed.job.attemptCount
    requires closed.phases[i].result == BAD_REQUEST
    ensures forall j :: 0 <= j < |steps| ==> !Dies(steps[j])
    ensures CellRun(c, g, now, closed, steps).Some?
    ensures var after := CellRun(c, g, now, closed, steps).value;
            && after.event.status == after.job.status == DeliveryStatus.Failed
            && after.job.attemptCount == closed.job.attemptCount && after.attempts == closed.attempts
  {
    var written := ApplyWriteJob(c, g, closed, now, i);
    var rest: seq<CellStep> := if g.fused then [] else [WriteEvent(i)];
    if !g.fused {
      CellRunCons(c, g, now, written, WriteEvent(i), []);
      assert rest == [WriteEvent(i)] + [];
    }
    CellRunCons(c, g, now, closed, WriteJob(i), rest);
    steps := [WriteJob(i)] + rest;
  }

  // ---- the queue ahead ---------------------------------------------------------------------

  /**
   * Within every assumption of the regime, the queue ahead of a waiting job can grow: a sweep reads an
   * expired claim, the second event is accepted and falls due, and only then is the first released.
   */
  lemma QueueAheadCanGrow(c: Config, g: Regime, t0: int, first: EventId, second: EventId)
    returns (steps: seq<Step>, s: System, step: Step, due: int)
    requires c.maxAttempts > 1 && first != second
    ensures Reaches(c, g, t0, steps, s) && Scheduling.Waiting(s, second, due, 0) && Enabled(c, g, s, step)
    ensures first !in Scheduling.Ahead(s, second, due) && first in Scheduling.Ahead(Apply(c, g, s, step), second, due)
    ensures Scheduling.RequeuesEarly(c, s, step, due)
  {
    var read;
    steps, s, read := ReadExpired(c, g, t0, first);
    steps, s := WaitUntil(c, g, t0, steps, s, read + RetryPolicy.DelayAfterAttemptMs(c.delaysMs, 1));
    due := s.now;
    steps, s := AcceptAndSweep(c, g, t0, steps, s, first, second, s.cells[first]);
    step := On(first, Release(0));
  }

  /** A sweep has read the expired claim of a fresh event's first attempt. */
  lemma ReadExpired(c: Config, g: Regime, t0: int, id: EventId) returns (steps: seq<Step>, s: System, read: int)
    ensures Reaches(c, g, t0, steps, s) && s.now == read && s.cells.Keys == {id}
    ensures s.cells[id].job == ClaimRow(NewJob(t0), "worker", t0)
    ensures s.cells[id].recs == [Recovery(0, read, Seen(s.cells[id].job))]
  {
    var closed;
    steps, s, closed := AnswerFirst(c, g, t0, id, OK_200);
    steps, s := WaitUntil(c, g, t0, steps, s, t0 + c.leaseMs + 1);
    read := s.now;
    CellRunCons(c, g, read, closed, ReadStale(0, read), []);
    assert [ReadStale(0, read)] == [ReadStale(0, read)] + [];
    steps, s := ExtendCell(c, g, t0, steps, s, id, [ReadStale(0, read)]);
  }

  lemma AcceptAndSweep(c: Config, g: Regime, t0: int, steps: seq<Step>, s: System, first: EventId, second: EventId, seen: Cell)
    returns (more: seq<Step>, later: System)
    requires Reaches(c, g, t0, steps, s) && s.cells.Keys == {first} && first != second && s.cells[first] == seen
    requires |seen.recs| == 1 && seen.recs[0].sweep.Seen?
    ensures Reaches(c, g, t0, more, later) && later.cells.Keys == {first, second} && later.now == s.now + 1
    ensures later.cells[first].job == seen.job && later.cells[second].job == NewJob(s.now)
    ensures later.cells[first].recs == [seen.recs[0].(sweep := Swept(seen.recs[0].sweep.seen))]
  {
    var step := Ingest(second, "incident.created", 0, "{}");
    Extend(c, g, t0, steps, s, step);
    more, later := steps + [step], Apply(c, g, s, step);
    more, later := WaitUntil(c, g, t0, more, later, s.now + 1);
    CellRunCons(c, g, later.now, seen, CloseAbandoned(0), []);
    assert [CloseAbandoned(0)] == [CloseAbandoned(0)] + [];
    more, later := ExtendCell(c, g, t0, more, later, first, [CloseAbandoned(0)]);
  }
}
