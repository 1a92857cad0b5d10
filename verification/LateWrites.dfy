/**
 * What a worker past its lease can do to a job row. The guard of releaseStaleJob keeps a sweep from
 * overwriting a newer claim, but nothing keeps the worker from overwriting the sweep; so the
 * guarantees on the job row hold exactly as far as workers keep to their lease.
 */
module LateWrites {
  import opened DeliveryTypes
  import opened StatusMachine
  import RetryPolicy
  import Rows
  import opened Protocol
  import opened AnyRegime
  import opened LeaseRegime
  import Reachability
  import opened Guarantees
  import opened Progress
  import opened RunBuilder

  const OK_200 := WebhookResult(true, Some(200), None, None)
  const BAD_REQUEST := WebhookResult(true, Some(400), Some(HttpError), Some("400 Bad Request"))

  // ---- a worker that is late ---------------------------------------------------------

  /** Attempt 1 is answered and not settled, and a sweep has released its claim. */
  ghost predicate StalledAndSwept(c: Config, g: Regime, s: Cell, result: WebhookResult) {
    && s.job.attemptCount == |s.claims| == |s.phases| == 1
    && s.job.status == (if c.maxAttempts == 1 then DeliveryStatus.Failed else Retrying)
    && s.phases[0].Closed? && s.phases[0].job.attemptCount == 1 && s.phases[0].result == result
    && s.attempts.Keys == {1}
    && s.history == [Pending, Delivering, s.job.status]
    && |s.recs| == 1 && s.recs[0].pass == 0
    && s.recs[0].sweep == (if g.fused then Recovered(1) else Released(1, s.job.status))
    && s.event.status == (if g.fused then s.job.status else Pending)
  }

  predicate Dies(step: CellStep) {
    step.Crash? || step.CrashRecovery?
  }

  lemma StallAndSweep(c: Config, g: Regime, t0: int, id: EventId, result: WebhookResult)
    returns (steps: seq<Step>, s: System)
    ensures Reaches(c, g, t0, steps, s) && s.cells.Keys == {id} && StalledAndSwept(c, g, s.cells[id], result)
    ensures Without(Dies, steps)
  {
    var closed;
    steps, s, closed := AnswerFirst(c, g, t0, id, result);
    steps, s := WaitUntil(c, g, t0, steps, s, t0 + c.leaseMs + 1);
    SweepAlone(c, g, s.now, s.now, closed);
    WithoutLift(Dies, steps, id, SweepSteps(closed, s.now));
    steps, s := ExtendCell(c, g, t0, steps, s, id, SweepSteps(closed, s.now));
  }

  /** The first attempt of a fresh event, up to its completed row. */
  lemma AnswerFirst(c: Config, g: Regime, t0: int, id: EventId, result: WebhookResult)
    returns (steps: seq<Step>, s: System, closed: Cell)
    ensures Reaches(c, g, t0, steps, s) && s.now == t0 && s.cells.Keys == {id} && s.cells[id] == closed
    ensures closed.job == Rows.ClaimRow(Rows.NewJob(t0), "worker", t0) && closed.claims == [ClaimRecord("worker", t0)]
    ensures closed.phases == [Closed(closed.job, result)] && closed.recs == []
    ensures closed.attempts.Keys == {1} && closed.event.status == Pending && closed.history == [Pending, Delivering]
    ensures steps == [Ingest(id, "incident.created", 0, "{}")] + Lift(id, AttemptSteps(0, result))
    ensures Without(Dies, steps)
  {
    steps, s := StartRun(c, g, t0, id);
    closed := AttemptOne(c, g, t0, s.cells[id], 0, result);
    WithoutLift(Dies, steps, id, AttemptSteps(0, result));
    steps, s := ExtendCell(c, g, t0, steps, s, id, AttemptSteps(0, result));
  }

  // ---- histories ---------------------------------------------------------------------

  /** The late worker settles over the row the sweep released: Retrying or Failed, then Delivered. */
  lemma LateWorkerOverwritesRelease(c: Config, g: Regime, t0: int, id: EventId) returns (steps: seq<Step>, s: System)
    requires !g.leased
    ensures Reaches(c, g, t0, steps, s) && id in s.cells
    ensures var h := s.cells[id].history;
            |h| == 4 && h[2] == (if c.maxAttempts == 1 then DeliveryStatus.Failed else Retrying) && h[3] == Delivered
    ensures !IsPath(s.cells[id].history)
  {
    steps, s := StallAndSweep(c, g, t0, id, OK_200);
    var swept := s.cells[id];
    CellRunCons(c, g, s.now, swept, WriteJob(0), []);
    assert [WriteJob(0)] == [WriteJob(0)] + [];
    steps, s := ExtendCell(c, g, t0, steps, s, id, [WriteJob(0)]);
    assert !CanTransition(s.cells[id].history[3 - 1], s.cells[id].history[3]);
  }

  ghost predicate HistoriesLegal(c: Config, g: Regime) {
    forall t0, steps, s, id :: Reaches(c, g, t0, steps, s) && id in s.cells ==> IsPath(s.cells[id].history)
  }

  /** Every history is a path of the transition table exactly under the lease discipline. */
  lemma HistoriesLegalExactly(c: Config, g: Regime)
    ensures HistoriesLegal(c, g) <==> g.leased
  {
    if g.leased {
      forall t0, steps, s, id | Reaches(c, g, t0, steps, s) && id in s.cells ensures IsPath(s.cells[id].history) {
        HistoriesAreLegal(c, g, t0, steps, s, id);
      }
    } else {
      var steps, s := LateWorkerOverwritesRelease(c, g, 0, "evt");
    }
  }

  // ---- terminal rows -----------------------------------------------------------------

  lemma OneMore(c: Config, g: Regime, s: System, step: Step)
    requires Enabled(c, g, s, step)
    ensures Run(c, g, s, [step]) == Some(Apply(c, g, s, step))
  {
    assert [step][..0] == [];
    assert Run(c, g, s, []) == Some(s);
  }

  /** The second attempt of an event whose first is stalled and swept, up to its completed row. */
  lemma AnswerSecond(c: Config, g: Regime, t0: int, steps: seq<Step>, s: System, id: EventId, first: WebhookResult,
                     second: WebhookResult)
    returns (more: seq<Step>, later: System, closed: Cell)
    requires c.maxAttempts > 1 && Reaches(c, g, t0, steps, s) && Without(Dies, steps)
    requires id in s.cells && StalledAndSwept(c, g, s.cells[id], first)
    ensures Reaches(c, g, t0, more, later) && Without(Dies, more) && id in later.cells && later.cells[id] == closed
    ensures closed.job.attemptCount == |closed.claims| == |closed.phases| == 2 && closed.claims[1].at == later.now
    ensures closed.phases[0] == s.cells[id].phases[0] && closed.phases[1] == Closed(closed.job, second)
    ensures closed.recs == s.cells[id].recs && closed.attempts.Keys == {1, 2}
  {
    more, later := WaitUntil(c, g, t0, steps, s, s.cells[id].job.nextAttemptAt);
    closed := AttemptOne(c, g, later.now, later.cells[id], 1, second);
    WithoutLift(Dies, more, id, AttemptSteps(1, second));
    more, later := ExtendCell(c, g, t0, more, later, id, AttemptSteps(1, second));
  }

  /** A job that is Failed, and that the late worker of its first attempt then makes Delivered. */
  lemma LateWorkerRevivesFailed(c: Config, g: Regime, t0: int, id: EventId)
    returns (steps: seq<Step>, s: System, more: seq<Step>, later: System)
    requires !g.leased
    ensures Reaches(c, g, t0, steps, s) && id in s.cells && s.cells[id].job.status == DeliveryStatus.Failed
    ensures Run(c, g, s, more) == Some(later) && id in later.cells && later.cells[id].job.status == Delivered
  {
    steps, s := StallAndSweep(c, g, t0, id, OK_200);
    if c.maxAttempts > 1 {
      var closed;
      steps, s, closed := AnswerSecond(c, g, t0, steps, s, id, OK_200, BAD_REQUEST);
      CellRunCons(c, g, s.now, closed, WriteJob(1), []);
      assert [WriteJob(1)] == [WriteJob(1)] + [];
      steps, s := ExtendCell(c, g, t0, steps, s, id, [WriteJob(1)]);
    }
    more := [On(id, WriteJob(0))];
    later := Apply(c, g, s, more[0]);
    OneMore(c, g, s, more[0]);
  }

  ghost predicate TerminalForever(c: Config, g: Regime) {
    forall t0, steps, s, id, more, later ::
      Reaches(c, g, t0, steps, s) && id in s.cells && IsTerminal(s.cells[id].job.status) && Run(c, g, s, more) == Some(later) ==>
        id in later.cells && later.cells[id].job == s.cells[id].job && later.cells[id].attempts == s.cells[id].attempts
  }

  /** Terminal rows stay as they are exactly under the lease discipline. */
  lemma TerminalForeverExactly(c: Config, g: Regime)
    ensures TerminalForever(c, g) <==> g.leased
  {
    if g.leased {
      forall t0, steps, s, id, more, later
        | Reaches(c, g, t0, steps, s) && id in s.cells && IsTerminal(s.cells[id].job.status) && Run(c, g, s, more) == Some(later)
        ensures id in later.cells && later.cells[id].job == s.cells[id].job && later.cells[id].attempts == s.cells[id].attempts
      {
        TerminalIsForever(c, g, t0, steps, s, more, later, id);
      }
    } else {
      var steps, s, more, later := LateWorkerRevivesFailed(c, g, 0, "evt");
    }
  }

  // ---- verdicts ------------------------------------------------------------------------

  /** The late worker of attempt 1 marks the job Delivered while attempt 2 has barely been claimed. */
  lemma LateWorkerMisattributes(c: Config, g: Regime, t0: int, id: EventId) returns (steps: seq<Step>, s: System)
    requires !g.leased && c.maxAttempts > 1
    ensures Reaches(c, g, t0, steps, s) && id in s.cells
    ensures s.cells[id].job.status == Delivered && s.cells[id].job.attemptCount == 2 && 2 !in s.cells[id].attempts
  {
    steps, s := StallAndSweep(c, g, t0, id, OK_200);
    steps, s := WaitUntil(c, g, t0, steps, s, s.cells[id].job.nextAttemptAt);
    var start := s.cells[id];
    var claimed := ApplyClaim(start, s.now, "worker");
    CellRunCons(c, g, s.now, claimed, WriteJob(0), []);
    CellRunCons(c, g, s.now, start, Claim("worker"), [WriteJob(0)]);
    assert [Claim("worker"), WriteJob(0)] == [Claim("worker")] + ([WriteJob(0)] + []);
    steps, s := ExtendCell(c, g, t0, steps, s, id, [Claim("worker"), WriteJob(0)]);
  }

  /** With one attempt allowed there is one claim, and what its attempt row shows stays. */
  ghost predicate SingleShows(s: Cell) {
    && ClosedRowsShow(s.attempts, s.phases)
    && (s.job.status == DeliveryStatus.Failed ==> s.job.attemptCount >= 1)
    && (s.job.status == Delivered ==>
          && (forall i :: 0 <= i < |s.phases| ==> !IsLive(s.phases[i]))
          && 1 in s.attempts && s.attempts[1].status == Success
          && s.attempts[1].httpStatus.Some? && RetryPolicy.Is2xx(s.attempts[1].httpStatus.value))
  }

  lemma SingleWriteJob(c: Config, g: Regime, now: int, s: Cell, i: nat)
    requires SingleShows(s) && s.job.attemptCount == |s.phases| == 1 && Numbers(1, s.phases, s.attempts.Keys)
    requires CellEnabled(c, g, now, s, WriteJob(i))
    ensures SingleShows(ApplyWriteJob(c, g, s, now, i))
  {
    RetryPolicy.ClassifyMeaning(s.phases[i].result);
  }

  lemma SingleComplete(c: Config, g: Regime, now: int, s: Cell, i: nat)
    requires SingleShows(s) && |s.phases| == 1 && Numbers(1, s.phases, s.attempts.Keys)
    requires CellEnabled(c, g, now, s, Complete(i))
    ensures SingleShows(ApplyComplete(s, now, i))
  {
  }

  lemma SingleRelease(c: Config, g: Regime, now: int, s: Cell, r: nat)
    requires SingleShows(s) && Basic(c, now, s) && CellEnabled(c, g, now, s, Release(r))
    ensures SingleShows(ApplyRelease(c, g, s, r))
  {
    if Rows.CanRelease(s.job, s.recs[r].sweep.seen) {
      SeenIsCurrent(c, now, s, r);
    }
  }

  lemma SingleStart(c: Config, g: Regime, now: int, s: Cell, i: nat)
    requires SingleShows(s) && |s.phases| == 1 && CellEnabled(c, g, now, s, Start(i))
    ensures SingleShows(ApplyStart(s, now, i))
  {
  }

  /** Moving the execution on without touching a row. */
  lemma SingleMove(s: Cell, i: nat, p: Phase)
    requires SingleShows(s) && i < |s.phases| && !p.Closed? && (IsLive(p) ==> IsLive(s.phases[i]))
    ensures SingleShows(s.(phases := s.phases[i := p]))
  {
  }

  lemma SingleCloseAbandoned(c: Config, g: Regime, now: int, s: Cell, r: nat)
    requires SingleShows(s) && CellEnabled(c, g, now, s, CloseAbandoned(r))
    ensures SingleShows(ApplyCloseAbandoned(s, now, r))
  {
  }

  lemma SingleStep(c: Config, g: Regime, now: int, s: Cell, step: CellStep)
    requires c.maxAttempts == 1 && SingleShows(s) && s.job.attemptCount == |s.phases| <= 1
    requires Numbers(|s.phases|, s.phases, s.attempts.Keys)
    requires CellEnabled(c, g, now, s, step) && !step.Release?
    ensures SingleShows(CellApply(c, g, now, s, step))
  {
    match step
    case Load(i) => SingleMove(s, i, Loaded(s.job));
    case Start(i) => SingleStart(c, g, now, s, i);
    case Send(i) => SingleMove(s, i, Sent(s.phases[i].job));
    case Answer(i, result) => SingleMove(s, i, Phase.Answered(s.phases[i].job, result));
    case Complete(i) => SingleComplete(c, g, now, s, i);
    case WriteJob(i) => SingleWriteJob(c, g, now, s, i);
    case WriteEvent(i) => SingleMove(s, i, Settled);
    case Crash(i) => SingleMove(s, i, Crashed);
    case CloseAbandoned(r) => SingleCloseAbandoned(c, g, now, s, r);
    case _ =>
  }

  lemma {:induction false} SingleRun(c: Config, g: Regime, t0: int, steps: seq<Step>, s: System, id: EventId)
    requires c.maxAttempts == 1 && Reaches(c, g, t0, steps, s) && id in s.cells
    ensures SingleShows(s.cells[id])
  {
    if steps != [] {
      var front, last := steps[..|steps| - 1], steps[|steps| - 1];
      var before := Run(c, g, Empty(t0), front).value;
      if id in before.cells {
        SingleRun(c, g, t0, front, before, id);
        Reachability.ReachableCell(c, g, t0, front, before, id);
        ZombieBound(c, g, t0, front, before, id);
        if last.On? && last.id == id {
          if last.step.Release? {
            SingleRelease(c, g, before.now, before.cells[id], last.step.r);
          } else {
            SingleStep(c, g, before.now, before.cells[id], last.step);
          }
        }
      }
    }
  }

  ghost predicate VerdictsJustified(c: Config, g: Regime) {
    forall t0, steps, s, id :: Reaches(c, g, t0, steps, s) && id in s.cells ==>
      Justified(c, s.cells[id].job, s.cells[id].attempts)
  }

  lemma SingleIsJustified(c: Config, g: Regime, t0: int, steps: seq<Step>, s: System, id: EventId)
    requires c.maxAttempts == 1 && Reaches(c, g, t0, steps, s) && id in s.cells
    ensures Justified(c, s.cells[id].job, s.cells[id].attempts)
  {
    SingleRun(c, g, t0, steps, s, id);
    AttemptLogNumbers(c, g, t0, steps, s, id);
    ZombieBound(c, g, t0, steps, s, id);
  }

  /** Terminal statuses are backed by the last attempt exactly under the lease discipline, or with a single attempt. */
  lemma VerdictsJustifiedExactly(c: Config, g: Regime)
    ensures VerdictsJustified(c, g) <==> g.leased || c.maxAttempts == 1
  {
    if g.leased || c.maxAttempts == 1 {
      forall t0, steps, s, id | Reaches(c, g, t0, steps, s) && id in s.cells
        ensures Justified(c, s.cells[id].job, s.cells[id].attempts)
      {
        if g.leased {
          VerdictsAreJustified(c, g, t0, steps, s, id);
        } else {
          SingleIsJustified(c, g, t0, steps, s, id);
        }
      }
    } else {
      var steps, s := LateWorkerMisattributes(c, g, 0, "evt");
    }
  }

  // ---- what needs no lease -----------------------------------------------------------------

  /** An answer of the given class has been received. */
  ghost predicate HasAnswer(s: Cell, outcome: RetryPolicy.Outcome) {
    exists result <- s.answers :: RetryPolicy.Classify(result) == outcome
  }

  /** Executions act on answers received, and terminal statuses come from them or from a spent budget. */
  ghost predicate ActsOnAnswers(c: Config, s: Cell) {
    && (forall i :: 0 <= i < |s.phases| && (s.phases[i].Answered? || s.phases[i].Closed?) ==> s.phases[i].result in s.answers)
    && (Delivered in s.history ==> HasAnswer(s, RetryPolicy.Succeeded))
    && (DeliveryStatus.Failed in s.history ==> s.job.attemptCount >= c.maxAttempts || HasAnswer(s, RetryPolicy.Permanent))
  }

  lemma ActsWriteJob(c: Config, g: Regime, now: int, s: Cell, i: nat)
    requires ActsOnAnswers(c, s) && Numbers(s.job.attemptCount, s.phases, s.attempts.Keys)
    requires CellEnabled(c, g, now, s, WriteJob(i))
    ensures ActsOnAnswers(c, ApplyWriteJob(c, g, s, now, i))
  {
    assert s.phases[i].result in s.answers;
    assert HasAnswer(s, RetryPolicy.Classify(s.phases[i].result));
  }

  lemma ActsRelease(c: Config, g: Regime, now: int, s: Cell, r: nat)
    requires ActsOnAnswers(c, s) && Basic(c, now, s) && CellEnabled(c, g, now, s, Release(r))
    ensures ActsOnAnswers(c, ApplyRelease(c, g, s, r))
  {
    if Rows.CanRelease(s.job, s.recs[r].sweep.seen) {
      SeenIsCurrent(c, now, s, r);
      ActsReleaseWon(c, g, s, r);
    } else {
      assert forall outcome :: HasAnswer(s, outcome) ==> HasAnswer(ApplyRelease(c, g, s, r), outcome);
    }
  }

  lemma ActsReleaseWon(c: Config, g: Regime, s: Cell, r: nat)
    requires ActsOnAnswers(c, s) && r < |s.recs| && s.recs[r].sweep.Swept? && Rows.CanRelease(s.job, s.recs[r].sweep.seen)
    requires s.recs[r].sweep.seen.attemptCount == s.job.attemptCount
    ensures ActsOnAnswers(c, ApplyRelease(c, g, s, r))
  {
    assert forall outcome :: HasAnswer(s, outcome) ==> HasAnswer(ApplyRelease(c, g, s, r), outcome);
  }

  lemma ActsAnswer(c: Config, s: Cell, i: nat, result: WebhookResult)
    requires ActsOnAnswers(c, s) && Exists(s, i) && s.phases[i].Sent?
    ensures ActsOnAnswers(c, ApplyAnswer(s, i, result))
  {
    assert forall outcome :: HasAnswer(s, outcome) ==> HasAnswer(ApplyAnswer(s, i, result), outcome);
  }

  lemma ActsQuiet(c: Config, g: Regime, now: int, s: Cell, step: CellStep)
    requires ActsOnAnswers(c, s) && CellEnabled(c, g, now, s, step)
    requires !step.Answer? && !step.WriteJob? && !step.Release?
    ensures ActsOnAnswers(c, CellApply(c, g, now, s, step))
  {
    assert forall outcome :: HasAnswer(s, outcome) ==> HasAnswer(CellApply(c, g, now, s, step), outcome);
  }

  lemma ActsStep(c: Config, g: Regime, now: int, s: Cell, step: CellStep)
    requires ActsOnAnswers(c, s) && Basic(c, now, s) && CellEnabled(c, g, now, s, step)
    ensures ActsOnAnswers(c, CellApply(c, g, now, s, step))
  {
    if step.Answer? {
      ActsAnswer(c, s, step.i, step.result);
    } else if step.WriteJob? {
      ActsWriteJob(c, g, now, s, step.i);
    } else if step.Release? {
      ActsRelease(c, g, now, s, step.r);
    } else {
      ActsQuiet(c, g, now, s, step);
    }
  }

  lemma {:induction false} ActsRun(c: Config, g: Regime, t0: int, steps: seq<Step>, s: System, id: EventId)
    requires Reaches(c, g, t0, steps, s) && id in s.cells
    ensures ActsOnAnswers(c, s.cells[id])
  {
    if steps != [] {
      var front, last := steps[..|steps| - 1], steps[|steps| - 1];
      var before := Run(c, g, Empty(t0), front).value;
      if id in before.cells {
        ActsRun(c, g, t0, front, before, id);
        if last.On? && last.id == id {
          Reachability.ReachableCell(c, g, t0, front, before, id);
          ActsStep(c, g, before.now, before.cells[id], last.step);
        }
      }
    }
  }

  /**
   * Any regime: a job that was ever Delivered, or whose event row says so, has been answered with a
   * 2xx; and one that was ever Failed below the budget has been answered with a permanent status.
   */
  lemma VerdictsWereAnswered(c: Config, g: Regime, t0: int, steps: seq<Step>, s: System, id: EventId)
    requires Reaches(c, g, t0, steps, s) && id in s.cells
    ensures var cell := s.cells[id];
            Delivered in cell.history || cell.event.status == Delivered ==>
              exists r <- cell.answers :: r.responded && r.httpStatus.Some? && RetryPolicy.Is2xx(r.httpStatus.value)
    ensures var cell := s.cells[id];
            DeliveryStatus.Failed in cell.history && cell.job.attemptCount < c.maxAttempts ==>
              exists r <- cell.answers :: r.responded && r.httpStatus.Some? && RetryPolicy.IsPermanentStatus(r.httpStatus.value)
  {
    ActsRun(c, g, t0, steps, s, id);
    ProjectionIsPast(c, g, t0, steps, s, id);
    forall r <- s.cells[id].answers
      ensures RetryPolicy.Classify(r).Succeeded? ==>
                r.responded && r.httpStatus.Some? && RetryPolicy.Is2xx(r.httpStatus.value)
      ensures RetryPolicy.Classify(r).Permanent? ==>
                r.responded && r.httpStatus.Some? && RetryPolicy.IsPermanentStatus(r.httpStatus.value)
    {
      RetryPolicy.ClassifyMeaning(r);
    }
  }
}
