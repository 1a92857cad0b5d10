/**
 * Invariants of the lease-disciplined regime: an execution writes by lockedAt + lease, or never.
 * Configuration does not enforce that, because the lease and the HTTP timeout are read
 * independently; ZombieRegime shows what is left without it.
 */
module LeaseRegime {
  import opened DeliveryTypes
  import opened StatusMachine
  import opened RetryPolicy
  import opened Rows
  import opened Protocol
  import opened AnyRegime

  // ---- the invariants ---------------------------------------------------------

  /** An execution that may still write owns the row: it is the row its own claim left. */
  ghost predicate Owned(c: Config, now: int, job: Job, claims: seq<ClaimRecord>, phases: seq<Phase>) {
    forall i :: 0 <= i < |phases| && i < |claims| && IsLive(phases[i]) && now <= claims[i].at + c.leaseMs ==>
      && i == |claims| - 1
      && job.status == Delivering
      && (HasJob(phases[i]) ==> phases[i].job == job)
  }

  /** claim never checks the budget; the other writes keep every claimable row below it. */
  ghost predicate WithinBudget(c: Config, job: Job) {
    job.attemptCount <= c.maxAttempts && (IsClaimable(job.status) ==> job.attemptCount < c.maxAttempts)
  }

  /** Consecutive claims are at least the configured delay apart. */
  ghost predicate Spaced(c: Config, job: Job, claims: seq<ClaimRecord>) {
    && (forall i :: 0 < i < |claims| ==>
          claims[i - 1].at + DelayAfterAttemptMs(c.delaysMs, i) <= claims[i].at)
    && (job.status == Retrying ==>
          && |claims| > 0
          && claims[|claims| - 1].at + DelayAfterAttemptMs(c.delaysMs, |claims|) <= job.nextAttemptAt)
  }

  /** An open attempt row is the current claim's, and a sweep that closed it left none open. */
  ghost predicate OpenRowsCurrent(job: Job, attempts: map<nat, Attempt>, recs: seq<Recovery>) {
    && (forall n <- attempts :: attempts[n].status == InProgress ==>
          job.status == Delivering && n == job.attemptCount && attempts[n].completedAt.None?)
    && (forall r :: 0 <= r < |recs| && recs[r].sweep.Swept? && recs[r].sweep.seen.attemptCount == job.attemptCount ==>
          forall n <- attempts :: attempts[n].status != InProgress)
  }

  /** The attempt row says what the receiver said. */
  predicate RowShows(row: Attempt, result: WebhookResult) {
    && row.status == (if Classify(result).Succeeded? then Success else AttemptStatus.Failed)
    && row.httpStatus == result.httpStatus
  }

  ghost predicate ClosedRowsShow(attempts: map<nat, Attempt>, phases: seq<Phase>) {
    forall i :: 0 <= i < |phases| && phases[i].Closed? ==>
      && phases[i].job.attemptCount in attempts
      && RowShows(attempts[phases[i].job.attemptCount], phases[i].result)
  }

  /** A terminal status is backed by the last attempt row, or by a spent budget. */
  ghost predicate Justified(c: Config, job: Job, attempts: map<nat, Attempt>) {
    && (job.status == Delivered ==>
          && job.attemptCount in attempts
          && attempts[job.attemptCount].status == Success
          && attempts[job.attemptCount].httpStatus.Some?
          && Is2xx(attempts[job.attemptCount].httpStatus.value))
    && (job.status == DeliveryStatus.Failed && job.attemptCount < c.maxAttempts ==>
          && job.attemptCount in attempts
          && attempts[job.attemptCount].status == AttemptStatus.Failed
          && attempts[job.attemptCount].httpStatus.Some?
          && IsPermanentStatus(attempts[job.attemptCount].httpStatus.value))
  }

  /** Claims, settling writes and releases still to come, at most. */
  function Remaining(c: Config, job: Job): nat {
    if IsTerminal(job.status) || job.attemptCount > c.maxAttempts then 0
    else 2 * (c.maxAttempts - job.attemptCount) + (if job.status == Delivering then 1 else 0)
  }

  ghost predicate Leased(c: Config, now: int, s: Cell) {
    && Owned(c, now, s.job, s.claims, s.phases)
    && WithinBudget(c, s.job)
    && IsPath(s.history)
    && Spaced(c, s.job, s.claims)
    && s.progress + Remaining(c, s.job) <= 2 * c.maxAttempts
  }

  ghost predicate Logged(c: Config, s: Cell) {
    && OpenRowsCurrent(s.job, s.attempts, s.recs)
    && ClosedRowsShow(s.attempts, s.phases)
    && Justified(c, s.job, s.attempts)
  }

  // ---- preservation -------------------------------------------------------------

  /**
   * Every write an execution makes finds the row still as its own claim left it: Delivering,
   * with its own attempt number, lock time and worker, and equal to the snapshot it carries.
   */
  lemma WriterOwnsRow(c: Config, g: Regime, now: int, s: Cell, i: nat)
    requires g.leased && Basic(c, now, s) && Leased(c, now, s)
    requires Exists(s, i) && HasJob(s.phases[i]) && MayWrite(c, g, now, s, i)
    ensures s.job.status == Delivering && s.job == s.phases[i].job
    ensures s.job.attemptCount == i + 1 == |s.claims|
    ensures s.job.lockedAt == Some(s.claims[i].at) && s.job.lockedBy == Some(s.claims[i].worker)
  {
  }

  lemma LeasedClaim(c: Config, g: Regime, now: int, s: Cell, worker: string)
    requires Leased(c, now, s) && CanClaim(s.job, now) && s.job.attemptCount == |s.claims| == |s.phases|
    requires (s.job.status == Pending ==> s.claims == []) && s.history != [] && s.history[|s.history| - 1] == s.job.status
    ensures Leased(c, now, ApplyClaim(s, now, worker))
  {
    ClaimedRow(c, s.job, s.claims, worker, now);
    PathGrows(s.history, Delivering);
  }

  /** The claimed row is within budget, waited out its delay, and is one move nearer its end. */
  lemma ClaimedRow(c: Config, job: Job, claims: seq<ClaimRecord>, worker: string, now: int)
    requires WithinBudget(c, job) && Spaced(c, job, claims) && CanClaim(job, now) && job.attemptCount == |claims|
    requires job.status == Pending ==> claims == []
    ensures var row := ClaimRow(job, worker, now);
            WithinBudget(c, row) && Spaced(c, row, claims + [ClaimRecord(worker, now)])
            && Remaining(c, row) < Remaining(c, job)
  {
  }

  /** The settled row is within budget, due no earlier than its delay, and one move nearer its end. */
  lemma SettledRow(c: Config, job: Job, claims: seq<ClaimRecord>, result: WebhookResult, now: int)
    requires WithinBudget(c, job) && Spaced(c, job, claims) && job.status == Delivering
    requires job.attemptCount == |claims| >= 1 && claims[|claims| - 1].at <= now
    ensures var n := job.attemptCount;
            var row := TransitionRow(job, Verdict(c, n, result), VerdictNext(c, n, result, now));
            && WithinBudget(c, row) && Spaced(c, row, claims) && Remaining(c, row) < Remaining(c, job)
            && CanTransition(Delivering, row.status)
  {
  }

  /** Once the last execution has written the job, nobody is left who may. */
  lemma OwnedAfterSettle(c: Config, now: int, job: Job, claims: seq<ClaimRecord>, phases: seq<Phase>, i: nat, p: Phase, job': Job)
    requires Owned(c, now, job, claims, phases) && i == |claims| - 1 == |phases| - 1 && !IsLive(p)
    ensures Owned(c, now, job', claims, phases[i := p])
  {
  }

  lemma LeasedWriteJob(c: Config, g: Regime, now: int, s: Cell, i: nat)
    requires g.leased && Basic(c, now, s) && Leased(c, now, s)
    requires CellEnabled(c, g, now, s, WriteJob(i))
    ensures Leased(c, now, ApplyWriteJob(c, g, s, now, i))
  {
    WriterOwnsRow(c, g, now, s, i);
    LeasedSettle(c, g, now, s, i);
  }

  lemma LeasedSettle(c: Config, g: Regime, now: int, s: Cell, i: nat)
    requires Leased(c, now, s) && Exists(s, i) && s.phases[i].Closed? && s.phases[i].job == s.job && s.job.status == Delivering
    requires s.job.attemptCount == i + 1 == |s.claims| == |s.phases| && s.claims[i].at <= now
    requires s.history != [] && s.history[|s.history| - 1] == Delivering
    ensures Leased(c, now, ApplyWriteJob(c, g, s, now, i))
  {
    var s' := ApplyWriteJob(c, g, s, now, i);
    SettledRow(c, s.job, s.claims, s.phases[i].result, now);
    OwnedAfterSettle(c, now, s.job, s.claims, s.phases, i, s'.phases[i], s'.job);
    PathGrows(s.history, s'.job.status);
  }

  /** Once a sweep may release the row, the lease of every execution that had it is over. */
  lemma OwnedByNobody(c: Config, now: int, job: Job, claims: seq<ClaimRecord>, phases: seq<Phase>, job': Job)
    requires Owned(c, now, job, claims, phases) && |phases| == |claims| && claims != []
    requires claims[|claims| - 1].at + c.leaseMs < now
    ensures Owned(c, now, job', claims, phases)
  {
  }

  /** The released row is within budget, due no earlier than its delay, and one move nearer its end. */
  lemma ReleasedRow(c: Config, job: Job, claims: seq<ClaimRecord>, seen: Job, at: int)
    requires WithinBudget(c, job) && Spaced(c, job, claims) && job.status == Delivering
    requires job.attemptCount == seen.attemptCount == |claims| && claims != [] && claims[|claims| - 1].at <= at
    ensures var row := ReleaseRow(job, ReleaseTarget(c, seen, at));
            WithinBudget(c, row) && Spaced(c, row, claims) && Remaining(c, row) < Remaining(c, job)
  {
  }

  lemma LeasedRelease(c: Config, g: Regime, now: int, s: Cell, r: nat)
    requires g.leased && Basic(c, now, s) && Leased(c, now, s)
    requires CellEnabled(c, g, now, s, Release(r)) && CanRelease(s.job, s.recs[r].sweep.seen)
    ensures Leased(c, now, ApplyRelease(c, g, s, r))
  {
    SeenIsCurrent(c, now, s, r);
    LeasedRequeue(c, g, now, s, r);
  }

  lemma LeasedRequeue(c: Config, g: Regime, now: int, s: Cell, r: nat)
    requires Leased(c, now, s) && r < |s.recs| && s.recs[r].sweep.Swept? && CanRelease(s.job, s.recs[r].sweep.seen)
    requires s.recs[r].sweep.seen.attemptCount == s.job.attemptCount == |s.claims| == |s.phases| >= 1
    requires s.claims[|s.claims| - 1].at + c.leaseMs < s.recs[r].now <= now
    requires s.history != [] && s.history[|s.history| - 1] == Delivering
    ensures Leased(c, now, ApplyRelease(c, g, s, r))
  {
    var s' := ApplyRelease(c, g, s, r);
    OwnedByNobody(c, now, s.job, s.claims, s.phases, s'.job);
    ReleasedRow(c, s.job, s.claims, s.recs[r].sweep.seen, s.recs[r].now);
    PathGrows(s.history, s'.job.status);
  }

  lemma PathGrows(history: seq<DeliveryStatus>, st: DeliveryStatus)
    requires IsPath(history) && history != [] && CanTransition(history[|history| - 1], st)
    ensures IsPath(history + [st])
  {
  }

  /** Moving one execution on, without a new snapshot of the row. */
  lemma LeasedMove(c: Config, now: int, s: Cell, i: nat, p: Phase)
    requires Basic(c, now, s) && Leased(c, now, s) && Exists(s, i)
    requires IsLive(p) ==> HasJob(p) && IsLive(s.phases[i])
    requires HasJob(p) ==> p.job == if s.phases[i].Claimed? then s.job else s.phases[i].job
    ensures Owned(c, now, s.job, s.claims, s.phases[i := p])
  {
  }

  /** Steps that leave the job row, its claims and its history alone. */
  lemma OwnedQuiet(c: Config, g: Regime, now: int, s: Cell, step: CellStep)
    requires Basic(c, now, s) && Leased(c, now, s) && CellEnabled(c, g, now, s, step)
    requires !step.Claim? && !step.WriteJob? && !step.Release?
    ensures var s' := CellApply(c, g, now, s, step); Owned(c, now, s'.job, s'.claims, s'.phases)
  {
    match step
    case Load(i) => LeasedMove(c, now, s, i, Loaded(s.job));
    case Start(i) =>
      LeasedMove(c, now, s, i, Crashed);
      LeasedMove(c, now, s, i, Started(s.phases[i].job));
    case Send(i) => LeasedMove(c, now, s, i, Sent(s.phases[i].job));
    case Answer(i, result) => LeasedMove(c, now, s, i, Answered(s.phases[i].job, result));
    case Complete(i) => LeasedMove(c, now, s, i, Closed(s.phases[i].job, s.phases[i].result));
    case WriteEvent(i) => LeasedMove(c, now, s, i, Settled);
    case Crash(i) => LeasedMove(c, now, s, i, Crashed);
    case _ =>
  }

  lemma LeasedStep(c: Config, g: Regime, now: int, s: Cell, step: CellStep)
    requires g.leased && Basic(c, now, s) && Leased(c, now, s) && CellEnabled(c, g, now, s, step)
    ensures Leased(c, now, CellApply(c, g, now, s, step))
  {
    if step.Claim? {
      LeasedClaim(c, g, now, s, step.worker);
    } else if step.WriteJob? {
      LeasedWriteJob(c, g, now, s, step.i);
    } else if step.Release? {
      if CanRelease(s.job, s.recs[step.r].sweep.seen) {
        LeasedRelease(c, g, now, s, step.r);
      }
    } else {
      OwnedQuiet(c, g, now, s, step);
    }
  }

  // ---- the attempt log and the verdicts -------------------------------------------

  lemma LoggedClaim(c: Config, g: Regime, now: int, s: Cell, worker: string)
    requires g.leased && Basic(c, now, s) && Leased(c, now, s) && Logged(c, s)
    requires CellEnabled(c, g, now, s, Claim(worker))
    ensures Logged(c, ApplyClaim(s, now, worker))
  {
    assert forall r :: 0 <= r < |s.recs| && s.recs[r].sweep.Swept? ==> SawExpired(c, now, s.claims, s.recs[r]);
  }

  lemma LoggedStart(c: Config, g: Regime, now: int, s: Cell, i: nat)
    requires g.leased && Basic(c, now, s) && Leased(c, now, s) && Logged(c, s)
    requires CellEnabled(c, g, now, s, Start(i))
    ensures Logged(c, ApplyStart(s, now, i))
  {
    WriterOwnsRow(c, g, now, s, i);
    assert forall r :: 0 <= r < |s.recs| && s.recs[r].sweep.Swept? ==> SawExpired(c, now, s.claims, s.recs[r]);
  }

  lemma LoggedComplete(c: Config, g: Regime, now: int, s: Cell, i: nat)
    requires g.leased && Basic(c, now, s) && Leased(c, now, s) && Logged(c, s)
    requires CellEnabled(c, g, now, s, Complete(i))
    ensures Logged(c, ApplyComplete(s, now, i))
  {
    WriterOwnsRow(c, g, now, s, i);
  }

  lemma LoggedWriteJob(c: Config, g: Regime, now: int, s: Cell, i: nat)
    requires g.leased && Basic(c, now, s) && Leased(c, now, s) && Logged(c, s)
    requires CellEnabled(c, g, now, s, WriteJob(i))
    ensures Logged(c, ApplyWriteJob(c, g, s, now, i))
  {
    WriterOwnsRow(c, g, now, s, i);
    ClassifyMeaning(s.phases[i].result);
  }

  lemma LoggedCloseAbandoned(c: Config, g: Regime, now: int, s: Cell, r: nat)
    requires g.leased && Basic(c, now, s) && Leased(c, now, s) && Logged(c, s)
    requires CellEnabled(c, g, now, s, CloseAbandoned(r))
    ensures Logged(c, ApplyCloseAbandoned(s, now, r))
  {
  }

  lemma LoggedRelease(c: Config, g: Regime, now: int, s: Cell, r: nat)
    requires g.leased && Basic(c, now, s) && Leased(c, now, s) && Logged(c, s)
    requires CellEnabled(c, g, now, s, Release(r)) && CanRelease(s.job, s.recs[r].sweep.seen)
    ensures Logged(c, ApplyRelease(c, g, s, r))
  {
    SeenIsCurrent(c, now, s, r);
  }

  /** Moving one execution on, without closing its attempt. */
  lemma LoggedMove(s: Cell, i: nat, p: Phase)
    requires ClosedRowsShow(s.attempts, s.phases) && Exists(s, i) && !p.Closed?
    ensures ClosedRowsShow(s.attempts, s.phases[i := p])
  {
  }

  /** Moving one sweep on, or starting one, without closing any attempt. */
  lemma LoggedSweep(s: Cell, r: nat, rec: Recovery)
    requires OpenRowsCurrent(s.job, s.attempts, s.recs) && !rec.sweep.Swept?
    ensures OpenRowsCurrent(s.job, s.attempts, s.recs + [rec])
    ensures r < |s.recs| ==> OpenRowsCurrent(s.job, s.attempts, s.recs[r := rec])
  {
  }

  lemma LoggedStep(c: Config, g: Regime, now: int, s: Cell, step: CellStep)
    requires g.leased && Basic(c, now, s) && Leased(c, now, s) && Logged(c, s)
    requires CellEnabled(c, g, now, s, step)
    ensures Logged(c, CellApply(c, g, now, s, step))
  {
    match step
    case Claim(worker) => LoggedClaim(c, g, now, s, worker);
    case Load(i) => LoggedMove(s, i, Loaded(s.job));
    case Start(i) => LoggedStart(c, g, now, s, i);
    case Send(i) => LoggedMove(s, i, Sent(s.phases[i].job));
    case Answer(i, result) => LoggedMove(s, i, Answered(s.phases[i].job, result));
    case Complete(i) => LoggedComplete(c, g, now, s, i);
    case WriteJob(i) => LoggedWriteJob(c, g, now, s, i);
    case WriteEvent(i) => LoggedMove(s, i, Settled);
    case Crash(i) => LoggedMove(s, i, Crashed);
    case ReadStale(pass, at) => LoggedSweep(s, 0, Recovery(pass, at, Seen(s.job)));
    case CloseAbandoned(r) => LoggedCloseAbandoned(c, g, now, s, r);
    case Release(r) =>
      if CanRelease(s.job, s.recs[r].sweep.seen) {
        LoggedRelease(c, g, now, s, r);
      } else {
        LoggedSweep(s, r, s.recs[r].(sweep := Lost));
      }
    case WriteReleased(r) => LoggedSweep(s, r, s.recs[r].(sweep := Recovered(s.recs[r].sweep.number)));
    case CrashRecovery(r) => LoggedSweep(s, r, s.recs[r].(sweep := AfterDeath(s.recs[r].sweep)));
  }
}
