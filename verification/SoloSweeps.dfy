/**
 * What one sweep at a time per job adds to the lease regime: the attempt log is written once,
 * although attempts.complete carries no guard and closeAbandoned does not look at the job. With a
 * single attempt allowed there is nothing for a second sweep to disturb, and the same holds.
 */
module SoloSweeps {
  import opened DeliveryTypes
  import opened Rows
  import opened Protocol
  import opened AnyRegime
  import opened LeaseRegime

  /** At most one sweep is between reading and releasing, and what it read is still the row. */
  ghost predicate OneSweep(job: Job, recs: seq<Recovery>) {
    && (forall q, r :: 0 <= q < r < |recs| && MidSweep(recs[q]) ==> !MidSweep(recs[r]))
    && (forall r :: 0 <= r < |recs| && MidSweep(recs[r]) ==> recs[r].sweep.seen == job)
  }

  /** A row is open and never written, or closed and written exactly once. */
  ghost predicate ClosedOnce(attempts: map<nat, Attempt>, closings: multiset<nat>) {
    forall n: nat :: closings[n] == if n in attempts && attempts[n].status != InProgress then 1 else 0
  }

  predicate AwaitsAnswer(p: Phase) {
    p.Started? || p.Sent? || p.Answered?
  }

  /** An execution that can still complete its attempt finds it open. */
  ghost predicate LiveOpen(c: Config, now: int, claims: seq<ClaimRecord>, attempts: map<nat, Attempt>,
                           phases: seq<Phase>)
  {
    forall i :: 0 <= i < |phases| && i < |claims| && AwaitsAnswer(phases[i]) && now <= claims[i].at + c.leaseMs ==>
      && phases[i].job.attemptCount in attempts
      && attempts[phases[i].job.attemptCount].status == InProgress
  }

  /** Nothing is written to the attempt log twice. */
  predicate SweepsCannotCollide(c: Config, g: Regime) {
    g.leased && (g.solo || c.maxAttempts == 1)
  }

  ghost predicate WrittenOnce(c: Config, now: int, s: Cell) {
    && ClosedOnce(s.attempts, s.closings)
    && LiveOpen(c, now, s.claims, s.attempts, s.phases)
  }

  // ---- one sweep at a time ----------------------------------------------------------

  /** While an execution may write, no sweep is under way. */
  lemma WriterExcludesSweeps(c: Config, g: Regime, now: int, s: Cell, i: nat)
    requires g.leased && Basic(c, now, s) && Leased(c, now, s) && OneSweep(s.job, s.recs)
    requires Exists(s, i) && HasJob(s.phases[i]) && MayWrite(c, g, now, s, i)
    ensures forall r :: 0 <= r < |s.recs| ==> !MidSweep(s.recs[r])
  {
    WriterOwnsRow(c, g, now, s, i);
    assert forall r :: 0 <= r < |s.recs| && MidSweep(s.recs[r]) ==> SawExpired(c, now, s.claims, s.recs[r]);
  }

  /** A sweep that runs alone never loses the guarded UPDATE. */
  lemma SoloReleaseWins(c: Config, now: int, s: Cell, r: nat)
    requires Sights(c, now, s.claims, s.recs) && OneSweep(s.job, s.recs) && r < |s.recs| && MidSweep(s.recs[r])
    ensures CanRelease(s.job, s.recs[r].sweep.seen)
  {
    assert SawExpired(c, now, s.claims, s.recs[r]);
  }

  lemma OneSweepClaim(c: Config, now: int, s: Cell, worker: string)
    requires Basic(c, now, s) && OneSweep(s.job, s.recs) && CanClaim(s.job, now)
    ensures OneSweep(ClaimRow(s.job, worker, now), s.recs)
  {
    assert forall r :: 0 <= r < |s.recs| && MidSweep(s.recs[r]) ==> SawExpired(c, now, s.claims, s.recs[r]);
  }

  /** The one sweep under way moves on; the job row may change only when the sweep is over. */
  lemma OneSweepMove(job: Job, recs: seq<Recovery>, r: nat, rec: Recovery, job': Job)
    requires OneSweep(job, recs) && r < |recs| && MidSweep(recs[r])
    requires MidSweep(rec) ==> rec.sweep.seen == recs[r].sweep.seen && job' == job
    ensures OneSweep(job', recs[r := rec])
  {
  }

  /** Steps that touch neither the job row nor a sweep under way. */
  lemma OneSweepQuiet(c: Config, g: Regime, now: int, s: Cell, step: CellStep)
    requires OneSweep(s.job, s.recs) && CellEnabled(c, g, now, s, step) && g.solo
    requires !step.Claim? && !step.WriteJob? && !step.Release?
    ensures var s' := CellApply(c, g, now, s, step); OneSweep(s'.job, s'.recs)
  {
    match step
    case CloseAbandoned(r) => OneSweepMove(s.job, s.recs, r, s.recs[r].(sweep := Swept(s.recs[r].sweep.seen)), s.job);
    case CrashRecovery(r) =>
      if MidSweep(s.recs[r]) { OneSweepMove(s.job, s.recs, r, s.recs[r].(sweep := Abandoned), s.job); }
    case _ =>
  }

  lemma OneSweepStep(c: Config, g: Regime, now: int, s: Cell, step: CellStep)
    requires g.leased && g.solo && Basic(c, now, s) && Leased(c, now, s) && OneSweep(s.job, s.recs)
    requires CellEnabled(c, g, now, s, step)
    ensures var s' := CellApply(c, g, now, s, step); OneSweep(s'.job, s'.recs)
  {
    match step
    case Claim(worker) => OneSweepClaim(c, now, s, worker);
    case WriteJob(i) => WriterExcludesSweeps(c, g, now, s, i);
    case Release(r) =>
      var s' := ApplyRelease(c, g, s, r);
      OneSweepMove(s.job, s.recs, r, s'.recs[r], s'.job);
    case _ => OneSweepQuiet(c, g, now, s, step);
  }

  // ---- the log is written once --------------------------------------------------------

  lemma OnceStart(c: Config, g: Regime, now: int, s: Cell, i: nat)
    requires WrittenOnce(c, now, s) && Numbers(|s.claims|, s.phases, s.attempts.Keys)
    requires CellEnabled(c, g, now, s, Start(i))
    ensures WrittenOnce(c, now, ApplyStart(s, now, i))
  {
  }

  lemma OnceComplete(c: Config, g: Regime, now: int, s: Cell, i: nat)
    requires g.leased && WrittenOnce(c, now, s) && Numbers(|s.claims|, s.phases, s.attempts.Keys)
    requires CellEnabled(c, g, now, s, Complete(i))
    ensures WrittenOnce(c, now, ApplyComplete(s, now, i))
  {
  }

  lemma OnceCloseAbandoned(c: Config, g: Regime, now: int, s: Cell, r: nat)
    requires g.leased && Basic(c, now, s) && Leased(c, now, s) && Logged(c, s) && WrittenOnce(c, now, s)
    requires CellEnabled(c, g, now, s, CloseAbandoned(r))
    requires s.recs[r].sweep.seen.attemptCount == |s.claims|
    ensures WrittenOnce(c, now, ApplyCloseAbandoned(s, now, r))
  {
    assert SawExpired(c, now, s.claims, s.recs[r]);
    NobodyAwaits(c, now, s);
    OnceClosed(s.attempts, s.closings, AbandonReason(s.recs[r].sweep.seen), now);
  }

  /** Past the lease of the last claim, no execution that may still write awaits an answer. */
  lemma NobodyAwaits(c: Config, now: int, s: Cell)
    requires Owned(c, now, s.job, s.claims, s.phases) && s.claims != [] && s.claims[|s.claims| - 1].at + c.leaseMs < now
    ensures forall i :: 0 <= i < |s.phases| && i < |s.claims| && AwaitsAnswer(s.phases[i]) ==> s.claims[i].at + c.leaseMs < now
  {
  }

  lemma OnceClosed(attempts: map<nat, Attempt>, closings: multiset<nat>, reason: string, now: int)
    requires ClosedOnce(attempts, closings) && forall n <- attempts :: attempts[n].status == InProgress ==> attempts[n].completedAt.None?
    ensures ClosedOnce(CloseAbandonedRows(attempts, reason, now), closings + multiset(OpenRows(attempts)))
  {
    forall n: nat ensures multiset(OpenRows(attempts))[n] == if n in attempts && IsOpen(attempts[n]) then 1 else 0 {
    }
  }

  lemma OnceMove(c: Config, now: int, s: Cell, i: nat, p: Phase)
    requires LiveOpen(c, now, s.claims, s.attempts, s.phases) && Exists(s, i)
    requires AwaitsAnswer(p) ==> AwaitsAnswer(s.phases[i]) && p.job == s.phases[i].job
    ensures LiveOpen(c, now, s.claims, s.attempts, s.phases[i := p])
  {
  }

  /** What a sweep saw is the latest claim. */
  lemma SeenIsLatest(c: Config, g: Regime, now: int, s: Cell, r: nat)
    requires Basic(c, now, s) && Leased(c, now, s) && SweepsCannotCollide(c, g)
    requires g.solo ==> OneSweep(s.job, s.recs)
    requires r < |s.recs| && MidSweep(s.recs[r])
    ensures s.recs[r].sweep.seen.attemptCount == |s.claims|
  {
    assert SawExpired(c, now, s.claims, s.recs[r]);
  }

  lemma WrittenOnceQuiet(c: Config, g: Regime, now: int, s: Cell, step: CellStep)
    requires g.leased && WrittenOnce(c, now, s) && Numbers(|s.claims|, s.phases, s.attempts.Keys)
    requires CellEnabled(c, g, now, s, step) && !step.CloseAbandoned?
    ensures WrittenOnce(c, now, CellApply(c, g, now, s, step))
  {
    match step
    case Load(i) => OnceMove(c, now, s, i, Loaded(s.job));
    case Start(i) => OnceStart(c, g, now, s, i);
    case Send(i) => OnceMove(c, now, s, i, Sent(s.phases[i].job));
    case Answer(i, result) => OnceMove(c, now, s, i, Answered(s.phases[i].job, result));
    case Complete(i) => OnceComplete(c, g, now, s, i);
    case WriteJob(i) => OnceMove(c, now, s, i, ApplyWriteJob(c, g, s, now, i).phases[i]);
    case WriteEvent(i) => OnceMove(c, now, s, i, Settled);
    case Crash(i) => OnceMove(c, now, s, i, Crashed);
    case _ =>
  }

  lemma WrittenOnceStep(c: Config, g: Regime, now: int, s: Cell, step: CellStep)
    requires SweepsCannotCollide(c, g) && Basic(c, now, s) && Leased(c, now, s) && Logged(c, s)
    requires WrittenOnce(c, now, s) && (g.solo ==> OneSweep(s.job, s.recs))
    requires CellEnabled(c, g, now, s, step)
    ensures WrittenOnce(c, now, CellApply(c, g, now, s, step))
  {
    if step.CloseAbandoned? {
      SeenIsLatest(c, g, now, s, step.r);
      OnceCloseAbandoned(c, g, now, s, step.r);
    } else {
      WrittenOnceQuiet(c, g, now, s, step);
    }
  }
}
