/** Invariants that hold with no assumption at all: workers may be slow, late or dead. */
module AnyRegime {
  import opened DeliveryTypes
  import StatusMachine
  import opened Rows
  import opened Protocol

  /** The execution has inserted its attempt row and has not yet written the job. */
  predicate IsActive(p: Phase) {
    p.Started? || p.Sent? || p.Answered? || p.Closed?
  }

  predicate HasJob(p: Phase) {
    p.Loaded? || IsActive(p)
  }

  /** The execution may still write the job row. */
  predicate IsLive(p: Phase) {
    p.Claimed? || HasJob(p)
  }

  // ---- the invariants ---------------------------------------------------------

  /** Claims are numbered by attemptCount, and the lock columns are set exactly while Delivering. */
  ghost predicate Claims(now: int, job: Job, claims: seq<ClaimRecord>, numbers: set<nat>) {
    && job.attemptCount == |claims|
    && (job.lockedAt.Some? <==> job.status == Delivering)
    && (job.lockedBy.Some? <==> job.status == Delivering)
    && (job.status == Delivering ==>
          && |claims| > 0
          && job.lockedAt.value == claims[|claims| - 1].at
          && job.lockedBy.value == claims[|claims| - 1].worker)
    && (job.status == Pending ==> claims == [])
    && (forall i :: 0 <= i < |claims| ==> claims[i].at <= now)
    && (forall i, j :: 0 <= i < j < |claims| ==> claims[i].at <= claims[j].at)
    && (forall n <- numbers :: 1 <= n <= |claims|)
  }

  /** Each attempt number is carried past the INSERT by at most one execution. */
  ghost predicate Numbers(count: nat, phases: seq<Phase>, numbers: set<nat>) {
    && (forall i :: 0 <= i < |phases| && HasJob(phases[i]) ==> i + 1 <= phases[i].job.attemptCount <= count)
    && (forall i :: 0 <= i < |phases| && IsActive(phases[i]) ==> phases[i].job.attemptCount in numbers)
    && (forall i, j :: 0 <= i < j < |phases| && IsActive(phases[i]) && IsActive(phases[j]) ==>
          phases[i].job.attemptCount != phases[j].job.attemptCount)
  }

  /** What a sweep saw is one expired claim, and no later claim can carry the same lockedAt. */
  ghost predicate SawExpired(c: Config, now: int, claims: seq<ClaimRecord>, r: Recovery)
    requires MidSweep(r)
  {
    var k := r.sweep.seen.attemptCount;
    && r.sweep.seen.status == Delivering
    && 1 <= k <= |claims|
    && r.sweep.seen.lockedAt == Some(claims[k - 1].at)
    && claims[k - 1].at + c.leaseMs < r.now <= now
    && (k < |claims| ==> r.now <= claims[k].at)
  }

  /** The sweep's UPDATE has released the row, whether or not its pass ever gets to count it. */
  predicate HasReleased(r: Recovery) {
    r.sweep.Released? || r.sweep.Recovered? || r.sweep.Torn?
  }

  ghost predicate Sights(c: Config, now: int, claims: seq<ClaimRecord>, recs: seq<Recovery>) {
    forall r :: 0 <= r < |recs| && MidSweep(recs[r]) ==> SawExpired(c, now, claims, recs[r])
  }

  /** Each claim is released by at most one sweep. */
  ghost predicate Releases(status: DeliveryStatus, count: nat, recs: seq<Recovery>) {
    && (forall r :: 0 <= r < |recs| && HasReleased(recs[r]) ==>
          1 <= recs[r].sweep.number <= count && (recs[r].sweep.number == count ==> status != Delivering))
    && (forall q, r :: 0 <= q < r < |recs| && HasReleased(recs[q]) && HasReleased(recs[r]) ==>
          recs[q].sweep.number != recs[r].sweep.number)
  }

  /** The event row and every pending event write hold a status the job has held. */
  ghost predicate Projected(status: DeliveryStatus, shown: DeliveryStatus, history: seq<DeliveryStatus>,
                            phases: seq<Phase>, recs: seq<Recovery>)
  {
    && |history| > 0 && history[|history| - 1] == status && history[0] == Pending
    && shown in history && shown != Delivering
    && (forall i :: 0 <= i < |phases| && phases[i].Written? ==>
          phases[i].status in history && phases[i].status != Delivering)
    && (forall r :: 0 <= r < |recs| && recs[r].sweep.Released? ==>
          recs[r].sweep.next in history && recs[r].sweep.next != Delivering)
  }

  /** Every attempt number is sent to the receiver at most once. */
  ghost predicate Requests(sent: multiset<nat>, phases: seq<Phase>, numbers: set<nat>) {
    && (forall n <- sent :: sent[n] == 1 && n in numbers)
    && (forall i :: 0 <= i < |phases| && phases[i].Started? ==> phases[i].job.attemptCount !in sent)
  }

  /** Attempt numbers whose execution, or whose recovery, put the job back in the queue. */
  ghost predicate RetriedNumbers(c: Config, status: DeliveryStatus, count: nat, phases: seq<Phase>,
                                 numbers: set<nat>, bySettle: set<nat>, byRelease: set<nat>)
  {
    && (forall k <- bySettle :: 1 <= k < c.maxAttempts && k in numbers)
    && (forall i :: 0 <= i < |phases| && IsActive(phases[i]) ==> phases[i].job.attemptCount !in bySettle)
    && (forall k <- byRelease :: 1 <= k < c.maxAttempts && k <= count && (k == count ==> status != Delivering))
  }

  /** Every claim after the first was paid for by one Retrying write. */
  ghost predicate ClaimsPaid(status: DeliveryStatus, count: nat, bySettle: set<nat>, byRelease: set<nat>) {
    count + (if StatusMachine.IsClaimable(status) then 1 else 0) <= 1 + |bySettle| + |byRelease|
  }

  /** What the rows, the claims, the executions and the sweeps say about each other. */
  ghost predicate Coherent(c: Config, now: int, s: Cell) {
    && |s.phases| == |s.claims|
    && Claims(now, s.job, s.claims, s.attempts.Keys)
    && Numbers(|s.claims|, s.phases, s.attempts.Keys)
    && Sights(c, now, s.claims, s.recs)
    && Releases(s.job.status, |s.claims|, s.recs)
  }

  /** What the history variables say about them. */
  ghost predicate Accounted(c: Config, s: Cell) {
    && Projected(s.job.status, s.event.status, s.history, s.phases, s.recs)
    && Requests(s.sent, s.phases, s.attempts.Keys)
    && RetriedNumbers(c, s.job.status, |s.claims|, s.phases, s.attempts.Keys, s.retriedBySettle, s.retriedByRelease)
    && ClaimsPaid(s.job.status, |s.claims|, s.retriedBySettle, s.retriedByRelease)
  }

  ghost predicate Basic(c: Config, now: int, s: Cell) {
    Coherent(c, now, s) && Accounted(c, s)
  }

  // ---- preservation -------------------------------------------------------------

  lemma BasicClaim(c: Config, g: Regime, now: int, s: Cell, worker: string)
    requires Basic(c, now, s) && CellEnabled(c, g, now, s, Claim(worker))
    ensures Basic(c, now, ApplyClaim(s, now, worker))
  {
    CoherentClaim(c, now, s, worker);
    AccountedClaim(c, now, s, worker);
  }

  lemma CoherentClaim(c: Config, now: int, s: Cell, worker: string)
    requires Coherent(c, now, s) && CanClaim(s.job, now)
    ensures Coherent(c, now, ApplyClaim(s, now, worker))
  {
  }

  lemma AccountedClaim(c: Config, now: int, s: Cell, worker: string)
    requires Accounted(c, s) && CanClaim(s.job, now) && s.job.attemptCount == |s.claims| == |s.phases|
    ensures Accounted(c, ApplyClaim(s, now, worker))
  {
  }

  lemma NumbersStart(count: nat, phases: seq<Phase>, numbers: set<nat>, i: nat)
    requires Numbers(count, phases, numbers) && i < |phases| && phases[i].Loaded?
    requires phases[i].job.attemptCount !in numbers
    ensures Numbers(count, phases[i := Started(phases[i].job)], numbers + {phases[i].job.attemptCount})
  {
  }

  lemma BasicStart(c: Config, g: Regime, now: int, s: Cell, i: nat)
    requires Basic(c, now, s) && CellEnabled(c, g, now, s, Start(i))
    ensures Basic(c, now, ApplyStart(s, now, i))
  {
    if s.phases[i].job.attemptCount in s.attempts {
      MoveKeeps(c, now, s, i, Crashed);
    } else {
      CoherentStart(c, now, s, i);
      AccountedStart(c, now, s, i);
    }
  }

  lemma CoherentStart(c: Config, now: int, s: Cell, i: nat)
    requires Coherent(c, now, s) && Exists(s, i) && s.phases[i].Loaded? && s.phases[i].job.attemptCount !in s.attempts
    ensures Coherent(c, now, ApplyStart(s, now, i))
  {
    NumbersStart(|s.claims|, s.phases, s.attempts.Keys, i);
    assert ApplyStart(s, now, i).attempts.Keys == s.attempts.Keys + {s.phases[i].job.attemptCount};
  }

  lemma AccountedStart(c: Config, now: int, s: Cell, i: nat)
    requires Accounted(c, s) && Exists(s, i) && s.phases[i].Loaded? && s.phases[i].job.attemptCount !in s.attempts
    ensures Accounted(c, ApplyStart(s, now, i))
  {
    var s' := ApplyStart(s, now, i);
    assert s'.attempts.Keys == s.attempts.Keys + {s.phases[i].job.attemptCount};
    ProjectedMove(s.job.status, s.event.status, s.history, s.phases, s.recs, i, s'.phases[i]);
  }

  lemma BasicSend(c: Config, g: Regime, now: int, s: Cell, i: nat)
    requires Basic(c, now, s) && CellEnabled(c, g, now, s, Send(i))
    ensures Basic(c, now, ApplySend(s, i))
  {
  }

  lemma BasicComplete(c: Config, g: Regime, now: int, s: Cell, i: nat)
    requires Basic(c, now, s) && CellEnabled(c, g, now, s, Complete(i))
    ensures Basic(c, now, ApplyComplete(s, now, i))
  {
  }

  lemma BasicWriteJob(c: Config, g: Regime, now: int, s: Cell, i: nat)
    requires Basic(c, now, s) && CellEnabled(c, g, now, s, WriteJob(i))
    ensures Basic(c, now, ApplyWriteJob(c, g, s, now, i))
  {
    CoherentWriteJob(c, g, now, s, i);
    AccountedWriteJob(c, g, now, s, i);
  }

  lemma CoherentWriteJob(c: Config, g: Regime, now: int, s: Cell, i: nat)
    requires Coherent(c, now, s) && Exists(s, i) && s.phases[i].Closed?
    ensures Coherent(c, now, ApplyWriteJob(c, g, s, now, i))
  {
    NumbersMove(|s.claims|, s.phases, s.attempts.Keys, i, ApplyWriteJob(c, g, s, now, i).phases[i]);
  }

  lemma AccountedWriteJob(c: Config, g: Regime, now: int, s: Cell, i: nat)
    requires Accounted(c, s) && Exists(s, i) && s.phases[i].Closed? && s.phases[i].job.attemptCount >= 1
    requires Numbers(|s.claims|, s.phases, s.attempts.Keys)
    ensures Accounted(c, ApplyWriteJob(c, g, s, now, i))
  {
    var s' := ApplyWriteJob(c, g, s, now, i);
    var st := s'.job.status;
    ProjectedWrite(s.job.status, s.event.status, s.history, s.phases, s.recs, st);
    ProjectedMove(st, s'.event.status, s'.history, s.phases, s.recs, i, s'.phases[i]);
    assert Requests(s.sent, s'.phases, s.attempts.Keys);
    if st == Retrying {
      RetriedBySettle(c, s.job.status, |s.claims|, s.phases, s.attempts.Keys, s.retriedBySettle, s.retriedByRelease,
                      i, s'.phases[i]);
    } else {
      assert s'.retriedBySettle == s.retriedBySettle;
    }
  }

  lemma RetriedBySettle(c: Config, status: DeliveryStatus, count: nat, phases: seq<Phase>, numbers: set<nat>,
                        bySettle: set<nat>, byRelease: set<nat>, i: nat, p: Phase)
    requires RetriedNumbers(c, status, count, phases, numbers, bySettle, byRelease)
    requires ClaimsPaid(status, count, bySettle, byRelease) && Numbers(count, phases, numbers)
    requires i < |phases| && IsActive(phases[i]) && 1 <= phases[i].job.attemptCount < c.maxAttempts && !IsActive(p)
    ensures var more := bySettle + {phases[i].job.attemptCount};
            && RetriedNumbers(c, Retrying, count, phases[i := p], numbers, more, byRelease)
            && ClaimsPaid(Retrying, count, more, byRelease)
  {
    assert phases[i].job.attemptCount !in bySettle;
  }

  lemma BasicCloseAbandoned(c: Config, g: Regime, now: int, s: Cell, r: nat)
    requires Basic(c, now, s) && CellEnabled(c, g, now, s, CloseAbandoned(r))
    ensures Basic(c, now, ApplyCloseAbandoned(s, now, r))
  {
    SweepKeeps(c, now, s, r, Swept(s.recs[r].sweep.seen));
    assert ApplyCloseAbandoned(s, now, r).attempts.Keys == s.attempts.Keys;
  }

  /** No ABA: a row that still carries the lockedAt a sweep saw is the row of the same claim. */
  lemma SeenIsCurrent(c: Config, now: int, s: Cell, r: nat)
    requires Basic(c, now, s) && r < |s.recs| && MidSweep(s.recs[r])
    requires CanRelease(s.job, s.recs[r].sweep.seen)
    ensures s.recs[r].sweep.seen.attemptCount == s.job.attemptCount
    ensures s.job.lockedAt.value + c.leaseMs < s.recs[r].now <= now
  {
    assert SawExpired(c, now, s.claims, s.recs[r]);
  }

  /** A job write appends its status; the event row may follow at once. */
  lemma ProjectedWrite(status: DeliveryStatus, shown: DeliveryStatus, history: seq<DeliveryStatus>,
                       phases: seq<Phase>, recs: seq<Recovery>, st: DeliveryStatus)
    requires Projected(status, shown, history, phases, recs)
    ensures Projected(st, shown, history + [st], phases, recs)
    ensures st != Delivering ==> Projected(st, st, history + [st], phases, recs)
  {
    assert (history + [st])[|history|] == st;
  }

  lemma ProjectedMove(status: DeliveryStatus, shown: DeliveryStatus, history: seq<DeliveryStatus>,
                      phases: seq<Phase>, recs: seq<Recovery>, i: nat, p: Phase)
    requires Projected(status, shown, history, phases, recs) && i < |phases|
    requires p.Written? ==> p.status in history && p.status != Delivering
    ensures Projected(status, shown, history, phases[i := p], recs)
  {
  }

  lemma ProjectedSweep(status: DeliveryStatus, shown: DeliveryStatus, history: seq<DeliveryStatus>,
                       phases: seq<Phase>, recs: seq<Recovery>, r: nat, rec: Recovery)
    requires Projected(status, shown, history, phases, recs) && r < |recs|
    requires rec.sweep.Released? ==> rec.sweep.next in history && rec.sweep.next != Delivering
    ensures Projected(status, shown, history, phases, recs[r := rec])
  {
  }

  lemma RetriedMore(c: Config, status: DeliveryStatus, count: nat, phases: seq<Phase>, numbers: set<nat>,
                    bySettle: set<nat>, byRelease: set<nat>, st: DeliveryStatus)
    requires RetriedNumbers(c, Delivering, count, phases, numbers, bySettle, byRelease)
    requires ClaimsPaid(Delivering, count, bySettle, byRelease)
    requires 1 <= count < c.maxAttempts && st != Delivering
    ensures RetriedNumbers(c, st, count, phases, numbers, bySettle, byRelease + {count})
    ensures ClaimsPaid(st, count, bySettle, byRelease + {count})
  {
    assert count !in byRelease;
  }

  lemma SightsMove(c: Config, now: int, claims: seq<ClaimRecord>, recs: seq<Recovery>, r: nat, rec: Recovery)
    requires Sights(c, now, claims, recs) && r < |recs|
    requires MidSweep(rec) ==> MidSweep(recs[r]) && rec.now == recs[r].now && rec.sweep.seen == recs[r].sweep.seen
    ensures Sights(c, now, claims, recs[r := rec])
  {
  }

  lemma ReleasesRelease(status: DeliveryStatus, count: nat, recs: seq<Recovery>, r: nat, rec: Recovery)
    requires Releases(Delivering, count, recs) && r < |recs| && MidSweep(recs[r])
    requires HasReleased(rec) && rec.sweep.number == count && status != Delivering && count >= 1
    ensures Releases(status, count, recs[r := rec])
  {
  }

  lemma BasicReleaseWon(c: Config, g: Regime, now: int, s: Cell, r: nat)
    requires Basic(c, now, s) && CellEnabled(c, g, now, s, Release(r))
    requires CanRelease(s.job, s.recs[r].sweep.seen)
    ensures Basic(c, now, ApplyRelease(c, g, s, r))
  {
    SeenIsCurrent(c, now, s, r);
    CoherentReleaseWon(c, g, now, s, r);
    AccountedReleaseWon(c, g, s, r);
  }

  lemma CoherentReleaseWon(c: Config, g: Regime, now: int, s: Cell, r: nat)
    requires Coherent(c, now, s) && r < |s.recs| && s.recs[r].sweep.Swept? && CanRelease(s.job, s.recs[r].sweep.seen)
    requires s.recs[r].sweep.seen.attemptCount == s.job.attemptCount
    ensures Coherent(c, now, ApplyRelease(c, g, s, r))
  {
    var s' := ApplyRelease(c, g, s, r);
    SightsMove(c, now, s.claims, s.recs, r, s'.recs[r]);
    ReleasesRelease(s'.job.status, s.job.attemptCount, s.recs, r, s'.recs[r]);
  }

  lemma AccountedReleaseWon(c: Config, g: Regime, s: Cell, r: nat)
    requires Accounted(c, s) && r < |s.recs| && s.recs[r].sweep.Swept? && CanRelease(s.job, s.recs[r].sweep.seen)
    requires s.recs[r].sweep.seen.attemptCount == s.job.attemptCount == |s.claims| >= 1
    ensures Accounted(c, ApplyRelease(c, g, s, r))
  {
    var s' := ApplyRelease(c, g, s, r);
    var st := s'.job.status;
    ProjectedWrite(Delivering, s.event.status, s.history, s.phases, s.recs, st);
    ProjectedSweep(st, s'.event.status, s'.history, s.phases, s.recs, r, s'.recs[r]);
    if st == Retrying {
      RetriedMore(c, st, s.job.attemptCount, s.phases, s.attempts.Keys, s.retriedBySettle, s.retriedByRelease, st);
    } else {
      assert s'.retriedByRelease == s.retriedByRelease;
    }
  }

  /** A sweep that moves on without releasing anything. */
  lemma SweepKeeps(c: Config, now: int, s: Cell, r: nat, sweep: Sweep)
    requires Basic(c, now, s) && r < |s.recs|
    requires sweep.Lost? || sweep == AfterDeath(s.recs[r].sweep) || (MidSweep(s.recs[r]) && sweep == Swept(s.recs[r].sweep.seen))
    ensures Basic(c, now, MoveSweep(s, r, sweep))
  {
    var rec := s.recs[r].(sweep := sweep);
    SightsMove(c, now, s.claims, s.recs, r, rec);
    ProjectedSweep(s.job.status, s.event.status, s.history, s.phases, s.recs, r, rec);
  }

  /** Moving one execution on, without making it active or renumbering it. */
  lemma MoveKeeps(c: Config, now: int, s: Cell, i: nat, p: Phase)
    requires Basic(c, now, s) && Exists(s, i) && !p.Started?
    requires HasJob(p) ==> i + 1 <= p.job.attemptCount <= |s.claims|
    requires IsActive(p) ==> IsActive(s.phases[i]) && p.job.attemptCount == s.phases[i].job.attemptCount
    requires p.Written? ==> p.status in s.history && p.status != Delivering
    ensures Basic(c, now, Move(s, i, p))
  {
    var phases := s.phases[i := p];
    NumbersMove(|s.claims|, s.phases, s.attempts.Keys, i, p);
    assert Requests(s.sent, phases, s.attempts.Keys);
    assert forall j :: 0 <= j < |phases| && IsActive(phases[j]) ==>
      IsActive(s.phases[j]) && phases[j].job.attemptCount == s.phases[j].job.attemptCount;
  }

  lemma NumbersMove(count: nat, phases: seq<Phase>, numbers: set<nat>, i: nat, p: Phase)
    requires Numbers(count, phases, numbers) && i < |phases|
    requires HasJob(p) ==> i + 1 <= p.job.attemptCount <= count
    requires IsActive(p) ==> IsActive(phases[i]) && p.job.attemptCount == phases[i].job.attemptCount
    ensures Numbers(count, phases[i := p], numbers)
  {
  }

  lemma BasicLoad(c: Config, g: Regime, now: int, s: Cell, i: nat)
    requires Basic(c, now, s) && CellEnabled(c, g, now, s, Load(i))
    ensures Basic(c, now, Move(s, i, Loaded(s.job)))
  {
    MoveKeeps(c, now, s, i, Loaded(s.job));
  }

  lemma BasicWriteEvent(c: Config, g: Regime, now: int, s: Cell, i: nat)
    requires Basic(c, now, s) && CellEnabled(c, g, now, s, WriteEvent(i))
    ensures Basic(c, now, Move(s, i, Settled).(event := s.event.(status := s.phases[i].status)))
  {
    MoveKeeps(c, now, s, i, Settled);
  }

  lemma BasicWriteReleased(c: Config, g: Regime, now: int, s: Cell, r: nat)
    requires Basic(c, now, s) && CellEnabled(c, g, now, s, WriteReleased(r))
    ensures Basic(c, now, CellApply(c, g, now, s, WriteReleased(r)))
  {
    var rec := s.recs[r].(sweep := Recovered(s.recs[r].sweep.number));
    SightsMove(c, now, s.claims, s.recs, r, rec);
    ProjectedSweep(s.job.status, s.recs[r].sweep.next, s.history, s.phases, s.recs, r, rec);
  }

  lemma BasicReadStale(c: Config, g: Regime, now: int, s: Cell, pass: nat, at: int)
    requires Basic(c, now, s) && CellEnabled(c, g, now, s, ReadStale(pass, at))
    ensures Basic(c, now, CellApply(c, g, now, s, ReadStale(pass, at)))
  {
  }

  lemma BasicStep(c: Config, g: Regime, now: int, s: Cell, step: CellStep)
    requires Basic(c, now, s) && CellEnabled(c, g, now, s, step)
    ensures Basic(c, now, CellApply(c, g, now, s, step))
  {
    match step
    case Claim(worker) => BasicClaim(c, g, now, s, worker);
    case Start(i) => BasicStart(c, g, now, s, i);
    case Send(i) => BasicSend(c, g, now, s, i);
    case Complete(i) => BasicComplete(c, g, now, s, i);
    case WriteJob(i) => BasicWriteJob(c, g, now, s, i);
    case CloseAbandoned(r) => BasicCloseAbandoned(c, g, now, s, r);
    case Release(r) =>
      if CanRelease(s.job, s.recs[r].sweep.seen) {
        BasicReleaseWon(c, g, now, s, r);
      } else {
        SweepKeeps(c, now, s, r, Lost);
      }
    case ReadStale(pass, at) => BasicReadStale(c, g, now, s, pass, at);
    case WriteReleased(r) => BasicWriteReleased(c, g, now, s, r);
    case CrashRecovery(r) => SweepKeeps(c, now, s, r, AfterDeath(s.recs[r].sweep));
    case Load(i) => BasicLoad(c, g, now, s, i);
    case Answer(i, result) => MoveKeeps(c, now, s, i, Answered(s.phases[i].job, result));
    case WriteEvent(i) => BasicWriteEvent(c, g, now, s, i);
    case Crash(i) => MoveKeeps(c, now, s, i, Crashed);
  }
}
