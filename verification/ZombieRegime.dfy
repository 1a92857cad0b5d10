/**
 * Without the lease discipline the budget of maxAttempts does not hold: late settling writes put
 * the job back in the queue once more for every attempt that recovery has already requeued. The
 * bound 2 * maxAttempts - 1 is then exact.
 */
module ZombieRegime {
  import opened DeliveryTypes
  import RetryPolicy
  import StatusMachine
  import opened Protocol
  import Guarantees
  import opened Progress
  import opened RunBuilder

  // ---- stalling every attempt -----------------------------------------------------

  predicate StalledAt(p: Phase, number: nat) {
    p.Closed? && p.job.attemptCount == number && RetryPolicy.Classify(p.result).Retryable?
  }

  /** Attempts 1..m were claimed, answered and recovered, and none has settled yet. */
  ghost predicate Stalled(s: Cell, m: nat) {
    && s.job.attemptCount == |s.claims| == |s.phases| == m
    && StatusMachine.IsClaimable(s.job.status)
    && (forall i :: 0 <= i < m ==> StalledAt(s.phases[i], i + 1))
    && (forall n <- s.attempts :: n <= m)
    && (forall r <- s.recs :: !MidSweep(r))
  }

  lemma RecoverOne(c: Config, g: Regime, now: int, s: Cell, m: nat) returns (s': Cell)
    requires m < c.maxAttempts && s.job.attemptCount == |s.claims| == |s.phases| == m
    requires s.job.status == Delivering && s.job.lockedAt.Some? && s.job.lockedAt.value + c.leaseMs < now
    requires forall i :: 0 <= i < m ==> StalledAt(s.phases[i], i + 1)
    requires (forall n <- s.attempts :: n <= m) && (forall r <- s.recs :: !MidSweep(r))
    ensures CellRun(c, g, now, s, SweepSteps(s, now)) == Some(s') && Stalled(s', m)
  {
    SweepAlone(c, g, now, now, s);
    s' := CellRun(c, g, now, s, SweepSteps(s, now)).value;
    assert s'.recs == s'.recs[..|s.recs|] + [s'.recs[|s.recs|]];
  }

  lemma StallRound(c: Config, g: Regime, t0: int, steps: seq<Step>, s: System, id: EventId, m: nat)
    returns (more: seq<Step>, later: System)
    requires !g.leased && Reaches(c, g, t0, steps, s) && id in s.cells && Stalled(s.cells[id], m)
    requires m + 1 < c.maxAttempts
    ensures Reaches(c, g, t0, more, later) && id in later.cells && Stalled(later.cells[id], m + 1)
  {
    more, later := WaitUntil(c, g, t0, steps, s, s.cells[id].job.nextAttemptAt);
    var claimed := AttemptOne(c, g, later.now, later.cells[id], m, TIMED_OUT);
    more, later := ExtendCell(c, g, t0, more, later, id, AttemptSteps(m, TIMED_OUT));
    more, later := WaitUntil(c, g, t0, more, later, later.now + c.leaseMs + 1);
    var recovered := RecoverOne(c, g, later.now, claimed, m + 1);
    more, later := ExtendCell(c, g, t0, more, later, id, SweepSteps(claimed, later.now));
  }

  lemma {:induction false} StallAll(c: Config, g: Regime, t0: int, id: EventId, m: nat)
    returns (steps: seq<Step>, s: System)
    requires !g.leased && m < c.maxAttempts
    ensures Reaches(c, g, t0, steps, s) && id in s.cells && Stalled(s.cells[id], m)
  {
    if m == 0 {
      steps, s := StartRun(c, g, t0, id);
    } else {
      steps, s := StallAll(c, g, t0, id, m - 1);
      steps, s := StallRound(c, g, t0, steps, s, id, m - 1);
    }
  }

  // ---- letting the stalled attempts settle late --------------------------------------

  /** The first j stalled attempts have settled late, each into one more claim. */
  ghost predicate Flooded(c: Config, s: Cell, j: nat) {
    && j < c.maxAttempts
    && s.job.attemptCount == |s.claims| == |s.phases| == c.maxAttempts - 1 + j
    && StatusMachine.IsClaimable(s.job.status)
    && (forall i :: j <= i < c.maxAttempts - 1 ==> StalledAt(s.phases[i], i + 1))
  }

  lemma FloodOne(c: Config, g: Regime, now: int, s: Cell, j: nat) returns (s': Cell)
    requires !g.leased && Flooded(c, s, j) && j + 1 < c.maxAttempts && s.job.nextAttemptAt <= now
    ensures CellRun(c, g, now, s, [Claim("worker"), WriteJob(j)]) == Some(s') && Flooded(c, s', j + 1)
  {
    var s1 := ApplyClaim(s, now, "worker");
    s' := ApplyWriteJob(c, g, s1, now, j);
    CellRunCons(c, g, now, s1, WriteJob(j), []);
    CellRunCons(c, g, now, s, Claim("worker"), [WriteJob(j)]);
    assert [Claim("worker"), WriteJob(j)] == [Claim("worker")] + [WriteJob(j)];
  }

  lemma {:induction false} FloodAll(c: Config, g: Regime, t0: int, id: EventId, j: nat)
    returns (steps: seq<Step>, s: System)
    requires !g.leased && j < c.maxAttempts
    ensures Reaches(c, g, t0, steps, s) && id in s.cells && Flooded(c, s.cells[id], j)
  {
    if j == 0 {
      steps, s := StallAll(c, g, t0, id, c.maxAttempts - 1);
    } else {
      steps, s := FloodAll(c, g, t0, id, j - 1);
      steps, s := WaitUntil(c, g, t0, steps, s, s.cells[id].job.nextAttemptAt);
      var flooded := FloodOne(c, g, s.now, s.cells[id], j - 1);
      steps, s := ExtendCell(c, g, t0, steps, s, id, [Claim("worker"), WriteJob(j - 1)]);
    }
  }

  /** The bound of ZombieBound is reached, for every configuration and every event. */
  lemma ZombieBoundIsTight(c: Config, g: Regime, t0: int, id: EventId) returns (steps: seq<Step>, s: System)
    requires !g.leased
    ensures Reaches(c, g, t0, steps, s) && id in s.cells
    ensures s.cells[id].job.attemptCount == 2 * c.maxAttempts - 1
  {
    steps, s := FloodAll(c, g, t0, id, c.maxAttempts - 1);
    steps, s := WaitUntil(c, g, t0, steps, s, s.cells[id].job.nextAttemptAt);
    var step := On(id, Claim("worker"));
    Extend(c, g, t0, steps, s, step);
    steps, s := steps + [step], Apply(c, g, s, step);
  }

  ghost predicate BudgetHolds(c: Config, g: Regime) {
    forall t0, steps, s, id :: Reaches(c, g, t0, steps, s) && id in s.cells ==>
      s.cells[id].job.attemptCount <= c.maxAttempts
  }

  /**
   * The budget of maxAttempts holds on every run exactly when the lease discipline does, or when
   * there is nothing to retry.
   */
  lemma BudgetHoldsExactly(c: Config, g: Regime)
    ensures BudgetHolds(c, g) <==> g.leased || c.maxAttempts == 1
  {
    if g.leased {
      forall t0, steps, s, id | Reaches(c, g, t0, steps, s) && id in s.cells
        ensures s.cells[id].job.attemptCount <= c.maxAttempts
      {
        Guarantees.AttemptsWithinBudget(c, g, t0, steps, s, id);
      }
    } else if c.maxAttempts == 1 {
      forall t0, steps, s, id | Reaches(c, g, t0, steps, s) && id in s.cells
        ensures s.cells[id].job.attemptCount <= c.maxAttempts
      {
        Guarantees.ZombieBound(c, g, t0, steps, s, id);
      }
    } else {
      var steps, s := ZombieBoundIsTight(c, g, 0, "evt");
    }
  }
}
