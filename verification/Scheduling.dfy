/**
 * Bounded bypass: findDueJobIds reads the oldest due jobs, so a due job cannot be overtaken for
 * ever: each sweep that requeues another job early can put it back by one place, and nothing else
 * can. Lease regime and non-negative delays.
 */
module Scheduling {
  import Collections
  import opened DeliveryTypes
  import StatusMachine
  import RetryPolicy
  import Rows
  import opened Protocol
  import LeaseRegime
  import opened Reachability
  import opened Guarantees
  import Tallies

  predicate NonNegativeDelays(c: Config) {
    forall i :: 0 <= i < |c.delaysMs| ==> c.delaysMs[i] >= 0
  }

  /** The job waits for the claim after its k-th, and has been due since `due`. */
  predicate Waiting(s: System, id: EventId, due: int, k: nat) {
    && id in s.cells
    && StatusMachine.IsClaimable(s.cells[id].job.status)
    && s.cells[id].job.nextAttemptAt == due < s.now
    && s.cells[id].job.attemptCount == k
  }

  predicate Claimed(s: System, id: EventId, k: nat) {
    id in s.cells && s.cells[id].job.attemptCount > k
  }

  predicate IsAhead(s: System, id: EventId, due: int) {
    id in s.cells && StatusMachine.IsClaimable(s.cells[id].job.status) && s.cells[id].job.nextAttemptAt <= due
  }

  /** The jobs that findDueJobIds may put before one due at `due`. */
  function Ahead(s: System, id: EventId, due: int): set<EventId> {
    set k | k in s.cells && k != id && IsAhead(s, k, due)
  }

  /** A sweep requeues the row it releases at a time counted from when it was read. */
  predicate RequeuesEarly(c: Config, s: System, step: Step, due: int) {
    && step.On? && step.id in s.cells && Wins(s.cells[step.id], step.step)
    && var rec := s.cells[step.id].recs[step.step.r];
       && rec.sweep.seen.attemptCount < c.maxAttempts
       && rec.now + RetryPolicy.DelayAfterAttemptMs(c.delaysMs, rec.sweep.seen.attemptCount) <= due
  }

  function EarlyRequeue(c: Config, due: int): (System, Step) -> bool {
    (s: System, step: Step) => RequeuesEarly(c, s, step, due)
  }

  /** The jobs that sweeps requeue early during a run. */
  function Requeued(c: Config, g: Regime, s: System, steps: seq<Step>, due: int): set<EventId>
    requires Run(c, g, s, steps).Some?
  {
    if steps == [] then {}
    else
      var front, last := steps[..|steps| - 1], steps[|steps| - 1];
      Requeued(c, g, s, front, due) + if RequeuesEarly(c, Run(c, g, s, front).value, last, due) then {last.id} else {}
  }

  /** How often they do. */
  function EarlyRequeues(c: Config, g: Regime, s: System, steps: seq<Step>, due: int): nat
    requires Run(c, g, s, steps).Some?
  {
    Tallies.Occurrences(c, g, s, steps, EarlyRequeue(c, due))
  }

  lemma {:induction false} RequeuedSize(c: Config, g: Regime, s: System, steps: seq<Step>, due: int)
    requires Run(c, g, s, steps).Some?
    ensures |Requeued(c, g, s, steps, due)| <= EarlyRequeues(c, g, s, steps, due)
  {
    if steps != [] {
      RequeuedSize(c, g, s, steps[..|steps| - 1], due);
    }
  }

  // ---- one step ---------------------------------------------------------------------

  /**
   * With non-negative delays the queue ahead of a job that is past due gains a member exactly when a
   * sweep that read long ago releases another job to a time no later than `due`.
   */
  lemma AheadGrowsExactly(c: Config, g: Regime, s: System, step: Step, id: EventId, due: int)
    requires NonNegativeDelays(c) && Enabled(c, g, s, step) && due < s.now
    ensures !(Ahead(Apply(c, g, s, step), id, due) <= Ahead(s, id, due)) <==>
            RequeuesEarly(c, s, step, due) && step.id != id
  {
    var s' := Apply(c, g, s, step);
    if RequeuesEarly(c, s, step, due) && step.id != id {
      assert step.id in Ahead(s', id, due) && step.id !in Ahead(s, id, due);
    } else {
      forall k | k in Ahead(s', id, due) ensures k in Ahead(s, id, due) {
        if step.On? && step.id == k {
          NotRequeuedEarly(c, g, s.now, s.cells[k], step.step, due);
        }
      }
    }
  }

  lemma NotRequeuedEarly(c: Config, g: Regime, now: int, s: Cell, step: CellStep, due: int)
    requires NonNegativeDelays(c) && CellEnabled(c, g, now, s, step) && due < now
    requires Wins(s, step) ==>
      var rec := s.recs[step.r];
      rec.sweep.seen.attemptCount >= c.maxAttempts
      || rec.now + RetryPolicy.DelayAfterAttemptMs(c.delaysMs, rec.sweep.seen.attemptCount) > due
    requires var job := CellApply(c, g, now, s, step).job; StatusMachine.IsClaimable(job.status) && job.nextAttemptAt <= due
    ensures StatusMachine.IsClaimable(s.job.status) && s.job.nextAttemptAt <= due
  {
  }

  lemma AheadStep(c: Config, g: Regime, s: System, step: Step, id: EventId, due: int)
    requires NonNegativeDelays(c) && Enabled(c, g, s, step) && due < s.now
    ensures Ahead(Apply(c, g, s, step), id, due) <= Ahead(s, id, due) + if RequeuesEarly(c, s, step, due) then {step.id} else {}
    ensures step.On? && step.step.Claim? ==> step.id !in Ahead(Apply(c, g, s, step), id, due)
  {
    if RequeuesEarly(c, s, step, due) {
      OthersStay(c, g, s, step, id, due);
    } else {
      AheadGrowsExactly(c, g, s, step, id, due);
    }
  }

  /** A step of one event moves no other. */
  lemma OthersStay(c: Config, g: Regime, s: System, step: Step, id: EventId, due: int)
    requires step.On? && Enabled(c, g, s, step)
    ensures Ahead(Apply(c, g, s, step), id, due) <= Ahead(s, id, due) + {step.id}
  {
  }

  /** A waiting job leaves the queue only by being claimed. */
  lemma WaitingStep(c: Config, g: Regime, s: System, step: Step, id: EventId, due: int, k: nat)
    requires g.leased && SystemInv(c, g, s) && Enabled(c, g, s, step) && Waiting(s, id, due, k)
    ensures Waiting(Apply(c, g, s, step), id, due, k) || Claimed(Apply(c, g, s, step), id, k)
    ensures step.On? && step.id == id && step.step.Claim? ==> Claimed(Apply(c, g, s, step), id, k)
  {
    OnlyNamedCell(c, g, s, step, id);
    if step.On? && step.id == id {
      if step.step.WriteJob? {
        LeaseRegime.WriterOwnsRow(c, g, s.now, s.cells[id], step.step.i);
      } else if !step.step.Claim? {
        QuietWhenClaimable(c, g, s.now, s.cells[id], step.step);
      }
    }
  }

  lemma QuietWhenClaimable(c: Config, g: Regime, now: int, s: Cell, step: CellStep)
    requires CellEnabled(c, g, now, s, step) && StatusMachine.IsClaimable(s.job.status) && !step.Claim? && !step.WriteJob?
    ensures CellApply(c, g, now, s, step).job == s.job
  {
  }

  lemma ClaimedStep(c: Config, g: Regime, s: System, step: Step, id: EventId, k: nat)
    requires Enabled(c, g, s, step) && Claimed(s, id, k)
    ensures Claimed(Apply(c, g, s, step), id, k)
  {
  }

  // ---- a run of steps -----------------------------------------------------------------

  lemma {:induction false} NowAdvances(c: Config, g: Regime, s: System, steps: seq<Step>)
    requires Run(c, g, s, steps).Some?
    ensures s.now <= Run(c, g, s, steps).value.now
  {
    if steps != [] { NowAdvances(c, g, s, steps[..|steps| - 1]); }
  }

  /** The queue ahead gains no member but those requeued early. */
  lemma {:induction false} AheadRun(c: Config, g: Regime, s: System, steps: seq<Step>, id: EventId, due: int)
    requires NonNegativeDelays(c) && due < s.now && Run(c, g, s, steps).Some?
    ensures Ahead(Run(c, g, s, steps).value, id, due) <= Ahead(s, id, due) + Requeued(c, g, s, steps, due)
  {
    if steps != [] {
      var front := steps[..|steps| - 1];
      AheadRun(c, g, s, front, id, due);
      NowAdvances(c, g, s, front);
      AheadStep(c, g, Run(c, g, s, front).value, steps[|steps| - 1], id, due);
    }
  }

  lemma {:induction false} WaitingRun(c: Config, g: Regime, s: System, steps: seq<Step>, id: EventId, due: int, k: nat)
    requires g.leased && SystemInv(c, g, s) && Waiting(s, id, due, k) && Run(c, g, s, steps).Some?
    ensures Waiting(Run(c, g, s, steps).value, id, due, k) || Claimed(Run(c, g, s, steps).value, id, k)
  {
    if steps != [] {
      var front, last := steps[..|steps| - 1], steps[|steps| - 1];
      var before := Run(c, g, s, front).value;
      WaitingRun(c, g, s, front, id, due, k);
      RunKeepsInv(c, g, s, front);
      if Claimed(before, id, k) {
        ClaimedStep(c, g, before, last, id, k);
      } else {
        WaitingStep(c, g, before, last, id, due, k);
      }
    }
  }

  lemma {:induction false} ClaimedRun(c: Config, g: Regime, s: System, steps: seq<Step>, id: EventId, k: nat)
    requires Claimed(s, id, k) && Run(c, g, s, steps).Some?
    ensures Claimed(Run(c, g, s, steps).value, id, k)
  {
    if steps != [] {
      var front := steps[..|steps| - 1];
      ClaimedRun(c, g, s, front, id, k);
      ClaimedStep(c, g, Run(c, g, s, front).value, steps[|steps| - 1], id, k);
    }
  }

  /** Two runs one after the other. */
  lemma {:induction false} RunJoin(c: Config, g: Regime, s: System, first: seq<Step>, second: seq<Step>)
    requires Run(c, g, s, first).Some?
    ensures Run(c, g, s, first + second) == Run(c, g, Run(c, g, s, first).value, second)
  {
    if second == [] {
      assert first + second == first;
    } else {
      RunJoin(c, g, s, first, second[..|second| - 1]);
      assert (first + second)[..|first + second| - 1] == first + second[..|second| - 1];
    }
  }

  /** A run splits at any point. */
  lemma {:induction false} RunSplit(c: Config, g: Regime, s: System, steps: seq<Step>, i: nat)
    requires i <= |steps| && Run(c, g, s, steps).Some?
    ensures Run(c, g, s, steps[..i]).Some?
    ensures Run(c, g, Run(c, g, s, steps[..i]).value, steps[i..]) == Run(c, g, s, steps)
  {
    if i == |steps| {
      assert steps[..i] == steps;
    } else {
      var front := steps[..|steps| - 1];
      RunSplit(c, g, s, front, i);
      assert front[..i] == steps[..i];
      assert steps[i..][..|steps[i..]| - 1] == front[i..];
    }
  }

  /** What is requeued early after position i is requeued early in the run. */
  lemma {:induction false} RequeuedLater(c: Config, g: Regime, s: System, steps: seq<Step>, i: nat, due: int)
    requires i <= |steps| && Run(c, g, s, steps).Some?
    ensures Run(c, g, s, steps[..i]).Some?
    ensures Run(c, g, Run(c, g, s, steps[..i]).value, steps[i..]) == Run(c, g, s, steps)
    ensures Requeued(c, g, Run(c, g, s, steps[..i]).value, steps[i..], due) <= Requeued(c, g, s, steps, due)
  {
    RunSplit(c, g, s, steps, i);
    if i < |steps| {
      var front := steps[..|steps| - 1];
      RequeuedLater(c, g, s, front, i, due);
      assert front[..i] == steps[..i];
      assert steps[i..][..|steps[i..]| - 1] == front[i..];
    }
  }

  /** The step at position i is enabled where it stands. */
  lemma StepAt(c: Config, g: Regime, s: System, steps: seq<Step>, i: nat)
    requires i < |steps| && Run(c, g, s, steps).Some?
    ensures Run(c, g, s, steps[..i]).Some?
    ensures Enabled(c, g, Run(c, g, s, steps[..i]).value, steps[i])
    ensures Run(c, g, s, steps[..i + 1]) == Some(Apply(c, g, Run(c, g, s, steps[..i]).value, steps[i]))
  {
    RunSplit(c, g, s, steps, i + 1);
    assert steps[..i + 1][..i] == steps[..i];
  }

  // ---- one tick -------------------------------------------------------------------------

  /** What findDueJobIds(limit) returns: the oldest due jobs, ties in any order. */
  ghost predicate IsDueBatch(s: System, limit: nat, due: seq<EventId>) {
    && Collections.NoRepeats(due)
    && (forall k <- due :: k in s.cells && Rows.CanClaim(s.cells[k].job, s.now))
    && |due| <= limit
    && (|due| == limit || forall k <- s.cells :: Rows.CanClaim(s.cells[k].job, s.now) ==> k in due)
    && (forall k <- s.cells, d <- due :: Rows.CanClaim(s.cells[k].job, s.now) && k !in due ==>
          s.cells[d].job.nextAttemptAt <= s.cells[k].job.nextAttemptAt)
  }

  /** At position i of the run the worker tries to claim `k`: it claims it, or finds it unclaimable. */
  ghost predicate TriesAt(c: Config, g: Regime, s: System, steps: seq<Step>, k: EventId, i: nat) {
    && i <= |steps| && Run(c, g, s, steps[..i]).Some?
    && var at := Run(c, g, s, steps[..i]).value;
       && k in at.cells
       && (Rows.CanClaim(at.cells[k].job, at.now) ==> i < |steps| && steps[i].On? && steps[i].id == k && steps[i].step.Claim?)
  }

  /**
   * A full tick: the due batch is read at the start, and each job of it is tried at some point of
   * the run, which also holds whatever everyone else does until the next tick begins.
   */
  ghost predicate FullTick(c: Config, g: Regime, limit: nat, s: System, due: seq<EventId>, steps: seq<Step>) {
    && IsDueBatch(s, limit, due)
    && Run(c, g, s, steps).Some?
    && forall k <- due :: exists i :: TriesAt(c, g, s, steps, k, i)
  }

  /** What is not ahead at some point of the run, and is not requeued early, is not ahead at its end. */
  lemma NotAheadLater(c: Config, g: Regime, s: System, steps: seq<Step>, i: nat, id: EventId, due: int, k: EventId)
    requires NonNegativeDelays(c) && due < s.now && i <= |steps|
    requires Run(c, g, s, steps).Some? && k !in Requeued(c, g, s, steps, due)
    requires Run(c, g, s, steps[..i]).Some? && k !in Ahead(Run(c, g, s, steps[..i]).value, id, due)
    ensures k !in Ahead(Run(c, g, s, steps).value, id, due)
  {
    RequeuedLater(c, g, s, steps, i, due);
    NowAdvances(c, g, s, steps[..i]);
    AheadRun(c, g, Run(c, g, s, steps[..i]).value, steps[i..], id, due);
  }

  /** A job tried during the tick is not ahead at its end, unless requeued early. */
  lemma TriedIsNotAhead(c: Config, g: Regime, s: System, steps: seq<Step>, id: EventId, due: int, k: EventId, i: nat)
    requires NonNegativeDelays(c) && due < s.now
    requires Run(c, g, s, steps).Some? && k !in Requeued(c, g, s, steps, due)
    requires TriesAt(c, g, s, steps, k, i)
    ensures k !in Ahead(Run(c, g, s, steps).value, id, due)
  {
    RunSplit(c, g, s, steps, i);
    NowAdvances(c, g, s, steps[..i]);
    var at := Run(c, g, s, steps[..i]).value;
    if Rows.CanClaim(at.cells[k].job, at.now) {
      StepAt(c, g, s, steps, i);
      AheadStep(c, g, at, steps[i], id, due);
      NotAheadLater(c, g, s, steps, i + 1, id, due, k);
    } else {
      NotAheadLater(c, g, s, steps, i, id, due, k);
    }
  }

  /** A waiting job that is tried during the tick has been claimed by its end. */
  lemma TriedIsClaimed(c: Config, g: Regime, s: System, steps: seq<Step>, id: EventId, due: int, k: nat, i: nat)
    requires g.leased && SystemInv(c, g, s) && Waiting(s, id, due, k)
    requires Run(c, g, s, steps).Some? && TriesAt(c, g, s, steps, id, i)
    ensures Claimed(Run(c, g, s, steps).value, id, k)
  {
    RunSplit(c, g, s, steps, i);
    var at := Run(c, g, s, steps[..i]).value;
    WaitingRun(c, g, s, steps[..i], id, due, k);
    if Claimed(at, id, k) {
      ClaimedRun(c, g, at, steps[i..], id, k);
    } else {
      StepAt(c, g, s, steps, i);
      OnlyNamedCell(c, g, at, steps[i], id);
      RunSplit(c, g, s, steps, i + 1);
      ClaimedRun(c, g, Run(c, g, s, steps[..i + 1]).value, steps[i + 1..], id, k);
    }
  }

  /** A batch without the waiting job is full, and every job in it is ahead. */
  lemma BatchIsAhead(limit: nat, s: System, batch: seq<EventId>, id: EventId, due: int, k: nat)
    requires Waiting(s, id, due, k) && IsDueBatch(s, limit, batch) && id !in batch
    ensures |batch| == limit
    ensures forall d <- batch :: d in Ahead(s, id, due)
  {
  }

  lemma BatchGone(c: Config, g: Regime, limit: nat, s: System, batch: seq<EventId>, steps: seq<Step>, id: EventId, due: int)
    requires NonNegativeDelays(c) && due < s.now && FullTick(c, g, limit, s, batch, steps)
    ensures forall d <- batch :: d in Requeued(c, g, s, steps, due) || d !in Ahead(Run(c, g, s, steps).value, id, due)
  {
    forall d <- batch | d !in Requeued(c, g, s, steps, due) ensures d !in Ahead(Run(c, g, s, steps).value, id, due) {
      var i :| TriesAt(c, g, s, steps, d, i);
      TriedIsNotAhead(c, g, s, steps, id, due, d, i);
    }
  }

  /** A full tick that does not take the waiting job removes `limit` jobs from its way, and adds those requeued early. */
  lemma TickShrinks(c: Config, g: Regime, limit: nat, s: System, batch: seq<EventId>, steps: seq<Step>, id: EventId,
                    due: int, k: nat)
    requires NonNegativeDelays(c) && Waiting(s, id, due, k) && FullTick(c, g, limit, s, batch, steps) && id !in batch
    ensures |Ahead(Run(c, g, s, steps).value, id, due)| + limit <= |Ahead(s, id, due)| + EarlyRequeues(c, g, s, steps, due)
  {
    BatchIsAhead(limit, s, batch, id, due, k);
    BatchGone(c, g, limit, s, batch, steps, id, due);
    AheadRun(c, g, s, steps, id, due);
    Collections.DistinctSize(batch);
    RequeuedSize(c, g, s, steps, due);
    SmallerBy(Ahead(Run(c, g, s, steps).value, id, due), Ahead(s, id, due), (set d | d in batch),
              Requeued(c, g, s, steps, due));
  }

  /** A full tick either claims the waiting job or shortens the queue ahead of it. */
  lemma TickMakesProgress(c: Config, g: Regime, limit: nat, s: System, batch: seq<EventId>, steps: seq<Step>,
                          id: EventId, due: int, k: nat)
    requires g.leased && SystemInv(c, g, s) && NonNegativeDelays(c)
    requires Waiting(s, id, due, k) && FullTick(c, g, limit, s, batch, steps)
    ensures var later := Run(c, g, s, steps).value;
            Claimed(later, id, k) ||
            (Waiting(later, id, due, k)
             && |Ahead(later, id, due)| + limit <= |Ahead(s, id, due)| + EarlyRequeues(c, g, s, steps, due))
  {
    if id in batch {
      var i :| TriesAt(c, g, s, steps, id, i);
      TriedIsClaimed(c, g, s, steps, id, due, k, i);
    } else {
      WaitingRun(c, g, s, steps, id, due, k);
      TickShrinks(c, g, limit, s, batch, steps, id, due, k);
    }
  }

  lemma SmallerBy(small: set<EventId>, large: set<EventId>, gone: set<EventId>, back: set<EventId>)
    requires small <= large + back && gone <= large && small * gone <= back
    ensures |small| + |gone| <= |large| + |back|
  {
    assert small <= (large - gone) + back;
    Collections.SubsetSize(small, (large - gone) + back);
    assert |large| == |large - gone| + |gone| by {
      assert large == (large - gone) + gone;
    }
  }

  // ---- many ticks -------------------------------------------------------------------------

  /** One full tick: the batch it read, the steps up to the next tick, and where they led. */
  datatype Tick = Tick(batch: seq<EventId>, steps: seq<Step>, after: System)

  ghost predicate IsTick(c: Config, g: Regime, limit: nat, s: System, tick: Tick) {
    FullTick(c, g, limit, s, tick.batch, tick.steps) && Run(c, g, s, tick.steps) == Some(tick.after)
  }

  /** Consecutive full ticks. */
  ghost predicate Ticks(c: Config, g: Regime, limit: nat, s: System, ticks: seq<Tick>)
    decreases |ticks|
  {
    ticks == [] || (IsTick(c, g, limit, s, ticks[0]) && Ticks(c, g, limit, ticks[0].after, ticks[1..]))
  }

  function AfterTicks(s: System, ticks: seq<Tick>): System {
    if ticks == [] then s else ticks[|ticks| - 1].after
  }

  /** The early requeues of all the ticks. */
  ghost function EarlyIn(c: Config, g: Regime, limit: nat, s: System, ticks: seq<Tick>, due: int): nat
    requires Ticks(c, g, limit, s, ticks)
    decreases |ticks|
  {
    if ticks == [] then 0
    else EarlyRequeues(c, g, s, ticks[0].steps, due) + EarlyIn(c, g, limit, ticks[0].after, ticks[1..], due)
  }

  lemma AfterTicksCons(s: System, ticks: seq<Tick>)
    requires ticks != []
    ensures AfterTicks(s, ticks) == AfterTicks(ticks[0].after, ticks[1..])
  {
  }

  lemma TicksCons(c: Config, g: Regime, limit: nat, s: System, ticks: seq<Tick>, due: int)
    requires ticks != [] && Ticks(c, g, limit, s, ticks)
    ensures IsTick(c, g, limit, s, ticks[0]) && Ticks(c, g, limit, ticks[0].after, ticks[1..])
    ensures EarlyIn(c, g, limit, s, ticks, due)
            == EarlyRequeues(c, g, s, ticks[0].steps, due) + EarlyIn(c, g, limit, ticks[0].after, ticks[1..], due)
  {
  }

  lemma {:induction false} ClaimedAfterTicks(c: Config, g: Regime, limit: nat, s: System, ticks: seq<Tick>, id: EventId, k: nat)
    requires Claimed(s, id, k) && Ticks(c, g, limit, s, ticks)
    ensures Claimed(AfterTicks(s, ticks), id, k)
    decreases |ticks|
  {
    if ticks != [] {
      AfterTicksCons(s, ticks);
      ClaimedRun(c, g, s, ticks[0].steps, id, k);
      ClaimedAfterTicks(c, g, limit, ticks[0].after, ticks[1..], id, k);
    }
  }

  /** The jobs that n full ticks can take out of the way. */
  function Quota(n: nat, limit: nat): nat {
    if n == 0 then 0 else limit + Quota(n - 1, limit)
  }

  lemma {:induction false} QuotaIsProduct(n: nat, limit: nat)
    ensures Quota(n, limit) == n * limit
  {
    if n > 0 { QuotaIsProduct(n - 1, limit); }
  }

  /** n full ticks are more than enough for the queue ahead and `early` more jobs. */
  predicate Suffice(s: System, id: EventId, due: int, early: nat, n: nat, limit: nat) {
    |Ahead(s, id, due)| + early < Quota(n, limit)
  }

  lemma NoTickSuffices(s: System, id: EventId, due: int, early: nat, limit: nat)
    ensures !Suffice(s, id, due, early, 0, limit)
  {
  }

  lemma OneTickLess(s: System, later: System, id: EventId, due: int, now: nat, early: nat, n: nat, limit: nat)
    requires n > 0 && Suffice(s, id, due, now + early, n, limit)
    requires |Ahead(later, id, due)| + limit <= |Ahead(s, id, due)| + now
    ensures Suffice(later, id, due, early, n - 1, limit)
  {
  }

  /** One tick claims the waiting job, or leaves it waiting with one tick less to go. */
  lemma AfterOneTick(c: Config, g: Regime, t0: int, steps: seq<Step>, limit: nat, s: System, tick: Tick, early: nat, n: nat,
                     id: EventId, due: int, k: nat)
    requires g.leased && Reaches(c, g, t0, steps, s) && NonNegativeDelays(c) && n > 0
    requires Waiting(s, id, due, k) && IsTick(c, g, limit, s, tick)
    requires Suffice(s, id, due, EarlyRequeues(c, g, s, tick.steps, due) + early, n, limit)
    ensures Reaches(c, g, t0, steps + tick.steps, tick.after)
    ensures Claimed(tick.after, id, k) || (Waiting(tick.after, id, due, k) && Suffice(tick.after, id, due, early, n - 1, limit))
  {
    Invariant(c, g, t0, steps, s);
    RunJoin(c, g, Empty(t0), steps, tick.steps);
    TickMakesProgress(c, g, limit, s, tick.batch, tick.steps, id, due, k);
    if !Claimed(tick.after, id, k) {
      OneTickLess(s, tick.after, id, due, EarlyRequeues(c, g, s, tick.steps, due), early, n, limit);
    }
  }

  /** The ticks are full ticks, and as many as it takes. */
  ghost predicate Enough(c: Config, g: Regime, limit: nat, s: System, ticks: seq<Tick>, id: EventId, due: int) {
    Ticks(c, g, limit, s, ticks) && Suffice(s, id, due, EarlyIn(c, g, limit, s, ticks, due), |ticks|, limit)
  }

  lemma FirstTick(c: Config, g: Regime, t0: int, steps: seq<Step>, limit: nat, s: System, ticks: seq<Tick>,
                  id: EventId, due: int, k: nat)
    requires g.leased && Reaches(c, g, t0, steps, s) && NonNegativeDelays(c)
    requires Waiting(s, id, due, k) && Enough(c, g, limit, s, ticks, id, due)
    ensures ticks != [] && AfterTicks(s, ticks) == AfterTicks(ticks[0].after, ticks[1..])
    ensures Reaches(c, g, t0, steps + ticks[0].steps, ticks[0].after)
    ensures Claimed(AfterTicks(s, ticks), id, k)
            || (Waiting(ticks[0].after, id, due, k) && Enough(c, g, limit, ticks[0].after, ticks[1..], id, due))
  {
    if ticks == [] {
      NoTickSuffices(s, id, due, 0, limit);
    } else {
      var first, rest := ticks[0], ticks[1..];
      AfterTicksCons(s, ticks);
      TicksCons(c, g, limit, s, ticks, due);
      AfterOneTick(c, g, t0, steps, limit, s, first, EarlyIn(c, g, limit, first.after, rest, due), |ticks|, id, due, k);
      if Claimed(first.after, id, k) {
        ClaimedAfterTicks(c, g, limit, first.after, rest, id, k);
      }
    }
  }

  lemma {:induction false} WaitingShrinks(c: Config, g: Regime, t0: int, steps: seq<Step>, limit: nat, s: System,
                                          ticks: seq<Tick>, id: EventId, due: int, k: nat)
    requires g.leased && Reaches(c, g, t0, steps, s) && NonNegativeDelays(c)
    requires Waiting(s, id, due, k) && Enough(c, g, limit, s, ticks, id, due)
    ensures Claimed(AfterTicks(s, ticks), id, k)
    decreases |ticks|
  {
    FirstTick(c, g, t0, steps, limit, s, ticks, id, due, k);
    if !Claimed(AfterTicks(s, ticks), id, k) {
      WaitingShrinks(c, g, t0, steps + ticks[0].steps, limit, ticks[0].after, ticks[1..], id, due, k);
    }
  }

  /**
   * Lease regime: with r claimable jobs due no later than it, a job whose due time has passed is
   * claimed once the full ticks together have room for more than r jobs and one more for each early
   * requeue, whatever the other workers do meanwhile.
   */
  lemma BoundedBypass(c: Config, g: Regime, t0: int, steps: seq<Step>, s: System, limit: nat, ticks: seq<Tick>,
                      id: EventId, due: int, k: nat)
    requires g.leased && Reaches(c, g, t0, steps, s) && NonNegativeDelays(c)
    requires Waiting(s, id, due, k) && Ticks(c, g, limit, s, ticks)
    requires |Ahead(s, id, due)| + EarlyIn(c, g, limit, s, ticks, due) < |ticks| * limit
    ensures Claimed(AfterTicks(s, ticks), id, k)
  {
    QuotaIsProduct(|ticks|, limit);
    WaitingShrinks(c, g, t0, steps, limit, s, ticks, id, due, k);
  }

  lemma EnoughTicks(r: nat, limit: nat)
    requires limit >= 1
    ensures r < (r / limit + 1) * limit
  {
    assert r == (r / limit) * limit + r % limit;
  }

  /** Without early requeues r / batchSize + 1 full ticks will do. */
  lemma BypassWithinTicks(c: Config, g: Regime, t0: int, steps: seq<Step>, s: System, limit: nat, ticks: seq<Tick>,
                          id: EventId, due: int, k: nat)
    requires g.leased && limit >= 1 && Reaches(c, g, t0, steps, s) && NonNegativeDelays(c)
    requires Waiting(s, id, due, k) && Ticks(c, g, limit, s, ticks) && EarlyIn(c, g, limit, s, ticks, due) == 0
    requires |ticks| == |Ahead(s, id, due)| / limit + 1
    ensures Claimed(AfterTicks(s, ticks), id, k)
  {
    EnoughTicks(|Ahead(s, id, due)|, limit);
    BoundedBypass(c, g, t0, steps, s, limit, ticks, id, due, k);
  }
}
