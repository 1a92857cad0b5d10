/**
 * A pass of the worker that nobody else interferes with is a run of the protocol: the tables that
 * RunOnce leaves are those of a reachable system, so everything proved of reachable systems holds
 * of them.
 */
module SoloTick {
  import Collections
  import opened DeliveryTypes
  import opened Rows
  import opened Protocol
  import opened Execution
  import opened Statements
  import Reachability
  import opened Scheduling
  import opened Worker

  // ---- reaching one system from another ----------------------------------------------------

  ghost predicate Leads(c: Config, g: Regime, s: System, later: System) {
    exists steps: seq<Step> :: Run(c, g, s, steps) == Some(later)
  }

  lemma LeadsOn(c: Config, g: Regime, s: System, mid: System, later: System)
    requires Leads(c, g, s, mid) && Leads(c, g, mid, later)
    ensures Leads(c, g, s, later)
  {
    var first: seq<Step> :| Run(c, g, s, first) == Some(mid);
    var second: seq<Step> :| Run(c, g, mid, second) == Some(later);
    RunJoin(c, g, s, first, second);
  }

  lemma RunOne(c: Config, g: Regime, s: System, step: Step)
    requires Enabled(c, g, s, step)
    ensures Run(c, g, s, [step]) == Some(Apply(c, g, s, step))
  {
    assert [step][..0] == [];
  }

  lemma LeadsByStep(c: Config, g: Regime, s: System, step: Step)
    requires Enabled(c, g, s, step)
    ensures Leads(c, g, s, Apply(c, g, s, step))
  {
    RunOne(c, g, s, step);
  }

  lemma LeadsNowhere(c: Config, g: Regime, s: System)
    ensures Leads(c, g, s, s)
  {
    assert Run(c, g, s, []) == Some(s);
  }

  function EndOf(now: int, timed: seq<Timed>): int {
    if timed == [] then now else timed[|timed| - 1].now
  }

  /** Steps of one event at their own moments, the clock advancing in between. */
  function Played(id: EventId, timed: seq<Timed>): seq<Step> {
    if timed == [] then [] else [Advance(timed[0].now), On(id, timed[0].step)] + Played(id, timed[1..])
  }

  function Replaced(s: System, now: int, id: EventId, cell: Cell): System {
    s.(now := now, cells := s.cells[id := cell])
  }

  lemma ReplacedTwice(s: System, now: int, id: EventId, cell: Cell, later: int, last: Cell)
    ensures Replaced(Replaced(s, now, id, cell), later, id, last) == Replaced(s, later, id, last)
  {
    assert s.cells[id := cell][id := last] == s.cells[id := last];
  }

  lemma {:induction false} PlayTimed(c: Config, g: Regime, s: System, id: EventId, timed: seq<Timed>)
    requires id in s.cells && TimedRun(c, g, s.cells[id], timed).Some?
    requires timed != [] ==> s.now <= timed[0].now
    ensures Run(c, g, s, Played(id, timed))
            == Some(Replaced(s, EndOf(s.now, timed), id, TimedRun(c, g, s.cells[id], timed).value))
    decreases |timed|
  {
    if timed == [] {
      assert s.cells[id := s.cells[id]] == s.cells;
    } else {
      var moved := Replaced(s, timed[0].now, id, CellApply(c, g, timed[0].now, s.cells[id], timed[0].step));
      PlayOne(c, g, s, id, timed[0]);
      PlayTimed(c, g, moved, id, timed[1..]);
      RunJoin(c, g, s, [Advance(timed[0].now), On(id, timed[0].step)], Played(id, timed[1..]));
      ReplacedTwice(s, timed[0].now, id, moved.cells[id], EndOf(s.now, timed), TimedRun(c, g, s.cells[id], timed).value);
    }
  }

  lemma PlayOne(c: Config, g: Regime, s: System, id: EventId, first: Timed)
    requires id in s.cells && s.now <= first.now && CellEnabled(c, g, first.now, s.cells[id], first.step)
    ensures Run(c, g, s, [Advance(first.now), On(id, first.step)])
            == Some(Replaced(s, first.now, id, CellApply(c, g, first.now, s.cells[id], first.step)))
  {
    var clocked := Apply(c, g, s, Advance(first.now));
    RunOne(c, g, s, Advance(first.now));
    RunOne(c, g, clocked, On(id, first.step));
    RunJoin(c, g, s, [Advance(first.now)], [On(id, first.step)]);
    assert [Advance(first.now)] + [On(id, first.step)] == [Advance(first.now), On(id, first.step)];
  }

  // ---- systems and tables --------------------------------------------------------------------

  /** The tables hold exactly the rows of the system. */
  ghost predicate Matches(s: System, t: Tables) {
    && Linked(t) && s.cells.Keys == t.jobs.Keys
    && forall k <- s.cells :: SliceOf(s.cells[k]) == SliceAt(t, k)
  }

  ghost predicate Paired(s: System) {
    forall k <- s.cells :: |s.cells[k].phases| == |s.cells[k].claims|
  }

  /** The batch that findDueJobIds reads is one that bounded bypass speaks of. */
  lemma OldestIsDueBatch(s: System, t: Tables, limit: nat, due: seq<EventId>)
    requires Matches(s, t) && AreOldestDue(t.jobs, s.now, limit, due)
    ensures IsDueBatch(s, limit, due)
  {
    forall k | k in s.cells ensures s.cells[k].job == t.jobs[k] {
      assert SliceOf(s.cells[k]).job == SliceAt(t, k).job;
    }
    assert forall k <- s.cells :: CanClaim(s.cells[k].job, s.now) <==> IsDue(t.jobs, k, s.now);
  }

  // ---- one claim and its execution ---------------------------------------------------------------

  predicate StampsInOrder(c: Config, g: Regime, at: int, st: Stamps) {
    at <= st.startedAt <= st.completedAt <= st.settledAt && (g.leased ==> st.settledAt <= at + c.leaseMs)
  }

  lemma ClaimSteps(c: Config, g: Regime, s: Cell, at: int, worker: string, rest: seq<Timed>)
    requires CanClaim(s.job, at) && |s.phases| == |s.claims| && (rest != [] ==> at <= rest[0].now)
    ensures var i := |s.phases|;
            var loaded := Move(ApplyClaim(s, at, worker), i, Loaded(ClaimRow(s.job, worker, at)));
            TimedRun(c, g, s, [At(at, Claim(worker))] + ([At(at, Load(i))] + rest)) == TimedRun(c, g, loaded, rest)
  {
    var i := |s.phases|;
    var claimed := ApplyClaim(s, at, worker);
    TimedCons(c, g, s, At(at, Claim(worker)), [At(at, Load(i))] + rest);
    TimedCons(c, g, claimed, At(at, Load(i)), rest);
  }

  lemma {:induction false} PairedRun(c: Config, g: Regime, s: Cell, timed: seq<Timed>)
    requires TimedRun(c, g, s, timed).Some? && |s.phases| == |s.claims|
    ensures var after := TimedRun(c, g, s, timed).value;
            |after.phases| == |after.claims|
    decreases |timed|
  {
    if timed != [] { PairedRun(c, g, CellApply(c, g, timed[0].now, s, timed[0].step), timed[1..]); }
  }

  lemma ClaimedIsRun(c: Config, g: Regime, s: Cell, id: EventId, worker: string, w: TickInputs)
    returns (timed: seq<Timed>, after: Cell)
    requires !g.fused && CanClaim(s.job, w.claimedAt(id)) && |s.phases| == |s.claims|
    requires StampsInOrder(c, g, w.claimedAt(id), w.stamps(id))
    ensures timed != [] && timed[0] == At(w.claimedAt(id), Claim(worker)) && EndOf(0, timed) <= w.stamps(id).settledAt
    ensures TimedRun(c, g, s, timed) == Some(after) && |after.phases| == |after.claims|
    ensures SliceOf(after) == DrainedSlice(c, SliceOf(s), id, worker, w)
  {
    var at, st, i := w.claimedAt(id), w.stamps(id), |s.phases|;
    var loaded := Move(ApplyClaim(s, at, worker), i, Loaded(ClaimRow(s.job, worker, at)));
    if w.reply(id).Answers? && loaded.job.attemptCount !in s.attempts {
      var rest := ExecutionSteps(i, st, w.reply(id).result);
      ClaimSteps(c, g, s, at, worker, rest);
      ExecutionRefinesProtocol(c, g, loaded, i, st, w.reply(id).result);
      timed := [At(at, Claim(worker))] + ([At(at, Load(i))] + rest);
      after := TimedRun(c, g, loaded, rest).value;
    } else {
      var rest := [At(st.startedAt, Start(i))];
      ClaimSteps(c, g, s, at, worker, rest);
      TimedCons(c, g, loaded, rest[0], []);
      timed := [At(at, Claim(worker))] + ([At(at, Load(i))] + rest);
      after := ApplyStart(loaded, st.startedAt, i);
      assert rest == [rest[0]] + [];
    }
    PairedRun(c, g, s, timed);
  }

  // ---- a whole drain ---------------------------------------------------------------------------------

  /** Each job of the batch is claimed after the one before it has been settled. */
  ghost predicate DrainInOrder(c: Config, g: Regime, from: int, ids: seq<EventId>, w: TickInputs) {
    && (forall i :: 0 <= i < |ids| ==> StampsInOrder(c, g, w.claimedAt(ids[i]), w.stamps(ids[i])))
    && (forall i :: 0 <= i < |ids| ==> from <= w.claimedAt(ids[i]))
    && (forall i, j :: 0 <= i < j < |ids| ==> w.stamps(ids[i]).settledAt <= w.claimedAt(ids[j]))
  }

  /** The clock has not passed any claim still to come. */
  ghost predicate Before(now: int, ids: seq<EventId>, i: nat, w: TickInputs) {
    forall j :: i <= j < |ids| ==> now <= w.claimedAt(ids[j])
  }

  lemma MatchesUpdate(s: System, t: Tables, id: EventId, cell: Cell, now: int, t': Tables)
    requires Matches(s, t) && id in s.cells
    requires t'.jobs.Keys == t.jobs.Keys && t'.events.Keys == t.events.Keys && SliceOf(cell) == SliceAt(t', id)
    requires forall k :: k in t.jobs && k != id ==> SliceAt(t', k) == SliceAt(t, k)
    ensures Matches(s.(now := now, cells := s.cells[id := cell]), t')
  {
    forall k | k in s.cells ensures SliceOf(s.cells[id := cell][k]) == SliceAt(t', k) {
      if k != id {
        assert SliceOf(s.cells[k]) == SliceAt(t, k);
      }
    }
  }

  /** The run tries to claim `id`, or finds it unclaimable, at some position. */
  ghost predicate Tries(c: Config, g: Regime, s: System, steps: seq<Step>, id: EventId) {
    exists i: nat :: TriesAt(c, g, s, steps, id, i)
  }

  lemma TriesOn(c: Config, g: Regime, s: System, steps: seq<Step>, more: seq<Step>, id: EventId)
    requires Tries(c, g, s, steps, id)
    ensures Tries(c, g, s, steps + more, id)
  {
    var i: nat :| TriesAt(c, g, s, steps, id, i);
    assert (steps + more)[..i] == steps[..i];
    assert TriesAt(c, g, s, steps + more, id, i);
  }

  /** A try that comes after `first`. */
  lemma TriesAfter(c: Config, g: Regime, s: System, first: seq<Step>, steps: seq<Step>, id: EventId)
    requires Run(c, g, s, first).Some? && Tries(c, g, Run(c, g, s, first).value, steps, id)
    ensures Tries(c, g, s, first + steps, id)
  {
    var i: nat :| TriesAt(c, g, Run(c, g, s, first).value, steps, id, i);
    RunJoin(c, g, s, first, steps[..i]);
    assert (first + steps)[..|first| + i] == first + steps[..i];
    assert TriesAt(c, g, s, first + steps, id, |first| + i);
  }

  /** A run that opens with the clock and then either claims `id` or finds it unclaimable. */
  lemma TriesFirst(c: Config, g: Regime, s: System, steps: seq<Step>, id: EventId, at: int)
    requires id in s.cells && s.now <= at && steps != [] && steps[0] == Advance(at)
    requires CanClaim(s.cells[id].job, at) ==> |steps| > 1 && steps[1].On? && steps[1].id == id && steps[1].step.Claim?
    ensures Tries(c, g, s, steps, id)
  {
    RunOne(c, g, s, Advance(at));
    assert steps[..1] == [Advance(at)];
    assert TriesAt(c, g, s, steps, id, 1);
  }

  lemma ClaimOne(c: Config, g: Regime, s: System, t: Tables, id: EventId, worker: string, w: TickInputs)
    returns (steps: seq<Step>, later: System)
    requires !g.fused && Matches(s, t) && Paired(s) && id in s.cells && CanClaim(s.cells[id].job, w.claimedAt(id))
    requires s.now <= w.claimedAt(id) && StampsInOrder(c, g, w.claimedAt(id), w.stamps(id))
    ensures Run(c, g, s, steps) == Some(later) && Matches(later, ClaimAndExecute(c, t, id, worker, w)) && Paired(later)
    ensures later.now <= w.stamps(id).settledAt && later.cells.Keys == s.cells.Keys
    ensures |steps| > 1 && steps[0] == Advance(w.claimedAt(id)) && steps[1] == On(id, Claim(worker))
  {
    var timed, after := ClaimedIsRun(c, g, s.cells[id], id, worker, w);
    PlayTimed(c, g, s, id, timed);
    steps, later := Played(id, timed), Replaced(s, EndOf(s.now, timed), id, after);
    MatchesClaim(c, s, t, id, worker, w, after, later.now);
  }

  lemma MatchesClaim(c: Config, s: System, t: Tables, id: EventId, worker: string, w: TickInputs, after: Cell, now: int)
    requires Matches(s, t) && id in s.cells && SliceOf(after) == DrainedSlice(c, SliceOf(s.cells[id]), id, worker, w)
    ensures Matches(Replaced(s, now, id, after), ClaimAndExecute(c, t, id, worker, w))
  {
    ClaimAndExecuteIsLocal(c, t, id, worker, w);
    assert SliceOf(s.cells[id]) == SliceAt(t, id);
    MatchesUpdate(s, t, id, after, now, ClaimAndExecute(c, t, id, worker, w));
  }

  lemma MatchesRecovery(c: Config, s: System, t: Tables, id: EventId, now: int, seen: Job, at: int, after: Cell)
    requires Matches(s, t) && id in s.cells && SliceOf(after) == SweepSlice(c, SliceOf(s.cells[id]), seen, now, at)
    ensures Matches(Replaced(s, at, id, after), RecoverRow(c, t, id, seen, now, at))
  {
    SweepIsLocal(c, t, id, seen, now, at);
    assert SliceOf(s.cells[id]) == SliceAt(t, id);
    MatchesUpdate(s, t, id, after, at, RecoverRow(c, t, id, seen, now, at));
  }

  lemma DrainOne(c: Config, g: Regime, s: System, t: Tables, id: EventId, worker: string, w: TickInputs)
    returns (steps: seq<Step>, later: System)
    requires !g.fused && Matches(s, t) && Paired(s) && id in s.cells
    requires s.now <= w.claimedAt(id) && StampsInOrder(c, g, w.claimedAt(id), w.stamps(id))
    ensures Run(c, g, s, steps) == Some(later) && Matches(later, ClaimAndExecute(c, t, id, worker, w)) && Paired(later)
    ensures later.now <= w.stamps(id).settledAt && later.cells.Keys == s.cells.Keys
    ensures Tries(c, g, s, steps, id)
  {
    if CanClaim(s.cells[id].job, w.claimedAt(id)) {
      steps, later := ClaimOne(c, g, s, t, id, worker, w);
    } else {
      steps, later := [Advance(w.claimedAt(id))], s.(now := w.claimedAt(id));
      RunOne(c, g, s, Advance(w.claimedAt(id)));
      assert SliceOf(s.cells[id]) == SliceAt(t, id);
    }
    TriesFirst(c, g, s, steps, id, w.claimedAt(id));
  }

  /** Every job up to position n is tried. */
  ghost predicate TriesAll(c: Config, g: Regime, s: System, steps: seq<Step>, ids: seq<EventId>, n: nat)
    requires n <= |ids|
  {
    forall i :: 0 <= i < n ==> Tries(c, g, s, steps, ids[i])
  }

  lemma TriesNext(c: Config, g: Regime, s: System, first: seq<Step>, second: seq<Step>, ids: seq<EventId>, i: nat)
    requires i < |ids| && Run(c, g, s, first).Some? && TriesAll(c, g, s, first, ids, i)
    requires Tries(c, g, Run(c, g, s, first).value, second, ids[i])
    ensures TriesAll(c, g, s, first + second, ids, i + 1)
  {
    TriesAfter(c, g, s, first, second, ids[i]);
    forall j | 0 <= j < i ensures Tries(c, g, s, first + second, ids[j]) {
      TriesOn(c, g, s, first, second, ids[j]);
    }
  }

  lemma {:induction false} DrainIsRun(c: Config, g: Regime, s: System, t: Tables, ids: seq<EventId>, n: nat, worker: string,
                                      w: TickInputs)
    returns (steps: seq<Step>, later: System)
    requires !g.fused && Matches(s, t) && Paired(s) && n <= |ids| && (forall id <- ids :: id in s.cells)
    requires DrainInOrder(c, g, s.now, ids, w)
    ensures Run(c, g, s, steps) == Some(later) && Matches(later, DrainAll(c, t, ids[..n], worker, w)) && Paired(later)
    ensures Before(later.now, ids, n, w) && later.cells.Keys == s.cells.Keys
    ensures TriesAll(c, g, s, steps, ids, n)
  {
    if n == 0 {
      steps, later := [], s;
    } else {
      var i := n - 1;
      var first, second, mid;
      first, mid := DrainIsRun(c, g, s, t, ids, i, worker, w);
      DrainNext(c, t, ids, i, worker, w);
      second, later := DrainOne(c, g, mid, DrainAll(c, t, ids[..i], worker, w), ids[i], worker, w);
      steps := first + second;
      RunJoin(c, g, s, first, second);
      TriesNext(c, g, s, first, second, ids, i);
    }
  }

  // ---- a whole recovery pass ------------------------------------------------------------------------

  /** The last recovery entered for this event read `seen` at `now` and has done nothing yet. */
  predicate Watches(s: Cell, now: int, seen: Job) {
    s.recs != [] && s.recs[|s.recs| - 1].now == now && s.recs[|s.recs| - 1].sweep == Sweep.Seen(seen)
  }

  /** Nobody else is recovering the job, where the regime excludes that. */
  ghost predicate Unswept(g: Regime, s: Cell) {
    g.solo ==> forall r <- s.recs :: !MidSweep(r)
  }

  /** From position n on, every job of the batch is being watched. */
  ghost predicate Watched(s: System, ids: seq<EventId>, n: nat, now: int, seen: map<EventId, Job>) {
    forall i :: n <= i < |ids| ==> ids[i] in s.cells && ids[i] in seen && Watches(s.cells[ids[i]], now, seen[ids[i]])
  }

  lemma ReadOne(c: Config, g: Regime, s: System, id: EventId) returns (later: System)
    requires Paired(s) && id in s.cells && IsStale(s.cells[id].job, s.now - c.leaseMs) && Unswept(g, s.cells[id])
    ensures Leads(c, g, s, later) && later.now == s.now && later.cells.Keys == s.cells.Keys && Paired(later)
    ensures SliceOf(later.cells[id]) == SliceOf(s.cells[id]) && Watches(later.cells[id], s.now, s.cells[id].job)
    ensures forall k :: k in s.cells && k != id ==> later.cells[k] == s.cells[k]
  {
    var step := On(id, ReadStale(0, s.now));
    later := Apply(c, g, s, step);
    LeadsByStep(c, g, s, step);
  }

  ghost predicate SameRows(s: System, later: System) {
    && later.cells.Keys == s.cells.Keys
    && forall k <- s.cells :: SliceOf(later.cells[k]) == SliceOf(s.cells[k])
  }

  /** Up to position n the batch has been read at `s.now`, and the rest of it has not. */
  ghost predicate ReadUpTo(s: System, later: System, ids: seq<EventId>, n: nat) {
    && (forall i :: 0 <= i < |ids| ==> ids[i] in s.cells && ids[i] in later.cells)
    && (forall i :: n <= i < |ids| ==> later.cells[ids[i]] == s.cells[ids[i]])
    && (forall i :: 0 <= i < n && i < |ids| ==> Watches(later.cells[ids[i]], s.now, s.cells[ids[i]].job))
  }

  lemma ReadUpToNext(s: System, mid: System, later: System, ids: seq<EventId>, i: nat)
    requires i < |ids| && Collections.NoRepeats(ids) && ReadUpTo(s, mid, ids, i) && later.cells.Keys == mid.cells.Keys
    requires Watches(later.cells[ids[i]], s.now, s.cells[ids[i]].job)
    requires forall k :: k in mid.cells && k != ids[i] ==> later.cells[k] == mid.cells[k]
    ensures ReadUpTo(s, later, ids, i + 1)
  {
  }

  lemma {:induction false} ReadBatch(c: Config, g: Regime, s: System, ids: seq<EventId>, n: nat) returns (later: System)
    requires n <= |ids| && Collections.NoRepeats(ids) && Paired(s)
    requires forall id <- ids :: id in s.cells && IsStale(s.cells[id].job, s.now - c.leaseMs) && Unswept(g, s.cells[id])
    ensures Leads(c, g, s, later) && later.now == s.now && SameRows(s, later) && Paired(later)
    ensures ReadUpTo(s, later, ids, n)
  {
    if n == 0 {
      later := s;
      LeadsNowhere(c, g, s);
    } else {
      var i := n - 1;
      var mid := ReadBatch(c, g, s, ids, i);
      assert mid.cells[ids[i]] == s.cells[ids[i]];
      later := ReadOne(c, g, mid, ids[i]);
      LeadsOn(c, g, s, mid, later);
      ReadUpToNext(s, mid, later, ids, i);
    }
  }

  lemma SweptIsRun(c: Config, g: Regime, s: Cell, now: int, seen: Job, at: int) returns (timed: seq<Timed>, after: Cell)
    requires !g.fused && Watches(s, now, seen)
    ensures timed != [] && timed[0].now == at && EndOf(0, timed) == at
    ensures TimedRun(c, g, s, timed) == Some(after) && SliceOf(after) == SweepSlice(c, SliceOf(s), seen, now, at)
  {
    var r := |s.recs| - 1;
    SweepRefinesProtocol(c, g, s, r, at);
    timed := [At(at, CloseAbandoned(r)), At(at, Release(r))] + if CanRelease(s.job, seen) then [At(at, WriteReleased(r))] else [];
    after := TimedRun(c, g, s, timed).value;
  }

  ghost predicate SweepInOrder(from: int, ids: seq<EventId>, at: EventId -> int) {
    && (forall i :: 0 <= i < |ids| ==> from <= at(ids[i]))
    && (forall i, j :: 0 <= i < j < |ids| ==> at(ids[i]) <= at(ids[j]))
  }

  lemma RecoverOneIsRun(c: Config, g: Regime, s: System, t: Tables, id: EventId, now: int, seen: Job, at: int)
    returns (later: System)
    requires !g.fused && Matches(s, t) && Paired(s) && id in s.cells && Watches(s.cells[id], now, seen) && s.now <= at
    ensures Leads(c, g, s, later) && Matches(later, RecoverRow(c, t, id, seen, now, at)) && Paired(later)
    ensures later.now == at && later.cells.Keys == s.cells.Keys
    ensures forall k :: k in s.cells && k != id ==> later.cells[k] == s.cells[k]
  {
    var cell := s.cells[id];
    var timed, after := SweptIsRun(c, g, cell, now, seen, at);
    PlayTimed(c, g, s, id, timed);
    PairedRun(c, g, cell, timed);
    later := Replaced(s, EndOf(s.now, timed), id, after);
    MatchesRecovery(c, s, t, id, now, seen, at, after);
  }

  lemma WatchedNext(mid: System, later: System, ids: seq<EventId>, i: nat, now: int, seen: map<EventId, Job>)
    requires i < |ids| && Collections.NoRepeats(ids) && Watched(mid, ids, i, now, seen) && later.cells.Keys == mid.cells.Keys
    requires forall k :: k in mid.cells && k != ids[i] ==> later.cells[k] == mid.cells[k]
    ensures Watched(later, ids, i + 1, now, seen)
  {
  }

  lemma {:induction false} RecoverIsRun(c: Config, g: Regime, s: System, t: Tables, ids: seq<EventId>, n: nat, seen: map<EventId, Job>,
                                        now: int, at: EventId -> int)
    returns (later: System)
    requires !g.fused && Matches(s, t) && Paired(s) && n <= |ids| && Collections.NoRepeats(ids) && (forall id <- ids :: id in seen)
    requires Watched(s, ids, 0, now, seen) && SweepInOrder(s.now, ids, at)
    ensures Leads(c, g, s, later) && Matches(later, SweepAll(c, t, ids[..n], seen, now, at)) && Paired(later)
    ensures later.now == (if n == 0 then s.now else at(ids[n - 1])) && Watched(later, ids, n, now, seen)
  {
    if n == 0 {
      later := s;
      LeadsNowhere(c, g, s);
    } else {
      var i := n - 1;
      var mid := RecoverIsRun(c, g, s, t, ids, i, seen, now, at);
      var tables := SweepAll(c, t, ids[..i], seen, now, at);
      SweepNext(c, t, ids, i, seen, now, at);
      later := RecoverOneIsRun(c, g, mid, tables, ids[i], now, seen[ids[i]], at(ids[i]));
      WatchedNext(mid, later, ids, i, now, seen);
      LeadsOn(c, g, s, mid, later);
    }
  }

  // ---- a whole tick ---------------------------------------------------------------------------------------

  /** The moments of a tick, none before the one it follows. */
  ghost predicate TickInOrder(c: Config, g: Regime, now: int, stale: seq<EventId>, due: seq<EventId>, w: TickInputs) {
    && now <= w.startedAt
    && SweepInOrder(w.startedAt, stale, w.closedAt)
    && (forall id <- stale :: w.closedAt(id) <= w.dueAt)
    && w.startedAt <= w.dueAt
    && DrainInOrder(c, g, w.dueAt, due, w)
  }

  lemma AdvanceTo(c: Config, g: Regime, s: System, t: Tables, to: int)
    requires s.now <= to && Matches(s, t) && Paired(s)
    ensures Leads(c, g, s, s.(now := to)) && Matches(s.(now := to), t) && Paired(s.(now := to))
  {
    LeadsByStep(c, g, s, Advance(to));
  }

  lemma SweepPartIsRun(c: Config, g: Regime, s: System, t: Tables, stale: seq<EventId>, w: TickInputs) returns (later: System)
    requires !g.fused && Matches(s, t) && Paired(s) && s.now <= w.startedAt && Collections.NoRepeats(stale)
    requires forall id <- stale :: id in t.jobs && IsStale(t.jobs[id], w.startedAt - c.leaseMs) && Unswept(g, s.cells[id])
    requires SweepInOrder(w.startedAt, stale, w.closedAt)
    ensures Leads(c, g, s, later) && Paired(later)
    ensures Matches(later, SweepAll(c, t, stale, t.jobs, w.startedAt, w.closedAt))
    ensures later.now == if stale == [] then w.startedAt else w.closedAt(stale[|stale| - 1])
  {
    AdvanceTo(c, g, s, t, w.startedAt);
    var started := s.(now := w.startedAt);
    forall id <- stale ensures s.cells[id].job == t.jobs[id] {
      assert SliceOf(s.cells[id]) == SliceAt(t, id);
    }
    var read := ReadBatch(c, g, started, stale, |stale|);
    LeadsOn(c, g, s, started, read);
    later := RecoverIsRun(c, g, read, t, stale, |stale|, t.jobs, w.startedAt, w.closedAt);
    LeadsOn(c, g, s, read, later);
    assert stale[..|stale|] == stale;
  }

  /** The recovery of a tick, up to the moment the worker reads what is due. */
  lemma RecoveryLeads(c: Config, g: Regime, s: System, t: Tables, stale: seq<EventId>, swept: Tables, due: seq<EventId>,
                      w: TickInputs)
    returns (ready: System)
    requires !g.fused && Matches(s, t) && Paired(s) && Collections.NoRepeats(stale)
    requires forall id <- stale :: id in t.jobs && IsStale(t.jobs[id], w.startedAt - c.leaseMs) && Unswept(g, s.cells[id])
    requires swept == SweepAll(c, t, stale, t.jobs, w.startedAt, w.closedAt)
    requires TickInOrder(c, g, s.now, stale, due, w)
    ensures Leads(c, g, s, ready) && Matches(ready, swept) && Paired(ready) && ready.now == w.dueAt
  {
    var mid := SweepPartIsRun(c, g, s, t, stale, w);
    AdvanceTo(c, g, mid, swept, w.dueAt);
    ready := mid.(now := w.dueAt);
    LeadsOn(c, g, s, mid, ready);
  }

  lemma TickLeads(c: Config, g: Regime, s: System, t: Tables, stale: seq<EventId>, swept: Tables, due: seq<EventId>,
                  worker: string, w: TickInputs)
    returns (ready: System, steps: seq<Step>, later: System)
    requires !g.fused && Matches(s, t) && Paired(s) && Collections.NoRepeats(stale)
    requires forall id <- stale :: id in t.jobs && IsStale(t.jobs[id], w.startedAt - c.leaseMs) && Unswept(g, s.cells[id])
    requires swept == SweepAll(c, t, stale, t.jobs, w.startedAt, w.closedAt) && forall id <- due :: id in swept.jobs
    requires TickInOrder(c, g, s.now, stale, due, w)
    ensures Leads(c, g, s, ready) && Matches(ready, swept) && ready.now == w.dueAt
    ensures Run(c, g, ready, steps) == Some(later) && Matches(later, DrainAll(c, swept, due, worker, w))
    ensures TriesAll(c, g, ready, steps, due, |due|)
  {
    ready := RecoveryLeads(c, g, s, t, stale, swept, due, w);
    steps, later := DrainIsRun(c, g, ready, swept, due, |due|, worker, w);
    assert due[..|due|] == due;
  }

  lemma ReachablePaired(c: Config, g: Regime, t0: int, steps: seq<Step>, s: System)
    requires Reaches(c, g, t0, steps, s)
    ensures Paired(s)
  {
    Reachability.Invariant(c, g, t0, steps, s);
  }

  /** What RunOnce promises, with `served` the part of the due batch it got to. */
  ghost predicate RanOnce(c: Config, before: Journal, w: TickInputs, worker: string, limit: nat, stale: seq<EventId>,
                          mid: Journal, due: seq<EventId>, served: nat, after: Journal)
    requires served <= |due|
  {
    && AreOldestExpired(before.tables.jobs, w.startedAt - c.leaseMs, limit, stale)
    && SweptAll(c, before, stale, w, mid)
    && AreOldestDue(mid.tables.jobs, w.dueAt, limit, due)
    && DrainedAll(c, mid, due[..served], worker, w, after)
  }

  lemma RanOnceTables(c: Config, before: Journal, w: TickInputs, worker: string, limit: nat, stale: seq<EventId>,
                      mid: Journal, due: seq<EventId>, served: nat, after: Journal)
    requires served <= |due| && RanOnce(c, before, w, worker, limit, stale, mid, due, served, after)
    ensures Collections.NoRepeats(stale)
    ensures forall id <- stale :: id in before.tables.jobs && IsStale(before.tables.jobs[id], w.startedAt - c.leaseMs)
    ensures mid.tables == SweepAll(c, before.tables, stale, before.tables.jobs, w.startedAt, w.closedAt)
    ensures forall id <- due[..served] :: id in mid.tables.jobs
    ensures after.tables == DrainAll(c, mid.tables, due[..served], worker, w)
  {
    QueriedRows(before.tables.jobs, w.startedAt - c.leaseMs, 0, limit, stale, [], 0);
    QueriedRows(mid.tables.jobs, 0, w.dueAt, limit, [], due, served);
  }

  lemma TickFrom(c: Config, g: Regime, s: System, before: Journal, w: TickInputs, worker: string, limit: nat,
                 stale: seq<EventId>, mid: Journal, due: seq<EventId>, served: nat, after: Journal)
    returns (ready: System, tick: seq<Step>, later: System)
    requires !g.fused && Matches(s, before.tables) && Paired(s)
    requires served <= |due| && RanOnce(c, before, w, worker, limit, stale, mid, due, served, after)
    requires TickInOrder(c, g, s.now, stale, due[..served], w) && forall id <- stale :: Unswept(g, s.cells[id])
    ensures Leads(c, g, s, ready) && Matches(ready, mid.tables) && ready.now == w.dueAt
    ensures Run(c, g, ready, tick) == Some(later) && Matches(later, after.tables)
    ensures TriesAll(c, g, ready, tick, due[..served], served)
  {
    RanOnceTables(c, before, w, worker, limit, stale, mid, due, served, after);
    ready, tick, later := TickLeads(c, g, s, before.tables, stale, mid.tables, due[..served], worker, w);
  }

  /** A drain that nothing cuts short is a full tick. */
  lemma TickIsFull(c: Config, g: Regime, limit: nat, ready: System, t: Tables, due: seq<EventId>, served: nat, tick: seq<Step>)
    requires Matches(ready, t) && AreOldestDue(t.jobs, ready.now, limit, due) && Run(c, g, ready, tick).Some?
    requires served <= |due| && TriesAll(c, g, ready, tick, due[..served], served)
    ensures served == |due| ==> FullTick(c, g, limit, ready, due, tick)
  {
    if served == |due| {
      assert due[..served] == due;
      DueBatchIsTried(c, g, limit, ready, t, due, tick);
    }
  }

  /**
   * The tables after RunOnce, from any reachable system nobody else touches meanwhile, are those of
   * a reachable system; and when no shutdown cuts the drain short, the steps from the moment the
   * worker reads what is due are a full tick in the sense of bounded bypass. `stale`, `mid` and `due`
   * are the ghost results of RunOnce.
   */
  lemma TickIsRun(c: Config, g: Regime, t0: int, steps: seq<Step>, s: System, before: Journal, w: TickInputs, worker: string,
                  limit: nat, stale: seq<EventId>, mid: Journal, due: seq<EventId>, served: nat, after: Journal)
    returns (front: seq<Step>, ready: System, tick: seq<Step>, later: System)
    requires Reaches(c, g, t0, steps, s) && !g.fused && Matches(s, before.tables)
    requires served <= |due| && RanOnce(c, before, w, worker, limit, stale, mid, due, served, after)
    requires TickInOrder(c, g, s.now, stale, due[..served], w) && forall id <- stale :: Unswept(g, s.cells[id])
    ensures Reaches(c, g, t0, front, ready) && Matches(ready, mid.tables) && ready.now == w.dueAt
    ensures Reaches(c, g, t0, front + tick, later) && Matches(later, after.tables)
    ensures Run(c, g, ready, tick) == Some(later)
    ensures served == |due| ==> FullTick(c, g, limit, ready, due, tick)
  {
    ReachablePaired(c, g, t0, steps, s);
    ready, tick, later := TickFrom(c, g, s, before, w, worker, limit, stale, mid, due, served, after);
    front := ReachedThrough(c, g, t0, steps, s, ready, tick);
    TickIsFull(c, g, limit, ready, mid.tables, due, served, tick);
  }

  lemma ReachedThrough(c: Config, g: Regime, t0: int, steps: seq<Step>, s: System, ready: System, tick: seq<Step>)
    returns (front: seq<Step>)
    requires Reaches(c, g, t0, steps, s) && Leads(c, g, s, ready) && Run(c, g, ready, tick).Some?
    ensures Reaches(c, g, t0, front, ready)
    ensures Reaches(c, g, t0, front + tick, Run(c, g, ready, tick).value)
  {
    LeadsOn(c, g, Empty(t0), s, ready);
    front :| Run(c, g, Empty(t0), front) == Some(ready);
    RunJoin(c, g, Empty(t0), front, tick);
  }

  lemma DueBatchIsTried(c: Config, g: Regime, limit: nat, ready: System, t: Tables, due: seq<EventId>, tick: seq<Step>)
    requires Matches(ready, t) && AreOldestDue(t.jobs, ready.now, limit, due)
    requires Run(c, g, ready, tick).Some? && TriesAll(c, g, ready, tick, due, |due|)
    ensures FullTick(c, g, limit, ready, due, tick)
  {
    OldestIsDueBatch(ready, t, limit, due);
    forall k <- due ensures exists i :: TriesAt(c, g, ready, tick, k, i) {
      var j :| 0 <= j < |due| && due[j] == k;
      assert Tries(c, g, ready, tick, due[j]);
    }
  }
}
