/**
 * The promise chain that serialises transactions on SQLite (transaction.runner.ts). `run` chains
 * each unit of work behind `queue` and puts a settled-or-not continuation of it in `queue`'s place;
 * the runtime starts a unit when the promise it waits for is fulfilled, and settles it later.
 */
module SerialQueue {
  import opened DeliveryTypes

  type Db = map<string, string>

  datatype Outcome = Success(db: Db, value: string) | Failure(error: string)

  /** A unit of work maps the database it starts from to what it commits, or fails. */
  type Work = Db -> Outcome

  datatype State = Waiting | Active(start: Db) | Fulfilled(value: string) | Rejected(error: string)

  /** A promise, and the index of the promise it continues. */
  datatype Promise = Promise(after: nat, state: State)

  /**
   * The promises made so far and the database. Promise 0 is Promise.resolve(); the k-th call makes
   * promise 2k+1, its result, and 2k+2, the continuation that keeps the chain alive.
   */
  datatype Loop = Loop(promises: seq<Promise>, queue: nat, units: seq<Work>, db: Db, order: seq<nat>)

  function Start(db: Db): Loop {
    Loop([Promise(0, Fulfilled(""))], 0, [], db, [])
  }

  // ---- what the runtime may do -------------------------------------------------------

  datatype Step =
    | Call(work: Work)     // run(work) is called
    | Begin(k: nat)        // the result of call k starts its transaction
    | Settle(k: nat)       // that transaction commits or rolls back
    | Continue(k: nat)     // the continuation of call k runs

  function ResultOf(k: nat): nat { 2 * k + 1 }

  function LinkOf(k: nat): nat { 2 * k + 2 }

  predicate IsSettled(s: State) { s.Fulfilled? || s.Rejected? }

  predicate Ready(l: Loop, p: nat) {
    p < |l.promises| && l.promises[p].state.Waiting? && l.promises[p].after < |l.promises|
  }

  predicate Enabled(l: Loop, step: Step) {
    match step
    case Call(_) => true
    case Begin(k) =>
      k < |l.units| && Ready(l, ResultOf(k)) && l.promises[l.promises[ResultOf(k)].after].state.Fulfilled?
    case Settle(k) => k < |l.units| && ResultOf(k) < |l.promises| && l.promises[ResultOf(k)].state.Active?
    case Continue(k) =>
      k < |l.units| && Ready(l, LinkOf(k)) && IsSettled(l.promises[l.promises[LinkOf(k)].after].state)
  }

  /** run: the result waits for the queue, and the queue becomes a continuation of the result. */
  function ApplyCall(l: Loop, work: Work): Loop {
    var result := |l.promises|;
    l.(promises := l.promises + [Promise(l.queue, Waiting), Promise(result, Waiting)],
       queue := result + 1,
       units := l.units + [work])
  }

  function Set(l: Loop, p: nat, s: State): Loop
    requires p < |l.promises|
  {
    l.(promises := l.promises[p := l.promises[p].(state := s)])
  }

  function Apply(l: Loop, step: Step): Loop
    requires Enabled(l, step)
  {
    match step
    case Call(work) => ApplyCall(l, work)
    case Begin(k) => Set(l, ResultOf(k), Active(l.db)).(order := l.order + [k])
    case Settle(k) =>
      var out := l.units[k](l.promises[ResultOf(k)].state.start);
      if out.Success? then Set(l, ResultOf(k), Fulfilled(out.value)).(db := out.db)
      else Set(l, ResultOf(k), Rejected(out.error))
    case Continue(k) => Set(l, LinkOf(k), Fulfilled(""))
  }

  function Run(db: Db, steps: seq<Step>): Option<Loop> {
    if steps == [] then Some(Start(db))
    else
      match Run(db, steps[..|steps| - 1])
      case None => None
      case Some(l) => if Enabled(l, steps[|steps| - 1]) then Some(Apply(l, steps[|steps| - 1])) else None
  }

  // ---- the specification: one unit after another ---------------------------------------

  /** The database after the units, each starting where the one before left it; a failed unit leaves it alone. */
  function Fold(db: Db, units: seq<Work>): Db {
    if units == [] then db
    else
      var before := Fold(db, units[..|units| - 1]);
      var out := units[|units| - 1](before);
      if out.Success? then out.db else before
  }

  /** What call k is told: the outcome of its own unit on what the earlier units left. */
  function Answer(db: Db, units: seq<Work>, k: nat): State
    requires k < |units|
  {
    var out := units[k](Fold(db, units[..k]));
    if out.Success? then Fulfilled(out.value) else Rejected(out.error)
  }

  // ---- invariant -------------------------------------------------------------------------

  /** The promises form one chain, two per call. */
  ghost predicate Chained(l: Loop) {
    && |l.promises| == 2 * |l.units| + 1
    && l.queue == 2 * |l.units|
    && l.promises[0].state == Fulfilled("")
    && (forall k :: 0 <= k < |l.units| ==> l.promises[ResultOf(k)].after == 2 * k && l.promises[LinkOf(k)].after == ResultOf(k))
  }

  /** Calls before m are over, call m may be under way, and nothing after it has begun. */
  ghost predicate Progressed(db: Db, l: Loop, m: nat)
    requires Chained(l)
  {
    && m <= |l.units|
    && l.db == Fold(db, l.units[..m])
    && (forall k :: 0 <= k < m ==> l.promises[ResultOf(k)].state == Answer(db, l.units, k))
    && (forall k :: 0 <= k < m - 1 ==> l.promises[LinkOf(k)].state == Fulfilled(""))
    && (m > 0 ==> l.promises[LinkOf(m - 1)].state in {Waiting, Fulfilled("")})
    && (m < |l.units| ==>
          || l.promises[ResultOf(m)].state.Waiting?
          || (l.promises[ResultOf(m)].state == Active(l.db) && l.promises[2 * m].state.Fulfilled?))
    && (forall k :: m < k < |l.units| ==> l.promises[ResultOf(k)].state.Waiting?)
    && (forall k :: m <= k < |l.units| ==> l.promises[LinkOf(k)].state.Waiting?)
    && |l.order| == (if m < |l.units| && l.promises[ResultOf(m)].state.Active? then m + 1 else m)
    && (forall j :: 0 <= j < |l.order| ==> l.order[j] == j)
  }

  ghost predicate Serial(db: Db, l: Loop) {
    Chained(l) && exists m: nat :: Progressed(db, l, m)
  }

  lemma ChainedStep(l: Loop, step: Step)
    requires Chained(l) && Enabled(l, step)
    ensures Chained(Apply(l, step))
  {
  }

  lemma FoldPrefix(db: Db, units: seq<Work>, m: nat)
    requires m < |units|
    ensures Fold(db, units[..m + 1]) ==
            var out := units[m](Fold(db, units[..m])); if out.Success? then out.db else Fold(db, units[..m])
  {
    assert units[..m + 1][..m] == units[..m];
  }

  lemma AnswerExtends(db: Db, units: seq<Work>, work: Work, k: nat)
    requires k < |units|
    ensures Answer(db, units + [work], k) == Answer(db, units, k)
  {
    assert (units + [work])[..k] == units[..k];
  }

  lemma CallKeeps(db: Db, l: Loop, m: nat, work: Work)
    requires Chained(l) && Progressed(db, l, m)
    ensures Chained(ApplyCall(l, work)) && Progressed(db, ApplyCall(l, work), m)
  {
    var l' := ApplyCall(l, work);
    ChainedStep(l, Call(work));
    assert l'.units[..m] == l.units[..m];
    forall k | 0 <= k < m ensures Answer(db, l'.units, k) == Answer(db, l.units, k) {
      AnswerExtends(db, l.units, work, k);
    }
  }

  /** Only the call whose turn it is can begin. */
  lemma BeginKeeps(db: Db, l: Loop, m: nat, k: nat)
    requires Chained(l) && Progressed(db, l, m) && Enabled(l, Begin(k))
    ensures k == m && Chained(Apply(l, Begin(k))) && Progressed(db, Apply(l, Begin(k)), m)
  {
    ChainedStep(l, Begin(k));
    assert k > 0 ==> 2 * k == LinkOf(k - 1);
  }

  /** Settling the call whose turn it is gives it its answer, and the database the next prefix. */
  lemma SettleAnswers(db: Db, l: Loop, m: nat)
    requires Chained(l) && m < |l.units| && l.db == Fold(db, l.units[..m])
    requires l.promises[ResultOf(m)].state == Active(l.db)
    ensures var l' := Apply(l, Settle(m));
            l'.promises[ResultOf(m)].state == Answer(db, l.units, m) && l'.db == Fold(db, l.units[..m + 1])
  {
    FoldPrefix(db, l.units, m);
  }

  lemma SettleKeeps(db: Db, l: Loop, m: nat, k: nat)
    requires Chained(l) && Progressed(db, l, m) && Enabled(l, Settle(k))
    ensures k == m && Chained(Apply(l, Settle(k))) && Progressed(db, Apply(l, Settle(k)), m + 1)
  {
    OnlyTurnActive(db, l, m, ResultOf(k));
    ChainedStep(l, Settle(m));
    SettleAnswers(db, l, m);
    SettleOthers(db, l, m);
  }

  /** Nothing else moves. */
  lemma SettleOthers(db: Db, l: Loop, m: nat)
    requires Chained(l) && Progressed(db, l, m) && Enabled(l, Settle(m)) && Chained(Apply(l, Settle(m)))
    requires Apply(l, Settle(m)).promises[ResultOf(m)].state == Answer(db, l.units, m)
    requires Apply(l, Settle(m)).db == Fold(db, l.units[..m + 1])
    ensures Progressed(db, Apply(l, Settle(m)), m + 1)
  {
    assert m > 0 ==> 2 * m == LinkOf(m - 1);
  }

  lemma ContinueKeeps(db: Db, l: Loop, m: nat, k: nat)
    requires Chained(l) && Progressed(db, l, m) && Enabled(l, Continue(k))
    ensures Chained(Apply(l, Continue(k))) && Progressed(db, Apply(l, Continue(k)), m)
  {
    ChainedStep(l, Continue(k));
  }

  lemma SerialStep(db: Db, l: Loop, step: Step)
    requires Serial(db, l) && Enabled(l, step)
    ensures Serial(db, Apply(l, step))
  {
    var m: nat :| Progressed(db, l, m);
    match step
    case Call(work) => CallKeeps(db, l, m, work);
    case Begin(k) => BeginKeeps(db, l, m, k);
    case Settle(k) => SettleKeeps(db, l, m, k);
    case Continue(k) => ContinueKeeps(db, l, m, k);
  }

  lemma {:induction false} SerialRun(db: Db, steps: seq<Step>)
    requires Run(db, steps).Some?
    ensures Serial(db, Run(db, steps).value)
  {
    if steps == [] {
      assert Progressed(db, Start(db), 0);
    } else {
      var front := steps[..|steps| - 1];
      SerialRun(db, front);
      SerialStep(db, Run(db, front).value, steps[|steps| - 1]);
    }
  }

  // ---- guarantees ------------------------------------------------------------------------

  /** At most one unit is active. */
  lemma AtMostOneActive(db: Db, steps: seq<Step>, l: Loop, p: nat, q: nat)
    requires Run(db, steps) == Some(l) && p < |l.promises| && q < |l.promises|
    requires l.promises[p].state.Active? && l.promises[q].state.Active?
    ensures p == q
  {
    SerialRun(db, steps);
    var m: nat :| Progressed(db, l, m);
    OnlyTurnActive(db, l, m, p);
    OnlyTurnActive(db, l, m, q);
  }

  lemma OnlyTurnActive(db: Db, l: Loop, m: nat, p: nat)
    requires Chained(l) && Progressed(db, l, m) && p < |l.promises| && l.promises[p].state.Active?
    ensures p == ResultOf(m)
  {
    if p > 0 {
      var k := (p - 1) / 2;
      var result, link := ResultOf(k), LinkOf(k);
      assert p == result || p == link;
    }
  }

  /**
   * Units begin once each and in call order; every caller gets the outcome of its own unit, a
   * failing unit changing nothing for the others; and once all have settled the database is the
   * successful units applied in call order.
   */
  lemma QueueIsSerial(db: Db, steps: seq<Step>, l: Loop)
    requires Run(db, steps) == Some(l)
    ensures |l.order| <= |l.units| && forall j :: 0 <= j < |l.order| ==> l.order[j] == j
    ensures |l.promises| == 2 * |l.units| + 1
    ensures forall k :: 0 <= k < |l.units| && IsSettled(l.promises[ResultOf(k)].state) ==>
              l.promises[ResultOf(k)].state == Answer(db, l.units, k)
    ensures (forall k :: 0 <= k < |l.units| ==> IsSettled(l.promises[ResultOf(k)].state)) ==> l.db == Fold(db, l.units)
  {
    SerialRun(db, steps);
    var m: nat :| Progressed(db, l, m);
    SettledPrefix(db, l, m);
  }

  /** One database for each moment between units: a unit that commits leads to the next, a failing one changes nothing. */
  ghost predicate IsHistory(db: Db, units: seq<Work>, dbs: seq<Db>) {
    && |dbs| == |units| + 1 && dbs[0] == db
    && forall k :: 0 <= k < |units| ==>
         match units[k](dbs[k])
         case Success(after, _) => dbs[k + 1] == after
         case Failure(_) => dbs[k + 1] == dbs[k]
  }

  /** The promise of the call holds what its unit made of the database it found. */
  predicate Holds(state: State, outcome: Outcome) {
    match outcome
    case Success(_, value) => state == Fulfilled(value)
    case Failure(error) => state == Rejected(error)
  }

  /**
   * Every run is a history in call order: each settled call holds the outcome of its unit on the
   * database the earlier ones left, and once all have settled the last database is the stored one.
   */
  lemma QueueIsHistory(db: Db, steps: seq<Step>, l: Loop) returns (dbs: seq<Db>)
    requires Run(db, steps) == Some(l)
    ensures IsHistory(db, l.units, dbs) && |l.promises| == 2 * |l.units| + 1
    ensures forall k :: 0 <= k < |l.units| && IsSettled(l.promises[ResultOf(k)].state) ==>
              Holds(l.promises[ResultOf(k)].state, l.units[k](dbs[k]))
    ensures (forall k :: 0 <= k < |l.units| ==> IsSettled(l.promises[ResultOf(k)].state)) ==> l.db == dbs[|l.units|]
  {
    dbs := seq(|l.units| + 1, k requires 0 <= k <= |l.units| => Fold(db, l.units[..k]));
    QueueIsSerial(db, steps, l);
    forall k: nat | k < |l.units|
      ensures match l.units[k](dbs[k]) case Success(after, _) => dbs[k + 1] == after case Failure(_) => dbs[k + 1] == dbs[k]
    {
      FoldPrefix(db, l.units, k);
    }
    assert l.units[..|l.units|] == l.units;
  }

  /** The settled calls are the first m. */
  lemma SettledPrefix(db: Db, l: Loop, m: nat)
    requires Chained(l) && Progressed(db, l, m)
    ensures forall k :: 0 <= k < |l.units| ==> (IsSettled(l.promises[ResultOf(k)].state) <==> k < m)
    ensures m == |l.units| ==> l.db == Fold(db, l.units)
  {
    assert m == |l.units| ==> l.units[..m] == l.units;
  }

  /** The step the runtime can take for the call whose turn it is. */
  ghost function NextTurn(l: Loop, m: nat): Step
    requires m < |l.units| && Chained(l)
  {
    if l.promises[ResultOf(m)].state.Active? then Settle(m)
    else if l.promises[2 * m].state.Fulfilled? then Begin(m)
    else Continue(if m > 0 then m - 1 else 0)
  }

  lemma TurnIsEnabled(db: Db, l: Loop, m: nat)
    requires Chained(l) && Progressed(db, l, m) && m < |l.units|
    ensures Enabled(l, NextTurn(l, m))
  {
    if m > 0 {
      assert 2 * m == LinkOf(m - 1);
      assert l.promises[LinkOf(m - 1)].after == ResultOf(m - 1);
    }
  }

  /** The chain never stalls: while a call is unsettled, the runtime has a step to take. */
  lemma QueueNeverStalls(db: Db, steps: seq<Step>, l: Loop, k: nat)
    requires Run(db, steps) == Some(l) && k < |l.units|
    requires |l.promises| > ResultOf(k) && !IsSettled(l.promises[ResultOf(k)].state)
    ensures exists step: Step :: !step.Call? && Enabled(l, step)
  {
    SerialRun(db, steps);
    var m: nat :| Progressed(db, l, m);
    SettledPrefix(db, l, m);
    TurnIsEnabled(db, l, m);
  }

  // ---- how long it takes ---------------------------------------------------------------------

  /** The steps of the runtime that a call's two promises have had: two for the result, one for the link. */
  function Had(l: Loop, k: nat): nat
    requires LinkOf(k) < |l.promises|
  {
    var result, link := l.promises[ResultOf(k)].state, l.promises[LinkOf(k)].state;
    (if result.Waiting? then 0 else if result.Active? then 1 else 2) + (if link.Waiting? then 0 else 1)
  }

  function HadBelow(l: Loop, n: nat): nat
    requires 2 * n < |l.promises|
  {
    if n == 0 then 0 else HadBelow(l, n - 1) + Had(l, n - 1)
  }

  /** Steps of the runtime in a run. */
  function Turns(steps: seq<Step>): nat {
    if steps == [] then 0 else Turns(steps[..|steps| - 1]) + if steps[|steps| - 1].Call? then 0 else 1
  }

  lemma {:induction false} HadBound(l: Loop, n: nat)
    requires 2 * n < |l.promises|
    ensures HadBelow(l, n) <= 3 * n
    ensures HadBelow(l, n) == 3 * n ==> forall k :: 0 <= k < n ==> IsSettled(l.promises[ResultOf(k)].state)
  {
    if n > 0 {
      HadBound(l, n - 1);
    }
  }

  /** The steps of two loops that differ, for one call, by one step. */
  lemma {:induction false} HadUpdate(l: Loop, l': Loop, n: nat, k: nat)
    requires |l'.promises| == |l.promises| && 2 * n < |l.promises| && LinkOf(k) < |l.promises|
    requires forall j :: 0 <= j < n && j != k ==> Had(l', j) == Had(l, j)
    ensures k < n ==> HadBelow(l', n) == HadBelow(l, n) - Had(l, k) + Had(l', k)
    ensures k >= n ==> HadBelow(l', n) == HadBelow(l, n)
  {
    if n > 0 {
      HadUpdate(l, l', n - 1, k);
    }
  }

  lemma {:induction false} HadSame(l: Loop, l': Loop, n: nat)
    requires 2 * n < |l.promises| <= |l'.promises|
    requires forall p :: 0 <= p < |l.promises| ==> l'.promises[p] == l.promises[p]
    ensures HadBelow(l', n) == HadBelow(l, n)
  {
    if n > 0 {
      HadSame(l, l', n - 1);
    }
  }

  /** Steps of the runtime move one promise of one call on. */
  lemma TurnMoves(l: Loop, step: Step)
    requires Chained(l) && Enabled(l, step) && !step.Call?
    ensures LinkOf(step.k) < |l.promises| && |Apply(l, step).promises| == |l.promises|
    ensures Had(Apply(l, step), step.k) == Had(l, step.k) + 1
    ensures forall j: nat :: LinkOf(j) < |l.promises| && j != step.k ==> Had(Apply(l, step), j) == Had(l, j)
  {
  }

  lemma CallBringsNone(l: Loop, work: Work)
    requires Chained(l)
    ensures Chained(ApplyCall(l, work)) && HadBelow(ApplyCall(l, work), |l.units| + 1) == HadBelow(l, |l.units|)
  {
    ChainedStep(l, Call(work));
    HadSame(l, ApplyCall(l, work), |l.units|);
    assert Had(ApplyCall(l, work), |l.units|) == 0;
  }

  lemma TurnBringsOne(l: Loop, step: Step)
    requires Chained(l) && Enabled(l, step) && !step.Call?
    ensures var l' := Apply(l, step);
            |l'.units| == |l.units| && |l'.promises| == |l.promises| && HadBelow(l', |l.units|) == HadBelow(l, |l.units|) + 1
  {
    TurnMoves(l, step);
    HadUpdate(l, Apply(l, step), |l.units|, step.k);
  }

  lemma {:induction false} TurnsAreHad(db: Db, steps: seq<Step>)
    requires Run(db, steps).Some?
    ensures var l := Run(db, steps).value;
            Chained(l) && HadBelow(l, |l.units|) == Turns(steps)
  {
    if steps != [] {
      var front, step := steps[..|steps| - 1], steps[|steps| - 1];
      var before := Run(db, front).value;
      TurnsAreHad(db, front);
      if step.Call? {
        CallBringsNone(before, step.work);
      } else {
        ChainedStep(before, step);
        TurnBringsOne(before, step);
      }
    }
  }

  /**
   * n calls are over after 3n steps of the runtime: no run takes more, one that has taken as many has
   * settled every call, and until then there is a step to take.
   */
  lemma QueueSettles(db: Db, steps: seq<Step>, l: Loop)
    requires Run(db, steps) == Some(l)
    ensures |l.promises| == 2 * |l.units| + 1 && Turns(steps) <= 3 * |l.units|
    ensures Turns(steps) == 3 * |l.units| ==>
              forall k :: 0 <= k < |l.units| ==> l.promises[ResultOf(k)].state == Answer(db, l.units, k)
    ensures (exists k :: 0 <= k < |l.units| && !IsSettled(l.promises[ResultOf(k)].state)) ==>
              exists step: Step :: !step.Call? && Enabled(l, step)
  {
    TurnsAreHad(db, steps);
    HadBound(l, |l.units|);
    QueueIsSerial(db, steps, l);
    if k :| 0 <= k < |l.units| && !IsSettled(l.promises[ResultOf(k)].state) {
      QueueNeverStalls(db, steps, l, k);
    }
  }

  // ---- the runner ------------------------------------------------------------------------

  /** The part of the runtime that the runner hands promises to. */
  class EventLoop {
    var promises: seq<Promise>
    var units: seq<Work>

    constructor ()
      ensures promises == [Promise(0, Fulfilled(""))] && units == []
    {
      promises := [Promise(0, Fulfilled(""))];
      units := [];
    }

    /** p.then(() => transaction(work)) */
    method ThenRun(p: nat, work: Work) returns (result: nat)
      modifies this
      ensures result == old(|promises|)
      ensures promises == old(promises) + [Promise(p, Waiting)] && units == old(units) + [work]
    {
      result := |promises|;
      promises := promises + [Promise(p, Waiting)];
      units := units + [work];
    }

    /** p.then(() => undefined, () => undefined) */
    method ThenIgnore(p: nat) returns (link: nat)
      modifies this
      ensures link == old(|promises|)
      ensures promises == old(promises) + [Promise(p, Waiting)] && units == old(units)
    {
      link := |promises|;
      promises := promises + [Promise(p, Waiting)];
    }
  }

  class TransactionRunner {
    const loop: EventLoop
    var queue: nat

    constructor (loop: EventLoop)
      ensures this.loop == loop && queue == 0
    {
      this.loop := loop;
      queue := 0;
    }

    /** The runner's promises and queue, with the database and order of starts of the moment. */
    function View(db: Db, order: seq<nat>): Loop
      reads this, loop
    {
      Loop(loop.promises, queue, loop.units, db, order)
    }

    /** run(work), on SQLite: one step of the machine above. */
    method Run(work: Work) returns (result: nat)
      modifies this, loop
      ensures forall db, order :: View(db, order) == ApplyCall(old(View(db, order)), work)
      ensures result == old(|loop.promises|)
    {
      result := loop.ThenRun(queue, work);
      queue := loop.ThenIgnore(result);
    }
  }
}
