/**
 * The delivery protocol as a state machine.
 *
 * A Cell holds everything the database stores about one event, plus every worker execution and
 * every recovery pass that was ever started for it, each at its own program point. One step is
 * one SQL statement, one HTTP exchange or one crash; steps of all workers and recoverers
 * interleave freely. A System is the clock and one Cell for each accepted event.
 */
module Protocol {
  import opened DeliveryTypes
  import opened Rows

  // ---- state ------------------------------------------------------------------

  /** Where an execution of one claim stands. `job` is the row that claim read back. */
  datatype Phase =
    | Claimed                                   // UPDATE done, the SELECT that follows it is not
    | Loaded(job: Job)
    | Started(job: Job)                         // attempt row inserted
    | Sent(job: Job)                            // request on the wire
    | Answered(job: Job, result: WebhookResult)
    | Closed(job: Job, result: WebhookResult)   // attempt row completed
    | Written(status: DeliveryStatus)           // job row written, event row not yet
    | Settled
    | Crashed

  /** The claim at index i took attempt number i + 1; phases[i] is where its execution stands. */
  datatype ClaimRecord = ClaimRecord(worker: string, at: int)

  /** Where a recovery pass stands with this event's job. `seen` is the stale row it read. */
  datatype Sweep =
    | Seen(seen: Job)
    | Swept(seen: Job)                          // attempts closed, row not yet released
    | Released(number: nat, next: DeliveryStatus)  // row released, event row not yet written
    | Recovered(number: nat)
    | Lost                                      // the guarded UPDATE matched nothing
    | Abandoned                                 // the recovering process died before releasing anything
    | Torn(number: nat)                         // it died between the row and the event row

  /** `pass` is the call of recoverStaleJobs it belongs to, and `now` the clock that call read first. */
  datatype Recovery = Recovery(pass: nat, now: int, sweep: Sweep)

  datatype Cell = Cell(
    job: Job,
    event: Event,
    attempts: map<nat, Attempt>,
    claims: seq<ClaimRecord>,
    phases: seq<Phase>,
    recs: seq<Recovery>,
    // history variables, which no step reads:
    history: seq<DeliveryStatus>,     // every status the job row has held
    sent: multiset<nat>,              // X-Webhook-Attempt of every request
    answers: set<WebhookResult>,      // everything the receiver has answered
    closings: multiset<nat>,          // the attempt row of every UPDATE on delivery_attempts
    retriedBySettle: set<nat>,        // attempt numbers whose execution wrote Retrying
    retriedByRelease: set<nat>,       // attempt numbers whose recovery wrote Retrying
    progress: nat)                    // claims, settling writes and releases so far

  datatype System = System(now: int, accepted: seq<EventId>, cells: map<EventId, Cell>)

  /**
   * What is assumed of the environment.
   *  leased: an execution writes no later than its own claim time plus the lease, or never.
   *  solo:   a recovery pass reads a stale job only while no other pass is between reading and
   *          releasing that job.
   *  fused:  a job write and its event write are one statement.
   */
  datatype Regime = Regime(leased: bool, solo: bool, fused: bool)

  // ---- steps ------------------------------------------------------------------

  datatype CellStep =
    | Claim(worker: string)
    | Load(i: nat)
    | Start(i: nat)
    | Send(i: nat)
    | Answer(i: nat, result: WebhookResult)
    | Complete(i: nat)
    | WriteJob(i: nat)
    | WriteEvent(i: nat)
    | Crash(i: nat)
    | ReadStale(pass: nat, at: int)
    | CloseAbandoned(r: nat)
    | Release(r: nat)
    | WriteReleased(r: nat)
    | CrashRecovery(r: nat)

  datatype Step =
    | Ingest(id: EventId, eventType: string, occurredAt: int, payload: string)
    | On(id: EventId, step: CellStep)
    | Advance(to: int)

  predicate MidSweep(r: Recovery) {
    r.sweep.Seen? || r.sweep.Swept?
  }

  predicate Exists(s: Cell, i: nat) {
    i < |s.phases| && i < |s.claims|
  }

  predicate MayWrite(c: Config, g: Regime, now: int, s: Cell, i: nat)
    requires Exists(s, i)
  {
    g.leased ==> now <= s.claims[i].at + c.leaseMs
  }

  predicate CellEnabled(c: Config, g: Regime, now: int, s: Cell, step: CellStep) {
    match step
    case Claim(_) => CanClaim(s.job, now)
    case Load(i) => Exists(s, i) && s.phases[i].Claimed?
    case Start(i) => Exists(s, i) && s.phases[i].Loaded? && MayWrite(c, g, now, s, i)
    case Send(i) => Exists(s, i) && s.phases[i].Started?
    case Answer(i, _) => Exists(s, i) && s.phases[i].Sent?
    case Complete(i) => Exists(s, i) && s.phases[i].Answered? && MayWrite(c, g, now, s, i)
    case WriteJob(i) => Exists(s, i) && s.phases[i].Closed? && MayWrite(c, g, now, s, i)
    case WriteEvent(i) => Exists(s, i) && s.phases[i].Written? && MayWrite(c, g, now, s, i)
    case Crash(i) => Exists(s, i)
    case ReadStale(_, at) =>
      && at <= now && IsStale(s.job, at - c.leaseMs)
      && (g.solo ==> forall r <- s.recs :: !MidSweep(r))
    case CloseAbandoned(r) => r < |s.recs| && s.recs[r].sweep.Seen?
    case Release(r) => r < |s.recs| && s.recs[r].sweep.Swept?
    case WriteReleased(r) => r < |s.recs| && s.recs[r].sweep.Released?
    case CrashRecovery(r) => r < |s.recs| && (MidSweep(s.recs[r]) || s.recs[r].sweep.Released?)
  }

  function Move(s: Cell, i: nat, phase: Phase): Cell
    requires Exists(s, i)
  {
    s.(phases := s.phases[i := phase])
  }

  function MoveSweep(s: Cell, r: nat, sweep: Sweep): Cell
    requires r < |s.recs|
  {
    s.(recs := s.recs[r := s.recs[r].(sweep := sweep)])
  }

  function ApplyClaim(s: Cell, now: int, worker: string): Cell {
    s.(job := ClaimRow(s.job, worker, now),
       claims := s.claims + [ClaimRecord(worker, now)],
       phases := s.phases + [Claimed],
       history := s.history + [Delivering],
       progress := s.progress + 1)
  }

  /** The INSERT fails on a number already taken; the exception leaves the claim to lease recovery. */
  function ApplyStart(s: Cell, now: int, i: nat): Cell
    requires Exists(s, i) && s.phases[i].Loaded?
  {
    var job := s.phases[i].job;
    if job.attemptCount in s.attempts then Move(s, i, Crashed)
    else Move(s, i, Started(job)).(attempts := s.attempts[job.attemptCount := OpenAttempt(now)])
  }

  function ApplySend(s: Cell, i: nat): Cell
    requires Exists(s, i) && s.phases[i].Started?
  {
    var job := s.phases[i].job;
    Move(s, i, Sent(job)).(sent := s.sent + multiset{job.attemptCount})
  }

  function ApplyAnswer(s: Cell, i: nat, result: WebhookResult): Cell
    requires Exists(s, i) && s.phases[i].Sent?
  {
    Move(s, i, Answered(s.phases[i].job, result)).(answers := s.answers + {result})
  }

  /** attempts.complete updates by id and has no guard. */
  function ApplyComplete(s: Cell, now: int, i: nat): Cell
    requires Exists(s, i) && s.phases[i].Answered?
  {
    var Answered(job, result) := s.phases[i];
    var n := job.attemptCount;
    var moved := Move(s, i, Closed(job, result));
    if n in s.attempts then
      moved.(attempts := s.attempts[n := CompleteAttempt(s.attempts[n], result, now)],
             closings := s.closings + multiset{n})
    else moved
  }

  function ApplyWriteJob(c: Config, g: Regime, s: Cell, now: int, i: nat): Cell
    requires Exists(s, i) && s.phases[i].Closed?
  {
    var Closed(job, result) := s.phases[i];
    var n := job.attemptCount;
    var status := Verdict(c, n, result);
    var moved := Move(s, i, if g.fused then Settled else Written(status));
    moved.(job := TransitionRow(s.job, status, VerdictNext(c, n, result, now)),
           event := if g.fused then s.event.(status := status) else s.event,
           history := s.history + [status],
           retriedBySettle := s.retriedBySettle + (if status == Retrying then {n} else {}),
           progress := s.progress + 1)
  }

  function CloseAbandonedRows(attempts: map<nat, Attempt>, reason: string, now: int): map<nat, Attempt> {
    map n | n in attempts :: CloseAbandonedRow(attempts[n], reason, now)
  }

  function OpenRows(attempts: map<nat, Attempt>): set<nat> {
    set n | n in attempts && IsOpen(attempts[n])
  }

  function ApplyCloseAbandoned(s: Cell, now: int, r: nat): Cell
    requires r < |s.recs| && s.recs[r].sweep.Seen?
  {
    var seen := s.recs[r].sweep.seen;
    MoveSweep(s, r, Swept(seen)).(
      attempts := CloseAbandonedRows(s.attempts, AbandonReason(seen), now),
      closings := s.closings + multiset(OpenRows(s.attempts)))
  }

  function ApplyRelease(c: Config, g: Regime, s: Cell, r: nat): Cell
    requires r < |s.recs| && s.recs[r].sweep.Swept?
  {
    var seen := s.recs[r].sweep.seen;
    var n := seen.attemptCount;
    var next := ReleaseTarget(c, seen, s.recs[r].now);
    if !CanRelease(s.job, seen) then MoveSweep(s, r, Lost)
    else
      MoveSweep(s, r, if g.fused then Recovered(n) else Released(n, next.0)).(
        job := ReleaseRow(s.job, next),
        event := if g.fused then s.event.(status := next.0) else s.event,
        history := s.history + [next.0],
        retriedByRelease := s.retriedByRelease + (if next.0 == Retrying then {n} else {}),
        progress := s.progress + 1)
  }

  function AfterDeath(sweep: Sweep): Sweep {
    if sweep.Released? then Torn(sweep.number) else Abandoned
  }

  function CellApply(c: Config, g: Regime, now: int, s: Cell, step: CellStep): Cell
    requires CellEnabled(c, g, now, s, step)
  {
    match step
    case Claim(worker) => ApplyClaim(s, now, worker)
    case Load(i) => Move(s, i, Loaded(s.job))
    case Start(i) => ApplyStart(s, now, i)
    case Send(i) => ApplySend(s, i)
    case Answer(i, result) => ApplyAnswer(s, i, result)
    case Complete(i) => ApplyComplete(s, now, i)
    case WriteJob(i) => ApplyWriteJob(c, g, s, now, i)
    case WriteEvent(i) => Move(s, i, Settled).(event := s.event.(status := s.phases[i].status))
    case Crash(i) => Move(s, i, Crashed)
    case ReadStale(pass, at) => s.(recs := s.recs + [Recovery(pass, at, Seen(s.job))])
    case CloseAbandoned(r) => ApplyCloseAbandoned(s, now, r)
    case Release(r) => ApplyRelease(c, g, s, r)
    case WriteReleased(r) =>
      MoveSweep(s, r, Recovered(s.recs[r].sweep.number)).(event := s.event.(status := s.recs[r].sweep.next))
    case CrashRecovery(r) => MoveSweep(s, r, AfterDeath(s.recs[r].sweep))
  }

  /** What ingestion commits: the event and its job, in one transaction. */
  function NewCell(now: int, eventType: string, occurredAt: int, payload: string): Cell {
    Cell(NewJob(now), Event(eventType, occurredAt, payload, Pending), map[], [], [], [],
         [Pending], multiset{}, {}, multiset{}, {}, {}, 0)
  }

  predicate Enabled(c: Config, g: Regime, s: System, step: Step) {
    match step
    case Ingest(id, _, _, _) => id !in s.cells
    case On(id, cellStep) => id in s.cells && CellEnabled(c, g, s.now, s.cells[id], cellStep)
    case Advance(to) => s.now <= to
  }

  function Apply(c: Config, g: Regime, s: System, step: Step): System
    requires Enabled(c, g, s, step)
  {
    match step
    case Ingest(id, eventType, occurredAt, payload) =>
      s.(accepted := s.accepted + [id], cells := s.cells[id := NewCell(s.now, eventType, occurredAt, payload)])
    case On(id, cellStep) => s.(cells := s.cells[id := CellApply(c, g, s.now, s.cells[id], cellStep)])
    case Advance(to) => s.(now := to)
  }

  function Empty(now: int): System {
    System(now, [], map[])
  }

  /** The system after all the steps, or None when some step is not enabled where it stands. */
  function Run(c: Config, g: Regime, s: System, steps: seq<Step>): Option<System> {
    if steps == [] then Some(s)
    else
      match Run(c, g, s, steps[..|steps| - 1])
      case None => None
      case Some(before) =>
        var last := steps[|steps| - 1];
        if Enabled(c, g, before, last) then Some(Apply(c, g, before, last)) else None
  }

  /** `s` can arise from an empty database at time `t0`. */
  ghost predicate Reaches(c: Config, g: Regime, t0: int, steps: seq<Step>, s: System) {
    Run(c, g, Empty(t0), steps) == Some(s)
  }
}
