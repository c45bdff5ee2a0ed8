/** Which of its counters a worker raises when a job leaves its hands (fleet/worker.py), told from the store: what an
    answer says of the tables its call leaves behind, and the released counter against the log of attempts. */
module FleetCounters {
  import opened Wrappers
  import opened FleetRows
  import opened FleetTransactions
  import opened FleetProtocol
  import opened FleetSafety
  import opened FleetEffects
  import opened FleetPool

  // ---- what an answer says ----

  /** What the answer heard in each phase says of the tables as they are then. */
  predicate Tells(db: DB, phase: Phase, at: Time, a: Answer) {
    match phase
    case Idle => a.Held? && (a.hold.Some? ==> a.hold.value.key in db.attempts && db.attempts[a.hold.value.key].endedBy.None?)
    case Starting(hold) => a.Yes? && (a.ok <==> IsRunning(db, hold.key, at))
    case Working(hold) =>
      && a.Beaten? && (a.beat.None? ==> !Live(db, hold.key, at))
      && (a.beat.Some? ==> hold.key.job in db.jobs && (a.beat.value.cancelRequested <==> db.jobs[hold.key.job].cancelAt.Some?))
    case Cancelling(hold) => a.Yes? && (a.ok <==> EndedBy(db, hold.key, ByCancel))
    case Publishing(hold, outcome, body) => a.Yes? && (a.ok <==> Stored(db, hold.key, hold.worker, outcome, body))
    case Asking(hold) => a == State(if hold.key.job in db.jobs then Some(db.jobs[hold.key.job].state) else None)
    case Releasing(hold, _) => a.State? && (a.state.Some? <==> EndedBy(db, hold.key, ByRelease))
  }

  lemma ClaimTells(s: System, c: Config, r: Reading)
    requires Inv(s) && Enabled(s, CallOf(c, Idle, r))
    ensures Tells(Apply(s, CallOf(c, Idle, r)).db, Idle, r.at, AnswerTo(s.db, CallOf(c, Idle, r)))
  {
    hide Inv;
    ClaimEffect(s, c.id, c.lease, r.locked, r.at);
  }

  lemma AnswerTells(s: System, c: Config, phase: Phase, r: Reading)
    requires Inv(s) && Enabled(s, CallOf(c, phase, r))
    ensures Tells(Apply(s, CallOf(c, phase, r)).db, phase, r.at, AnswerTo(s.db, CallOf(c, phase, r)))
  {
    hide Inv, PublishedAt, CancelledAt, RowEnded, LogEnded, OnlyTouches, Stored;
    match phase
    case Idle => ClaimTells(s, c, r);
    case Starting(hold) => StartEffect(s, hold.key, r.at, r.at);
    case Working(hold) => HeartbeatEffect(s, hold.key, c.lease, r.at);
    case Cancelling(hold) =>
      HeldIsLogged(s, hold);
      FinishCancelledEffect(s, hold.key, r.at);
    case Publishing(hold, outcome, body) => PublishEffect(s, hold, outcome, body, r.at);
    case Asking(_) =>
    case Releasing(hold, error) => ReleaseEffect(s, hold.key, error, c.retry, r.at);
  }

  /** What a call leaves in the tables, under the worker's own settings. */
  ghost predicate Leaves(db: DB, db': DB, c: Config, phase: Phase, at: Time, a: Answer) {
    match phase
    case Idle =>
      a.Held? && a.hold.Some? ==>
        && a.hold.value.worker == c.id && a.hold.value.since == at && a.hold.value.key in db'.attempts
        && db'.attempts[a.hold.value.key] == AttemptRow(c.id, at, at + c.lease, None, None, None)
    case Working(hold) =>
      Live(db, hold.key, at) ==> hold.key in db'.attempts && db'.attempts[hold.key].lease == at + c.lease && Live(db', hold.key, at) == (c.lease > 0)
    case Publishing(hold, outcome, body) =>
      Live(db, hold.key, at) ==>
        if db.jobs[hold.key.job].cancelAt.Some? then CancelledAt(db, db', hold.key, at)
        else PublishedAt(db, db', hold.key, hold.worker, outcome, body, at)
    case Cancelling(hold) => Live(db, hold.key, at) && db.jobs[hold.key.job].cancelAt.Some? ==> CancelledAt(db, db', hold.key, at)
    case Releasing(hold, error) =>
      Live(db, hold.key, at) ==>
        && hold.key.job in db'.jobs && RowEnded(db.jobs[hold.key.job], db'.jobs[hold.key.job], error, c.retry, at)
        && hold.key in db.attempts && hold.key in db'.attempts
        && LogEnded(db.attempts[hold.key], db'.attempts[hold.key], ByRelease, error, at)
    case Starting(hold) =>
      Live(db, hold.key, at) && db.jobs[hold.key.job].cancelAt.None? ==> IsRunning(db', hold.key, at)
    case Asking(_) => db' == db
  }

  lemma CallLeaves(s: System, c: Config, phase: Phase, r: Reading)
    requires Inv(s) && Enabled(s, CallOf(c, phase, r))
    ensures Leaves(s.db, Apply(s, CallOf(c, phase, r)).db, c, phase, r.at, AnswerTo(s.db, CallOf(c, phase, r)))
  {
    hide Inv, PublishedAt, CancelledAt, RowEnded, LogEnded;
    match phase
    case Idle => ClaimEffect(s, c.id, c.lease, r.locked, r.at);
    case Starting(hold) => StartEffect(s, hold.key, r.at, r.at);
    case Working(hold) => HeartbeatEffect(s, hold.key, c.lease, r.at);
    case Cancelling(hold) =>
      HeldIsLogged(s, hold);
      FinishCancelledEffect(s, hold.key, r.at);
    case Publishing(hold, outcome, body) => PublishEffect(s, hold, outcome, body, r.at);
    case Asking(_) =>
    case Releasing(hold, error) => ReleaseEffect(s, hold.key, error, c.retry, r.at);
  }

  lemma HeldIsLogged(s: System, hold: Hold)
    requires Inv(s) && hold in s.granted
    ensures hold.key in s.db.attempts && s.db.attempts[hold.key].worker == hold.worker
  {}

  // ---- which counter goes up ----

  /** The counter raised by a job that leaves a worker's hands in this phase, the tables as the call left them. */
  predicate Counted(db: DB, phase: Phase, n: Counts, n': Counts) {
    match phase
    case Idle => false
    case Starting(_) => false
    case Working(_) => n' == n.(lost := n.lost + 1)
    case Cancelling(hold) =>
      n' == if EndedBy(db, hold.key, ByCancel) then n.(cancelled := n.cancelled + 1) else n.(lost := n.lost + 1)
    case Publishing(hold, outcome, body) =>
      Stored(db, hold.key, hold.worker, outcome, body) && n' == n.(published := n.published + 1)
    case Asking(hold) =>
      n' == if hold.key.job in db.jobs && db.jobs[hold.key.job].state.Cancelled?
            then n.(cancelled := n.cancelled + 1) else n.(rejected := n.rejected + 1)
    case Releasing(hold, _) =>
      n' == if EndedBy(db, hold.key, ByRelease) then n.(released := n.released + 1) else n.(lost := n.lost + 1)
  }

  /** A worker that hears that its job left its hands counts what became of it. */
  lemma EndingCounts(p: Pool, c: Config, r: Reading)
    requires PoolOk(p) && c.id in p.workers && !p.workers[c.id].phase.Idle?
    requires Enabled(p.sys, CallOf(c, p.workers[c.id].phase, r))
    ensures var w, p' := p.workers[c.id], Happens(p, Make(c, r, true));
            p'.workers[c.id].phase.Idle? ==>
              && Counted(p'.sys.db, w.phase, w.counts, p'.workers[c.id].counts)
              && (w.phase.Asking? ==> !Landed(p'.sys.db, w.phase.hold.key))
  {
    hide Apply, AnswerTo, Enabled, Inv, Own;
    var w := p.workers[c.id];
    AnswerTells(p.sys, c, w.phase, r);
    EventKeeps(p, Make(c, r, false));
    assert WorkerOk(Apply(p.sys, CallOf(c, w.phase, r)), c.id, w);
  }

  /** Where a worker goes on from a phase, told from the tables before and after its call. */
  predicate GoesTo(db: DB, db': DB, phase: Phase, at: Time, next: Phase) {
    match phase
    case Idle => next.Idle? || next.Starting?
    case Starting(hold) => next == if IsRunning(db', hold.key, at) then Working(hold) else Cancelling(hold)
    case Working(hold) =>
      next == if !Live(db, hold.key, at) then Idle else if db.jobs[hold.key.job].cancelAt.Some? then Cancelling(hold) else Working(hold)
    case Publishing(hold, outcome, body) => next == if Stored(db', hold.key, hold.worker, outcome, body) then Idle else Asking(hold)
    case Cancelling(_) => next == Idle
    case Asking(_) => next == Idle
    case Releasing(_, _) => next == Idle
  }

  /** A worker that hears an answer goes on as the tables call for: it runs a job that started, stops one whose lease it
      lost or that was asked to stop, and asks after a result that was refused. */
  lemma AnswerMoves(p: Pool, c: Config, r: Reading)
    requires PoolOk(p) && c.id in p.workers && Enabled(p.sys, CallOf(c, p.workers[c.id].phase, r))
    ensures var p' := Happens(p, Make(c, r, true));
            GoesTo(p.sys.db, p'.sys.db, p.workers[c.id].phase, r.at, p'.workers[c.id].phase)
  {
    hide Inv, Own, WorkerOk, Enabled;
    var w := p.workers[c.id];
    AnswerTells(p.sys, c, w.phase, r);
    if w.phase.Working? { HeartbeatEffect(p.sys, w.phase.hold.key, c.lease, r.at); }
  }

  // ---- the released counter is the log's ----

  /** The attempts of a worker that were given back. */
  function GivenBack(db: DB, worker: string): set<Key> {
    set k | k in db.attempts && db.attempts[k].worker == worker && EndedBy(db, k, ByRelease)
  }

  /** An attempt that was given back although its worker has not heard so yet. */
  function Untold(db: DB, w: WorkerState): int {
    if w.phase.Releasing? && EndedBy(db, w.phase.hold.key, ByRelease) then 1 else 0
  }

  predicate ReleasesOk(db: DB, id: string, w: WorkerState) {
    && w.counts.released + Untold(db, w) == |GivenBack(db, id)|
    && (!w.phase.Idle? && !w.phase.Releasing? ==> !EndedBy(db, w.phase.hold.key, ByRelease))
  }

  /** The call that gives this attempt back. */
  predicate Returns(s: System, step: Step, k: Key) {
    step.Release? && Enabled(s, step) && step.hold.key == k && Live(s.db, k, step.at)
  }

  lemma EndingNames(db: DB, chosen: set<int>, how: Ending, error: string, retry: RetryPolicy, at: Time, k: Key)
    requires chosen <= db.jobs.Keys && k in db.attempts
    ensures var db' := EndAttempts(db, chosen, how, error, retry, at);
            && k in db'.attempts && db'.attempts[k].worker == db.attempts[k].worker
            && db'.attempts[k].endedBy == if k.job in chosen && db.jobs[k.job].attempt == k.attempt then Some(how) else db.attempts[k].endedBy
  {}

  lemma LeasedIsOpen(s: System, k: Key)
    requires Inv(s) && k.job in s.db.jobs && Leased(s.db.jobs[k.job].state) && s.db.jobs[k.job].attempt == k.attempt
    ensures k in s.db.attempts && s.db.attempts[k].endedBy.None?
  {
    hide ResultOk, IdsOk, GrantsOk;
    assert JobOk(s.db, s.clock, k.job) && Key(k.job, k.attempt) in s.db.attempts;
  }

  lemma ReleaseReturns(s: System, step: Step, k: Key)
    requires Inv(s) && step.Release? && Enabled(s, step)
    ensures var db' := DbAfter(s.db, step);
            EndedBy(db', k, ByRelease) <==> EndedBy(s.db, k, ByRelease) || Returns(s, step, k)
  {
    hide Inv;
    if Live(s.db, step.hold.key, step.at) { LeasedIsOpen(s, step.hold.key); }
    if k in s.db.attempts {
      EndingNames(s.db, if Live(s.db, step.hold.key, step.at) then {step.hold.key.job} else {}, ByRelease, step.error, step.retry, step.at, k);
    }
  }

  lemma ReapReturns(s: System, step: Step, k: Key)
    requires Inv(s) && step.Reap? && Enabled(s, step)
    ensures EndedBy(DbAfter(s.db, step), k, ByRelease) <==> EndedBy(s.db, k, ByRelease)
  {
    hide Inv;
    if k in s.db.attempts {
      EndingNames(s.db, Lapsed(s.db, step.locked, step.at), ByLeaseExpiry, LEASE_EXPIRED, step.retry, step.at, k);
      if k.job in Lapsed(s.db, step.locked, step.at) && s.db.jobs[k.job].attempt == k.attempt { LeasedIsOpen(s, k); }
    }
  }

  lemma ClaimReturns(s: System, step: Step, k: Key)
    requires Inv(s) && step.Claim? && Enabled(s, step)
    ensures EndedBy(DbAfter(s.db, step), k, ByRelease) <==> EndedBy(s.db, k, ByRelease)
  {
    hide Inv, ClaimTx;
    ClaimEffect(s, step.worker, step.lease, step.locked, step.at);
  }

  lemma OthersReturn(s: System, step: Step, k: Key)
    requires Inv(s) && Enabled(s, step) && !step.Release? && !step.Reap? && !step.Claim?
    ensures EndedBy(DbAfter(s.db, step), k, ByRelease) <==> EndedBy(s.db, k, ByRelease)
  {
    hide Inv;
    if (step.Publish? || step.FinishCancel?) && Live(s.db, step.hold.key, step.at) { LeasedIsOpen(s, step.hold.key); }
  }

  /** Only a release by the holder of the live lease gives an attempt back. */
  lemma OnlyReleaseReturns(s: System, step: Step, k: Key)
    requires Inv(s)
    ensures EndedBy(Apply(s, step).db, k, ByRelease) <==> EndedBy(s.db, k, ByRelease) || Returns(s, step, k)
  {
    hide Inv, DbAfter;
    if Enabled(s, step) {
      if step.Release? { ReleaseReturns(s, step, k); }
      else if step.Reap? { ReapReturns(s, step, k); }
      else if step.Claim? { ClaimReturns(s, step, k); }
      else { OthersReturn(s, step, k); }
    }
  }

  lemma WorkersStay(s: System, step: Step, k: Key)
    requires Inv(s) && EndedBy(Apply(s, step).db, k, ByRelease)
    ensures k in s.db.attempts && Apply(s, step).db.attempts[k].worker == s.db.attempts[k].worker
  {
    hide Inv, Apply, Enabled;
    OnlyReleaseReturns(s, step, k);
    StepKeeps(s, step);
    if Returns(s, step, k) { LeasedIsOpen(s, k); }
    assert AttemptEvolves(s.db.attempts[k], Apply(s, step).db.attempts[k]);
  }

  lemma GivenBackAfter(s: System, step: Step, id: string)
    requires Inv(s)
    ensures var own := GivenBack(s.db, id);
            GivenBack(Apply(s, step).db, id) ==
            if step.Release? && Returns(s, step, step.hold.key) && step.hold.key in s.db.attempts && s.db.attempts[step.hold.key].worker == id
            then own + {step.hold.key} else own
  {
    hide Inv, Apply, Enabled, Live;
    StepKeeps(s, step);
    forall k
      ensures k in GivenBack(Apply(s, step).db, id) <==>
              k in s.db.attempts && s.db.attempts[k].worker == id && (EndedBy(s.db, k, ByRelease) || Returns(s, step, k))
    {
      OnlyReleaseReturns(s, step, k);
      if EndedBy(Apply(s, step).db, k, ByRelease) { WorkersStay(s, step, k); }
    }
  }

  /** A step that gives back no attempt of this worker. */
  lemma QuietForReleases(s: System, step: Step, id: string, w: WorkerState)
    requires Inv(s) && WorkerOk(s, id, w) && ReleasesOk(s.db, id, w)
    requires step.Release? && Enabled(s, step) ==> step.hold.worker != id
    ensures ReleasesOk(Apply(s, step).db, id, w)
  {
    hide Apply, Live, Own, Unheard, Accounted;
    GivenBackAfter(s, step, id);
    if step.Release? && Enabled(s, step) { HeldIsLogged(s, step.hold); }
    if !w.phase.Idle? {
      HeldIsLogged(s, w.phase.hold);
      OnlyReleaseReturns(s, step, w.phase.hold.key);
    }
  }

  /** The worker's own call, before it hears the answer. */
  lemma OwnCallReleases(s: System, c: Config, w: WorkerState, r: Reading)
    requires Inv(s) && WorkerOk(s, c.id, w) && ReleasesOk(s.db, c.id, w) && Enabled(s, CallOf(c, w.phase, r))
    ensures ReleasesOk(Apply(s, CallOf(c, w.phase, r)).db, c.id, w)
  {
    hide Apply, Live, Own, Unheard, Accounted;
    var step := CallOf(c, w.phase, r);
    GivenBackAfter(s, step, c.id);
    if !w.phase.Idle? {
      HeldIsLogged(s, w.phase.hold);
      OnlyReleaseReturns(s, step, w.phase.hold.key);
      if Returns(s, step, w.phase.hold.key) { NotYetGivenBack(s, w.phase.hold.key, step.at); }
    }
  }

  lemma NotYetGivenBack(s: System, k: Key, at: Time)
    requires Inv(s) && Live(s.db, k, at)
    ensures !EndedBy(s.db, k, ByRelease)
  {
    LeasedIsOpen(s, k);
  }

  lemma HeardReleases(db: DB, id: string, w: WorkerState, at: Time, a: Answer)
    requires ReleasesOk(db, id, w) && Tells(db, w.phase, at, a)
    ensures ReleasesOk(db, id, Advance(w, a))
  {
    hide IsRunning, Live, Stored;
  }

  ghost predicate AllReleasesOk(p: Pool) { forall id :: id in p.workers ==> ReleasesOk(p.sys.db, id, p.workers[id]) }

  lemma MakeReleases(p: Pool, c: Config, r: Reading, heard: bool)
    requires PoolOk(p) && AllReleasesOk(p) && c.id in p.workers && Enabled(p.sys, CallOf(c, p.workers[c.id].phase, r))
    ensures AllReleasesOk(Happens(p, Make(c, r, heard)))
  {
    hide Inv, Apply, AnswerTo, Enabled, WorkerOk, ReleasesOk, Tells;
    var w := p.workers[c.id];
    var call := CallOf(c, w.phase, r);
    CallersRelease(p, c, r);
    forall id | id in p.workers
      ensures ReleasesOk(Apply(p.sys, call).db, id, p.workers[id])
    {
      if id == c.id { OwnCallReleases(p.sys, c, w, r); } else { QuietForReleases(p.sys, call, id, p.workers[id]); }
    }
    if heard {
      AnswerTells(p.sys, c, w.phase, r);
      HeardReleases(Apply(p.sys, call).db, c.id, w, r.at, AnswerTo(p.sys.db, call));
    }
  }

  lemma CallersRelease(p: Pool, c: Config, r: Reading)
    requires PoolOk(p) && c.id in p.workers
    ensures var call := CallOf(c, p.workers[c.id].phase, r); call.Release? ==> call.hold.worker == c.id
  {
    hide Inv, Own, Unheard;
    assert WorkerOk(p.sys, c.id, p.workers[c.id]);
  }

  lemma EventReleases(p: Pool, e: Event)
    requires PoolOk(p) && AllReleasesOk(p)
    ensures AllReleasesOk(Happens(p, e))
  {
    hide Inv, Apply, AnswerTo, Enabled, WorkerOk;
    match e
    case Outside(step) =>
      if FromOutside(step) {
        forall id | id in p.workers
          ensures ReleasesOk(Apply(p.sys, step).db, id, p.workers[id])
        {
          QuietForReleases(p.sys, step, id, p.workers[id]);
        }
      }
    case Make(c, r, heard) =>
      if c.id in p.workers && Enabled(p.sys, CallOf(c, p.workers[c.id].phase, r)) { MakeReleases(p, c, r, heard); }
    case Finish(_, _) =>
  }

  lemma {:induction false} PoolReleases(p: Pool, events: seq<Event>)
    requires PoolOk(p) && AllReleasesOk(p)
    ensures AllReleasesOk(HappensAll(p, events))
    decreases |events|
  {
    hide Happens, AllReleasesOk;
    if events != [] {
      EventKeeps(p, events[0]);
      EventReleases(p, events[0]);
      PoolReleases(Happens(p, events[0]), events[1..]);
    }
  }

  /** In every pool that opens on an empty store, each worker's released counter is at all times the number of its own
      attempts the log has as released, but for one it has not heard of yet. */
  lemma CountsMatchReleases(start: Pool, events: seq<Event>, id: string)
    requires Opening(start) && id in start.workers
    ensures var p := HappensAll(start, events);
            && id in p.workers
            && p.workers[id].counts.released + Untold(p.sys.db, p.workers[id]) == |GivenBack(p.sys.db, id)|
  {
    OpeningOk(start);
    PoolKeeps(start, events);
    forall w | w in start.workers
      ensures ReleasesOk(start.sys.db, w, start.workers[w])
    {
      assert GivenBack(start.sys.db, w) == {};
    }
    PoolReleases(start, events);
    assert ReleasesOk(HappensAll(start, events).sys.db, id, HappensAll(start, events).workers[id]);
  }
}
