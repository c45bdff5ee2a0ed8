/** Any number of workers (fleet/worker.py) over one store: each is its phase and its five counters, and
    moves on the answers it hears. A call can commit and its answer be lost; the worker then makes the
    same call again (fleet/connections.py). */
module FleetPool {
  import opened Wrappers
  import opened FleetRows
  import opened FleetTransactions
  import opened FleetProtocol
  import opened FleetSafety
  import opened FleetEffects
  import FleetCheck
  import FleetDrained

  /** A worker's settings. */
  datatype Config = Config(id: string, lease: nat, retry: RetryPolicy)

  /** What a run produced: the task's outcome, or an infrastructure failure. */
  datatype RunResult = Done(outcome: Outcome, body: Body) | Failure(error: string)

  /** Where a worker is in its step. */
  datatype Phase =
    | Idle
    | Starting(hold: Hold)
    | Working(hold: Hold)
    | Cancelling(hold: Hold)
    | Publishing(hold: Hold, outcome: Outcome, body: Body)
    | Asking(hold: Hold)
    | Releasing(hold: Hold, error: string)

  datatype Counts = Counts(published: int, rejected: int, lost: int, released: int, cancelled: int, claims: int)

  datatype WorkerState = WorkerState(phase: Phase, counts: Counts)

  /** The clock readings a call will get, and the rows others hold locked. */
  datatype Reading = Reading(at: Time, commit: Time, locked: set<int>)

  /** The store call a worker makes in each phase. */
  function CallOf(c: Config, phase: Phase, r: Reading): Step {
    match phase
    case Idle => Claim(c.id, c.lease, r.locked, r.at, r.commit)
    case Starting(hold) => Start(hold, r.at, r.commit)
    case Working(hold) => Heartbeat(hold, c.lease, r.at, r.commit)
    case Cancelling(hold) => FinishCancel(hold, r.at, r.commit)
    case Publishing(hold, outcome, body) => Publish(hold, outcome, body, r.at, r.commit)
    case Asking(hold) => Look(hold.key.job, r.at)
    case Releasing(hold, error) => Release(hold, error, c.retry, r.at, r.commit)
  }

  /** What a worker does with an answer it hears. */
  function Advance(w: WorkerState, a: Answer): WorkerState {
    var n := w.counts;
    match w.phase
    case Idle => if a.Held? && a.hold.Some? then WorkerState(Starting(a.hold.value), n.(claims := n.claims + 1)) else w
    case Starting(hold) => if !a.Yes? then w else WorkerState(if a.ok then Working(hold) else Cancelling(hold), n)
    case Working(hold) =>
      if !a.Beaten? then w
      else if a.beat.None? then WorkerState(Idle, n.(lost := n.lost + 1))
      else if a.beat.value.cancelRequested then WorkerState(Cancelling(hold), n)
      else w
    case Cancelling(_) =>
      if !a.Yes? then w
      else WorkerState(Idle, if a.ok then n.(cancelled := n.cancelled + 1) else n.(lost := n.lost + 1))
    case Publishing(hold, _, _) =>
      if !a.Yes? then w
      else if a.ok then WorkerState(Idle, n.(published := n.published + 1)) else WorkerState(Asking(hold), n)
    case Asking(_) =>
      if !a.State? then w
      else WorkerState(Idle, if a.state == Some(Cancelled) then n.(cancelled := n.cancelled + 1) else n.(rejected := n.rejected + 1))
    case Releasing(_, _) =>
      if !a.State? then w
      else WorkerState(Idle, if a.state.Some? then n.(released := n.released + 1) else n.(lost := n.lost + 1))
  }

  /** What a worker does once its run ends by itself. */
  function Ran(w: WorkerState, result: RunResult): WorkerState {
    if !w.phase.Working? then w
    else
      w.(phase := match result
      case Done(outcome, body) => Publishing(w.phase.hold, outcome, body)
      case Failure(error) => Releasing(w.phase.hold, error))
  }

  datatype Pool = Pool(sys: System, workers: map<string, WorkerState>)

  /** One event: somebody outside the pool acts on the store, a worker makes its call and hears the answer
      or not, or a worker's run ends. */
  datatype Event =
    | Outside(step: Step)
    | Make(c: Config, r: Reading, heard: bool)
    | Finish(worker: string, result: RunResult)

  /** Outsiders submit, cancel and reap; only the pool's workers claim jobs and act on them. */
  predicate FromOutside(step: Step) { step.Tick? || step.Look? || step.ReadLive? || step.Submit? || step.Cancel? || step.Reap? }

  function Happens(p: Pool, e: Event): Pool {
    match e
    case Outside(step) => if FromOutside(step) then p.(sys := Apply(p.sys, step)) else p
    case Make(c, r, heard) =>
      if c.id !in p.workers then p
      else
        var w := p.workers[c.id];
        var call := CallOf(c, w.phase, r);
        if !Enabled(p.sys, call) then p
        else
          Pool(Apply(p.sys, call),
               if heard then p.workers[c.id := Advance(w, AnswerTo(p.sys.db, call))] else p.workers)
    case Finish(worker, result) =>
      if worker !in p.workers then p else p.(workers := p.workers[worker := Ran(p.workers[worker], result)])
  }

  function HappensAll(p: Pool, events: seq<Event>): Pool
    decreases |events|
  {
    if events == [] then p else HappensAll(Happens(p, events[0]), events[1..])
  }

  /** A worker as it is constructed. */
  predicate IsNew(w: WorkerState) { w.phase.Idle? && w.counts == Counts(0, 0, 0, 0, 0, 0) }

  /** New workers on an empty store. */
  predicate Opening(p: Pool) {
    p.sys == Initial(p.sys.clock) && forall w :: w in p.workers ==> IsNew(p.workers[w])
  }

  // ---- what the pool does to the store is a run ----

  lemma EventIsStep(p: Pool, e: Event) returns (steps: seq<Step>)
    ensures Happens(p, e).sys == Run(p.sys, steps)
  {
    match e
    case Outside(step) => steps := if FromOutside(step) then [step] else [];
    case Make(c, r, heard) => steps := if c.id in p.workers then [CallOf(c, p.workers[c.id].phase, r)] else [];
    case Finish(_, _) => steps := [];
  }

  // ---- every claim is accounted for ----

  function Tally(n: Counts): int { n.published + n.rejected + n.lost + n.released + n.cancelled }

  /** Each claim a worker got back has raised exactly one counter, or is the job it is still on. */
  predicate Accounted(w: WorkerState) {
    Tally(w.counts) + (if w.phase.Idle? then 0 else 1) == w.counts.claims
  }

  lemma AdvanceAccounts(w: WorkerState, a: Answer)
    requires Accounted(w)
    ensures Accounted(Advance(w, a))
    ensures Advance(w, a).phase.Idle? && !w.phase.Idle? ==> Tally(Advance(w, a).counts) == Tally(w.counts) + 1
    ensures !Advance(w, a).phase.Idle? || w.phase.Idle? ==> Tally(Advance(w, a).counts) == Tally(w.counts)
  {}

  // ---- every result is counted by exactly the worker that published it ----

  function KeyOfResult(e: ResultRow): Key { Key(e.job, e.attempt) }

  /** The results a worker published. */
  function Own(db: DB, worker: string): set<int> { set n | n in db.results && db.results[n].worker == worker }

  predicate Landed(db: DB, k: Key) { exists n :: n in db.results && KeyOfResult(db.results[n]) == k }

  /** A result that is stored although its worker has not heard so yet. */
  function Unheard(db: DB, w: WorkerState): int {
    if w.phase.Publishing? && Landed(db, w.phase.hold.key) then 1 else 0
  }

  /** A worker holds an attempt it claimed, and any result of it is the one the worker is publishing. */
  predicate HoldsItsOwn(s: System, id: string, w: WorkerState) {
    !w.phase.Idle? ==>
      && w.phase.hold in s.granted && w.phase.hold.worker == id
      && forall n :: n in s.db.results && KeyOfResult(s.db.results[n]) == w.phase.hold.key ==>
                       w.phase.Publishing? && SameResult(s.db.results[n], w.phase.hold.key, id, w.phase.outcome, w.phase.body)
  }

  predicate WorkerOk(s: System, id: string, w: WorkerState) {
    && Accounted(w) && HoldsItsOwn(s, id, w)
    && w.counts.published + Unheard(s.db, w) == |Own(s.db, id)|
  }

  ghost predicate PoolOk(p: Pool) {
    && Inv(p.sys)
    && (forall id :: id in p.workers ==> WorkerOk(p.sys, id, p.workers[id]))
    && (forall n :: n in p.sys.db.results ==> p.sys.db.results[n].worker in p.workers)
  }

  /** The publish that stores a new result. */
  predicate Stores(s: System, step: Step) {
    step.Publish? && Enabled(s, step) && Live(s.db, step.hold.key, step.at) && s.db.jobs[step.hold.key.job].cancelAt.None?
  }

  lemma OnlyPublishStores(s: System, step: Step)
    requires Inv(s)
    ensures !Stores(s, step) ==> Apply(s, step).db.results == s.db.results
    ensures Stores(s, step) ==> Apply(s, step).db.results ==
                                s.db.results[s.db.nextResult := ResultRow(step.hold.key.job, step.hold.key.attempt, step.hold.worker,
                                                                         step.at, step.outcome, step.body)]
    ensures s.db.nextResult !in s.db.results
  {
    hide JobOk, GrantsOk, PublishTx;
    if step.Publish? && Enabled(s, step) {
      PublishStores(s.db, step.hold.key, step.hold.worker, step.outcome, step.body, step.at);
    }
  }

  lemma PublishStores(db: DB, k: Key, worker: string, outcome: Outcome, body: Body, at: Time)
    ensures PublishTx(db, k, worker, outcome, body, at).0.results ==
            if Live(db, k, at) && db.jobs[k.job].cancelAt.None?
            then db.results[db.nextResult := ResultRow(k.job, k.attempt, worker, at, outcome, body)] else db.results
  {}

  /** No result of a job that is leased. */
  lemma LeasedHasNone(s: System, j: int, n: int)
    requires Inv(s) && j in s.db.jobs && Leased(s.db.jobs[j].state) && n in s.db.results
    ensures s.db.results[n].job != j
  {
    assert JobOk(s.db, s.clock, j);
  }

  /** A worker a step stored nothing for is as good as it was. */
  lemma QuietForWorker(s: System, s': System, id: string, w: WorkerState)
    requires WorkerOk(s, id, w) && s'.db.results == s.db.results && s.granted <= s'.granted
    ensures WorkerOk(s', id, w)
  {
    assert Own(s'.db, id) == Own(s.db, id);
  }

  /** Another worker's result is none of this worker's business. */
  lemma OthersResult(s: System, step: Step, id: string, w: WorkerState)
    requires Inv(s) && Stores(s, step) && WorkerOk(s, id, w) && id != step.hold.worker
    ensures WorkerOk(Apply(s, step), id, w)
  {
    hide JobOk, IdsOk;
    var s' := Apply(s, step);
    OnlyPublishStores(s, step);
    assert Own(s'.db, id) == Own(s.db, id);
    if !w.phase.Idle? {
      assert s.db.attempts[w.phase.hold.key].worker == id && s.db.attempts[step.hold.key].worker == step.hold.worker;
      forall n | n in s'.db.results && KeyOfResult(s'.db.results[n]) == w.phase.hold.key
        ensures n in s.db.results
      {}
      assert Landed(s'.db, w.phase.hold.key) ==> Landed(s.db, w.phase.hold.key) by {
        if Landed(s'.db, w.phase.hold.key) {
          var n :| n in s'.db.results && KeyOfResult(s'.db.results[n]) == w.phase.hold.key;
          assert n in s.db.results;
        }
      }
      assert Landed(s.db, w.phase.hold.key) ==> Landed(s'.db, w.phase.hold.key) by {
        if Landed(s.db, w.phase.hold.key) {
          var n :| n in s.db.results && KeyOfResult(s.db.results[n]) == w.phase.hold.key;
          assert n in s'.db.results;
        }
      }
    }
  }

  /** The worker's own result, stored and not heard of yet. */
  lemma OwnResultStored(s: System, s': System, e: ResultRow, id: string, w: WorkerState)
    requires s.db.nextResult !in s.db.results && s'.db.results == s.db.results[s.db.nextResult := e] && s.granted <= s'.granted
    requires WorkerOk(s, id, w) && w.phase.Publishing? && !Landed(s.db, w.phase.hold.key)
    requires SameResult(e, w.phase.hold.key, id, w.phase.outcome, w.phase.body)
    ensures WorkerOk(s', id, w)
  {
    var n := s.db.nextResult;
    assert Own(s'.db, id) == Own(s.db, id) + {n};
    assert KeyOfResult(s'.db.results[n]) == w.phase.hold.key;
  }

  lemma LeasedHasNotLanded(s: System, k: Key)
    requires Inv(s) && k.job in s.db.jobs && Leased(s.db.jobs[k.job].state)
    ensures !Landed(s.db, k)
  {
    if Landed(s.db, k) {
      var m :| m in s.db.results && KeyOfResult(s.db.results[m]) == k;
      LeasedHasNone(s, k.job, m);
      assert false;
    }
  }

  /** The worker that made the call, before it hears the answer. */
  lemma CallerUnheard(s: System, c: Config, w: WorkerState, r: Reading)
    requires Inv(s) && Enabled(s, CallOf(c, w.phase, r)) && WorkerOk(s, c.id, w)
    ensures WorkerOk(Apply(s, CallOf(c, w.phase, r)), c.id, w)
  {
    var call := CallOf(c, w.phase, r);
    var s' := Apply(s, call);
    OnlyPublishStores(s, call);
    if Stores(s, call) {
      LeasedHasNotLanded(s, call.hold.key);
      OwnResultStored(s, s', s'.db.results[s.db.nextResult], c.id, w);
    } else {
      QuietForWorker(s, s', c.id, w);
    }
  }

  lemma WorkerThrough(p: Pool, c: Config, r: Reading, id: string)
    requires PoolOk(p) && c.id in p.workers && id in p.workers && Enabled(p.sys, CallOf(c, p.workers[c.id].phase, r))
    ensures WorkerOk(Apply(p.sys, CallOf(c, p.workers[c.id].phase, r)), id, p.workers[id])
  {
    var call := CallOf(c, p.workers[c.id].phase, r);
    assert WorkerOk(p.sys, id, p.workers[id]) && WorkerOk(p.sys, c.id, p.workers[c.id]);
    if id == c.id {
      CallerUnheard(p.sys, c, p.workers[id], r);
    } else if Stores(p.sys, call) {
      StoresForCaller(p.sys, c, p.workers[c.id], r);
      OthersResult(p.sys, call, id, p.workers[id]);
    } else {
      OnlyPublishStores(p.sys, call);
      QuietForWorker(p.sys, Apply(p.sys, call), id, p.workers[id]);
    }
  }

  lemma ResultsFromPool(s: System, step: Step, workers: set<string>)
    requires Inv(s) && (step.Publish? ==> step.hold.worker in workers)
    requires forall n :: n in s.db.results ==> s.db.results[n].worker in workers
    ensures forall n :: n in Apply(s, step).db.results ==> Apply(s, step).db.results[n].worker in workers
  {
    OnlyPublishStores(s, step);
  }

  /** Before it hears anything: the call committed, and every worker is where it was. */
  lemma CallUnheard(p: Pool, c: Config, r: Reading, call: Step, s': System)
    requires PoolOk(p) && c.id in p.workers && call == CallOf(c, p.workers[c.id].phase, r) && Enabled(p.sys, call)
    requires s' == Apply(p.sys, call)
    ensures PoolOk(p.(sys := s'))
  {
    StepKeeps(p.sys, call);
    forall id | id in p.workers
      ensures WorkerOk(s', id, p.workers[id])
    {
      WorkerThrough(p, c, r, id);
    }
    CallersPublish(p, c, r);
    ResultsFromPool(p.sys, call, p.workers.Keys);
  }

  lemma CallersPublish(p: Pool, c: Config, r: Reading)
    requires PoolOk(p) && c.id in p.workers
    ensures var call := CallOf(c, p.workers[c.id].phase, r); call.Publish? ==> call.hold.worker in p.workers
  {
    hide Inv, Own, Landed, Unheard;
    assert WorkerOk(p.sys, c.id, p.workers[c.id]);
  }

  lemma StoresForCaller(s: System, c: Config, w: WorkerState, r: Reading)
    requires HoldsItsOwn(s, c.id, w)
    ensures Stores(s, CallOf(c, w.phase, r)) ==> CallOf(c, w.phase, r).hold.worker == c.id
  {}

  /** What a worker may rely on when it hears an answer: a claim granted it an attempt nothing was published
      for, and a publish was accepted exactly when its result is stored. */
  predicate Truthful(s: System, id: string, w: WorkerState, a: Answer) {
    && (w.phase.Idle? && a.Held? && a.hold.Some? ==>
          a.hold.value in s.granted && a.hold.value.worker == id && !Landed(s.db, a.hold.value.key))
    && (w.phase.Publishing? && a.Yes? ==> (a.ok <==> Landed(s.db, w.phase.hold.key)))
  }

  lemma AnswerHeard(s: System, id: string, w: WorkerState, a: Answer)
    requires WorkerOk(s, id, w) && Truthful(s, id, w, a)
    ensures WorkerOk(s, id, Advance(w, a))
  {
    AdvanceAccounts(w, a);
    var w' := Advance(w, a);
    if !w'.phase.Idle? && !w'.phase.Publishing? {
      forall n | n in s.db.results
        ensures KeyOfResult(s.db.results[n]) != w'.phase.hold.key
      {}
    }
  }

  lemma ClaimIsTruthful(s: System, s': System, c: Config, w: WorkerState, call: Step)
    requires Inv(s) && Inv(s') && w.phase.Idle? && call.Claim? && call.worker == c.id && Enabled(s, call) && s' == Apply(s, call)
    ensures Truthful(s', c.id, w, AnswerTo(s.db, call))
  {
    if AnswerTo(s.db, call).hold.Some? {
      ClaimedIsLeased(s, call);
      LeasedHasNotLanded(s', AnswerTo(s.db, call).hold.value.key);
    }
  }

  lemma PublishIsTruthful(s: System, s': System, c: Config, w: WorkerState, call: Step)
    requires Inv(s) && WorkerOk(s, c.id, w) && WorkerOk(s', c.id, w) && w.phase.Publishing?
    requires call.Publish? && call == Publish(w.phase.hold, w.phase.outcome, w.phase.body, call.at, call.commit)
    requires Enabled(s, call) && s' == Apply(s, call)
    ensures Truthful(s', c.id, w, AnswerTo(s.db, call))
  {
    hide Inv, PublishTx, Own, Landed, Stored;
    PublishEffect(s, w.phase.hold, w.phase.outcome, w.phase.body, call.at);
    LandedIsStored(s', c.id, w);
  }

  lemma AnswersAreTruthful(s: System, s': System, c: Config, w: WorkerState, call: Step, r: Reading)
    requires Inv(s) && call == CallOf(c, w.phase, r) && Enabled(s, call) && s' == Apply(s, call)
    requires Inv(s') && WorkerOk(s, c.id, w) && WorkerOk(s', c.id, w)
    ensures Truthful(s', c.id, w, AnswerTo(s.db, call))
  {
    hide Inv, WorkerOk, Enabled, Apply, AnswerTo;
    if w.phase.Idle? {
      ClaimIsTruthful(s, s', c, w, call);
    } else if w.phase.Publishing? {
      PublishIsTruthful(s, s', c, w, call);
    }
  }

  lemma ClaimedIsLeased(s: System, step: Step)
    requires step.Claim? && Enabled(s, step) && AnswerTo(s.db, step).hold.Some?
    ensures var s', hold := Apply(s, step), AnswerTo(s.db, step).hold.value;
            hold in s'.granted && hold.worker == step.worker && hold.key.job in s'.db.jobs && Leased(s'.db.jobs[hold.key.job].state)
  {}

  lemma LandedIsStored(s: System, id: string, w: WorkerState)
    requires HoldsItsOwn(s, id, w) && w.phase.Publishing?
    ensures Landed(s.db, w.phase.hold.key) <==> Stored(s.db, w.phase.hold.key, id, w.phase.outcome, w.phase.body)
  {
    if Stored(s.db, w.phase.hold.key, id, w.phase.outcome, w.phase.body) {
      var n :| n in s.db.results && SameResult(s.db.results[n], w.phase.hold.key, id, w.phase.outcome, w.phase.body);
      assert KeyOfResult(s.db.results[n]) == w.phase.hold.key;
    }
  }

  lemma EventKeeps(p: Pool, e: Event)
    requires PoolOk(p)
    ensures PoolOk(Happens(p, e)) && Happens(p, e).workers.Keys == p.workers.Keys
  {
    hide Inv, WorkerOk, Apply, Truthful;
    match e
    case Outside(step) =>
      if FromOutside(step) {
        StepKeeps(p.sys, step);
        OnlyPublishStores(p.sys, step);
        forall id | id in p.workers
          ensures WorkerOk(Apply(p.sys, step), id, p.workers[id])
        {
          QuietForWorker(p.sys, Apply(p.sys, step), id, p.workers[id]);
        }
      }
    case Make(c, r, heard) =>
      if c.id in p.workers && Enabled(p.sys, CallOf(c, p.workers[c.id].phase, r)) {
        var call := CallOf(c, p.workers[c.id].phase, r);
        var s' := Apply(p.sys, call);
        CallUnheard(p, c, r, call, s');
        if heard {
          assert WorkerOk(s', c.id, p.workers[c.id]);
          AnswersAreTruthful(p.sys, s', c, p.workers[c.id], call, r);
          AnswerHeard(s', c.id, p.workers[c.id], AnswerTo(p.sys.db, call));
        }
      }
    case Finish(worker, result) =>
      if worker in p.workers { RanKeeps(p.sys, worker, p.workers[worker], result); }
  }

  lemma RanKeeps(s: System, id: string, w: WorkerState, result: RunResult)
    requires WorkerOk(s, id, w)
    ensures WorkerOk(s, id, Ran(w, result))
  {
    if w.phase.Working? {
      assert forall n :: n in s.db.results ==> KeyOfResult(s.db.results[n]) != w.phase.hold.key;
    }
  }

  lemma {:induction false} PoolKeeps(p: Pool, events: seq<Event>)
    requires PoolOk(p)
    ensures PoolOk(HappensAll(p, events)) && HappensAll(p, events).workers.Keys == p.workers.Keys
    decreases |events|
  {
    hide Happens;
    if events != [] {
      EventKeeps(p, events[0]);
      PoolKeeps(Happens(p, events[0]), events[1..]);
    }
  }

  /** The published counters of the named workers. */
  function Published(workers: map<string, WorkerState>, names: seq<string>): int
    requires forall i :: 0 <= i < |names| ==> names[i] in workers
  {
    if names == [] then 0 else workers[names[0]].counts.published + Published(workers, names[1..])
  }

  /** The results published by the named workers. */
  function OwnAll(db: DB, names: seq<string>): set<int> { set n | n in db.results && db.results[n].worker in names }

  lemma OwnApart(db: DB, names: seq<string>)
    requires names != [] && forall i :: 0 < i < |names| ==> names[i] != names[0]
    ensures |OwnAll(db, names)| == |Own(db, names[0])| + |OwnAll(db, names[1..])|
  {
    var rest := names[1..];
    assert names == [names[0]] + rest;
    assert OwnAll(db, names) == Own(db, names[0]) + OwnAll(db, rest);
    assert Own(db, names[0]) !! OwnAll(db, rest);
  }

  lemma {:induction false} PublishedIsOwn(p: Pool, names: seq<string>)
    requires PoolOk(p) && forall i :: 0 <= i < |names| ==> names[i] in p.workers && !p.workers[names[i]].phase.Publishing?
    requires forall i, j :: 0 <= i < j < |names| ==> names[i] != names[j]
    ensures Published(p.workers, names) == |OwnAll(p.sys.db, names)|
  {
    if names == [] {
      assert OwnAll(p.sys.db, names) == {};
    } else {
      PublishedIsOwn(p, names[1..]);
      assert WorkerOk(p.sys, names[0], p.workers[names[0]]);
      OwnApart(p.sys.db, names);
    }
  }

  lemma NewWorkerOk(s: System, id: string, w: WorkerState)
    requires IsNew(w) && s.db.results == map[]
    ensures WorkerOk(s, id, w)
  {
    assert Own(s.db, id) == {};
    assert HoldsItsOwn(s, id, w);
  }

  lemma OpeningOk(p: Pool)
    requires Opening(p)
    ensures PoolOk(p)
  {
    InitialOk(p.sys.clock);
    forall id | id in p.workers
      ensures WorkerOk(p.sys, id, p.workers[id])
    {
      NewWorkerOk(p.sys, id, p.workers[id]);
    }
  }

  predicate NamesOf(p: Pool, names: seq<string>) {
    && (forall i :: 0 <= i < |names| ==> names[i] in p.workers)
    && (forall w :: w in p.workers ==> w in names)
    && (forall i, j :: 0 <= i < j < |names| ==> names[i] != names[j])
  }

  predicate NoneWaiting(p: Pool) { forall w :: w in p.workers ==> !p.workers[w].phase.Publishing? }

  /** In a pool whose workers keep retrying lost answers, and once none is still waiting to hear of a
      publish, the workers' published counters add up to exactly the results stored, and each worker's
      five counters to exactly the claims it got back, less the job it is on. */
  lemma CountsMatchResults(start: Pool, names: seq<string>, events: seq<Event>)
    requires Opening(start)
    ensures var p := HappensAll(start, events);
            && p.workers.Keys == start.workers.Keys
            && (forall w :: w in p.workers ==> Accounted(p.workers[w]))
            && (NamesOf(p, names) && NoneWaiting(p) ==> Published(p.workers, names) == |p.sys.db.results|)
  {
    OpeningOk(start);
    PoolKeeps(start, events);
    CountsMatch(HappensAll(start, events), names);
  }

  lemma CountsMatch(p: Pool, names: seq<string>)
    requires PoolOk(p)
    ensures forall w :: w in p.workers ==> Accounted(p.workers[w])
    ensures NamesOf(p, names) && NoneWaiting(p) ==> Published(p.workers, names) == |p.sys.db.results|
  {
    AllAccounted(p);
    if NamesOf(p, names) && NoneWaiting(p) {
      PublishedIsOwn(p, names);
      EveryResultOwned(p, names);
    }
  }

  lemma AllAccounted(p: Pool)
    requires PoolOk(p)
    ensures forall w :: w in p.workers ==> Accounted(p.workers[w])
  {
    forall w | w in p.workers
      ensures Accounted(p.workers[w])
    {
      assert WorkerOk(p.sys, w, p.workers[w]);
    }
  }

  lemma EveryResultOwned(p: Pool, names: seq<string>)
    requires PoolOk(p) && NamesOf(p, names)
    ensures |OwnAll(p.sys.db, names)| == |p.sys.db.results|
  {
    var db := p.sys.db;
    forall n | n in db.results
      ensures n in OwnAll(db, names)
    {
      assert db.results[n].worker in p.workers;
    }
    assert OwnAll(db, names) == db.results.Keys;
    assert |db.results| == |db.results.Keys|;
  }

  /** Whatever a pool does, lost answers and repeats included, once its jobs are final the checker finds
      nothing. */
  lemma DrainedPoolIsClean(start: Pool, events: seq<Event>, ids: seq<int>, run: FleetCheck.Snapshot)
    requires Opening(start)
    requires var db := HappensAll(start, events).sys.db;
             FleetDrained.SnapshotOf(db, ids, run) && FleetDrained.Distinct(ids) && FleetDrained.Drained(db, ids)
    ensures FleetCheck.Clean(run, ids, None)
  {
    OpeningOk(start);
    PoolKeeps(start, events);
    FleetDrained.DrainedIsClean(HappensAll(start, events).sys, ids, run);
  }

  /** What a pool does to the store is one of the protocol's runs. */
  lemma {:induction false} PoolIsRun(p: Pool, events: seq<Event>) returns (steps: seq<Step>)
    ensures HappensAll(p, events).sys == Run(p.sys, steps)
    decreases |events|
  {
    if events == [] {
      steps := [];
    } else {
      var first := EventIsStep(p, events[0]);
      var rest := PoolIsRun(Happens(p, events[0]), events[1..]);
      steps := first + rest;
      RunAppend(p.sys, first, rest);
    }
  }

  lemma {:induction false} RunAppend(s: System, first: seq<Step>, rest: seq<Step>)
    ensures Run(s, first + rest) == Run(Run(s, first), rest)
    decreases |first|
  {
    if first == [] {
      assert first + rest == rest;
    } else {
      assert (first + rest)[1..] == first[1..] + rest;
      RunAppend(Apply(s, first[0]), first[1..], rest);
    }
  }

  lemma {:induction false} HappensAppend(p: Pool, a: seq<Event>, b: seq<Event>)
    ensures HappensAll(p, a + b) == HappensAll(HappensAll(p, a), b)
    decreases |a|
  {
    if a == [] {
      assert a + b == b;
    } else {
      assert (a + b)[1..] == a[1..] + b;
      HappensAppend(Happens(p, a[0]), a[1..], b);
    }
  }

  // ---- one worker among the others ----

  /** The pool with this worker in it, too. */
  function With(p: Pool, id: string, w: WorkerState): Pool { p.(workers := p.workers[id := w]) }

  predicate Concerns(e: Event, id: string) {
    match e
    case Outside(_) => false
    case Make(c, _, _) => c.id == id
    case Finish(worker, _) => worker == id
  }

  /** The events that are none of this worker's. */
  function Foreign(events: seq<Event>, id: string): seq<Event> {
    if events == [] then [] else (if Concerns(events[0], id) then [] else [events[0]]) + Foreign(events[1..], id)
  }

  lemma TwoWorkers(workers: map<string, WorkerState>, a: string, b: string, x: WorkerState, y: WorkerState)
    requires a != b
    ensures workers[a := x][b := y] == workers[b := y][a := x]
  {}

  lemma ForeignStep(p: Pool, id: string, w: WorkerState, e: Event)
    requires id !in p.workers
    ensures id !in Happens(p, e).workers
    ensures if Concerns(e, id) then Happens(p, e) == p else Happens(With(p, id, w), e) == With(Happens(p, e), id, w)
  {
    hide Apply, Enabled, AnswerTo, CallOf, Advance, Ran;
    match e
    case Outside(_) =>
    case Make(c, r, heard) =>
      if c.id in p.workers && c.id != id {
        var call := CallOf(c, p.workers[c.id].phase, r);
        TwoWorkers(p.workers, id, c.id, w, Advance(p.workers[c.id], AnswerTo(p.sys.db, call)));
      }
    case Finish(worker, result) =>
      if worker in p.workers && worker != id {
        TwoWorkers(p.workers, id, worker, w, Ran(p.workers[worker], result));
      }
  }

  /** What the others do, they do whether this worker is among them or not. */
  lemma {:induction false} ForeignHappens(p: Pool, id: string, w: WorkerState, events: seq<Event>)
    requires id !in p.workers
    ensures id !in HappensAll(p, events).workers
    ensures HappensAll(With(p, id, w), Foreign(events, id)) == With(HappensAll(p, events), id, w)
    decreases |events|
  {
    hide Happens;
    if events != [] {
      var first, rest := events[0], events[1..];
      ForeignStep(p, id, w, first);
      ForeignHappens(Happens(p, first), id, w, rest);
      if Concerns(first, id) {
        assert Foreign(events, id) == Foreign(rest, id);
      } else {
        var kept := [first] + Foreign(rest, id);
        assert Foreign(events, id) == kept && kept[0] == first && kept[1..] == Foreign(rest, id);
        assert HappensAll(With(p, id, w), kept) == HappensAll(Happens(With(p, id, w), first), Foreign(rest, id));
      }
    }
  }

  /** Exactly one of the five counters went up, by one. */
  predicate OneMore(a: Counts, b: Counts) {
    && Tally(b) == Tally(a) + 1
    && b.published >= a.published && b.rejected >= a.rejected && b.lost >= a.lost && b.released >= a.released && b.cancelled >= a.cancelled
  }

  predicate CameOffOnce(w: WorkerState, w': WorkerState) {
    && w'.counts.claims >= w.counts.claims
    && (w'.counts.claims == w.counts.claims ==> if w'.phase.Idle? then OneMore(w.counts, w'.counts) else w'.counts == w.counts)
  }

  lemma CameOffStep(w: WorkerState, w': WorkerState, p: Pool, id: string, e: Event)
    requires id in p.workers && p.workers[id] == w' && CameOffOnce(w, w')
    ensures id in Happens(p, e).workers && CameOffOnce(w, Happens(p, e).workers[id])
  {
    hide Apply, Enabled, AnswerTo, CallOf;
  }

  /** Whatever happens in the pool, a worker that held a job and is idle again has raised exactly one counter on the
      way, unless it has since claimed another. */
  lemma {:induction false} ComesOffOnce(w: WorkerState, p: Pool, id: string, events: seq<Event>)
    requires id in p.workers && CameOffOnce(w, p.workers[id])
    ensures id in HappensAll(p, events).workers && CameOffOnce(w, HappensAll(p, events).workers[id])
    decreases |events|
  {
    hide Happens, CameOffOnce;
    if events != [] {
      CameOffStep(w, p.workers[id], p, id, events[0]);
      ComesOffOnce(w, Happens(p, events[0]), id, events[1..]);
    }
  }
}
