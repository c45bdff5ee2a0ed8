/** A worker as the source has it (fleet/worker.py): an object whose step makes store calls one after the
    other and counts how each claim ended, riding through dropped connections (fleet/connections.py).
    The step is proved to do, answer by answer, what the pool's workers do. */
module FleetWorker {
  import opened Wrappers
  import opened FleetRows
  import opened FleetTransactions
  import opened FleetProtocol
  import opened FleetPool
  import opened FleetSafety
  import opened FleetCounters
  import FleetConnections
  import FleetFencing
  import FleetStore

  /** The store, its clock, the claims it has granted, and the workers besides the one this is about. */
  class Database {
    const store: FleetStore.Store
    var clock: Time
    var granted: set<Hold>
    var others: map<string, WorkerState>

    constructor (clock: Time, others: map<string, WorkerState>)
      ensures fresh(store) && Crowd() == Pool(Initial(clock), others)
    {
      store := new FleetStore.Store();
      this.clock, granted, this.others := clock, {}, others;
    }

    function Sys(): System
      reads this, store
    {
      System(store.Db(), clock, granted)
    }

    function Crowd(): Pool
      reads this, store
    {
      Pool(Sys(), others)
    }

    /** One store call, by whoever makes it. */
    method Perform(step: Step) returns (answer: Answer)
      modifies this`clock, this`granted, store
      ensures Sys() == Apply(old(Sys()), step) && answer == Reply(old(Sys()), step)
    {
      if !Enabled(Sys(), step) { return Nothing; }
      answer := Nothing;
      match step {
        case Tick(_) =>
        case Look(job, _) => answer := State(if job in store.jobs then Some(store.jobs[job].state) else None);
        case ReadLive(at) => answer := Alive(store.LiveNow(at));
        case Submit(request, key, at, _) => { var sub := store.SubmitBatch(request, key, at); answer := Batch(sub); }
        case Claim(worker, lease, locked, at, _) => {
          var got := store.Claim(worker, lease, locked, at);
          answer := Held(if got.None? then None else Some(Hold(worker, got.value, at)));
          if got.Some? { granted := granted + {Hold(worker, got.value, at)}; }
        }
        case Start(hold, at, _) => { var ok := store.Start(hold.key, at); answer := Yes(ok); }
        case Heartbeat(hold, lease, at, _) => { var beat := store.Heartbeat(hold.key, lease, at); answer := Beaten(beat); }
        case Cancel(job, at, _) => { var state := store.Cancel(job, at); answer := State(state); }
        case FinishCancel(hold, at, _) => { var ok := store.FinishCancelledCall(hold.key, at); answer := Yes(ok); }
        case Publish(hold, outcome, body, at, _) => {
          var ok := store.Publish(hold.key, hold.worker, outcome, body, at);
          answer := Yes(ok);
        }
        case Release(hold, error, retry, at, _) => {
          var state := store.Release(hold.key, error, retry, at);
          answer := State(state);
        }
        case Reap(retry, locked, at, _) => { var jobs := store.Reap(retry, locked, at); answer := Ended(jobs); }
      }
      clock := CommitOf(step);
    }

    /** One event among the others. */
    method Happen(e: Event)
      modifies this, store
      ensures Crowd() == Happens(old(Crowd()), e)
    {
      match e
      case Outside(step) => if FromOutside(step) { var _ := Perform(step); }
      case Make(c, r, heard) =>
        if c.id in others {
          var call := CallOf(c, others[c.id].phase, r);
          var moves := heard && Enabled(Sys(), call);
          var answer := Perform(call);
          if moves { others := others[c.id := Advance(others[c.id], answer)]; }
        }
      case Finish(worker, result) =>
        if worker in others { others := others[worker := Ran(others[worker], result)]; }
    }

    /** What everyone else does in the meantime. */
    method HappenAll(events: seq<Event>)
      modifies this, store
      ensures Crowd() == HappensAll(old(Crowd()), events)
    {
      for i := 0 to |events|
        invariant Crowd() == HappensAll(old(Crowd()), events[..i])
      {
        HappensAppend(old(Crowd()), events[..i], [events[i]]);
        assert events[..i + 1] == events[..i] + [events[i]];
        Happen(events[i]);
      }
      assert events[..|events|] == events;
    }
  }

  /** The answer of a call the clock allows. */
  function Reply(s: System, step: Step): Answer { if Enabled(s, step) then AnswerTo(s.db, step) else Nothing }

  // ---- a worker among the others ----

  /** From this pool on, these events led to these others and this worker. */
  predicate Follows(crowd: Pool, id: string, w: WorkerState, from: Pool, events: seq<Event>) {
    id !in crowd.workers && HappensAll(from, events) == With(crowd, id, w)
  }

  lemma Onward(crowd: Pool, crowd': Pool, id: string, w: WorkerState, w': WorkerState, from: Pool, events: seq<Event>, more: seq<Event>)
    requires Follows(crowd, id, w, from, events) && id !in crowd'.workers
    requires HappensAll(With(crowd, id, w), more) == With(crowd', id, w')
    ensures Follows(crowd', id, w', from, events + more)
  {
    HappensAppend(from, events, more);
  }

  lemma OthersGoOn(crowd: Pool, others: seq<Event>, id: string, w: WorkerState, from: Pool, events: seq<Event>)
    requires Follows(crowd, id, w, from, events)
    ensures Follows(HappensAll(crowd, others), id, w, from, events + Foreign(others, id))
  {
    ForeignHappens(crowd, id, w, others);
    Onward(crowd, HappensAll(crowd, others), id, w, w, from, events, Foreign(others, id));
  }

  /** A store call a worker makes: its phase's own, or one that leaves the phase as it is. */
  datatype Errand = OfPhase(c: Config, phase: Phase) | Reaping(retry: RetryPolicy) | LookingAt(job: int) | ReadingLive

  function StepOf(e: Errand, r: Reading): Step {
    match e
    case OfPhase(c, phase) => CallOf(c, phase, r)
    case Reaping(retry) => Reap(retry, r.locked, r.at, r.commit)
    case LookingAt(job) => Look(job, r.at)
    case ReadingLive => ReadLive(r.at)
  }

  function EventOf(e: Errand, r: Reading, heard: bool): Event {
    if e.OfPhase? then Make(e.c, r, heard) else Outside(StepOf(e, r))
  }

  /** A reap by this policy. */
  function ReapBy(retry: RetryPolicy, r: Reading): Event { Outside(Reap(retry, r.locked, r.at, r.commit)) }

  /** The worker once it has heard the answer. */
  function After(e: Errand, w: WorkerState, a: Answer): WorkerState { if e.OfPhase? then Advance(w, a) else w }

  predicate Suits(e: Errand, id: string, w: WorkerState) { e.OfPhase? ==> e.c.id == id && e.phase == w.phase }

  lemma ErrandHappens(crowd: Pool, id: string, w: WorkerState, e: Errand, r: Reading, heard: bool)
    requires id !in crowd.workers && Suits(e, id, w)
    ensures var crowd' := crowd.(sys := Apply(crowd.sys, StepOf(e, r)));
            var w' := if heard then After(e, w, Reply(crowd.sys, StepOf(e, r))) else w;
            HappensAll(With(crowd, id, w), [EventOf(e, r, heard)]) == With(crowd', id, w')
  {
    hide AnswerTo, DbAfter, GrantedAfter;
    var p, event := With(crowd, id, w), EventOf(e, r, heard);
    assert [event][1..] == [];
    assert HappensAll(p, [event]) == Happens(p, event);
    if e.OfPhase? {
      var w' := Advance(w, AnswerTo(crowd.sys.db, StepOf(e, r)));
      assert crowd.workers[id := w][id := w'] == crowd.workers[id := w'];
      assert Advance(w, Nothing) == w;
    }
  }

  /** The last of these events is this call, answered, and it left the store like this. */
  predicate Replied(from: Pool, events: seq<Event>, s: System, e: Errand, r: Reading, a: Answer) {
    && |events| > 0 && events[|events| - 1] == EventOf(e, r, true)
    && var before := HappensAll(from, events[..|events| - 1]).sys;
    && a == Reply(before, StepOf(e, r)) && s == Apply(before, StepOf(e, r))
  }

  lemma ReapHeard(from: Pool, events: seq<Event>, s: System, retry: RetryPolicy, r: Reading, a: Answer)
    requires Replied(from, events, s, Reaping(retry), r, a)
    ensures ReapBy(retry, r) in events
  {
    hide HappensAll, Reply;
    assert events[|events| - 1] == ReapBy(retry, r);
  }

  /** The last event read the attempts that were then live. */
  predicate ReadsLive(from: Pool, events: seq<Event>, at: Time, keys: set<Key>) {
    && |events| > 0 && events[|events| - 1] == Outside(ReadLive(at))
    && keys == LiveAttempts(HappensAll(from, events[..|events| - 1]).sys.db, at)
  }

  lemma LiveHeard(from: Pool, events: seq<Event>, s: System, r: Reading, a: Answer)
    requires Replied(from, events, s, ReadingLive, r, a) && !a.Nothing?
    ensures a.Alive? && ReadsLive(from, events, r.at, a.keys)
  {
    hide HappensAll, LiveAttempts;
  }

  lemma ReplyTells(from: Pool, events: seq<Event>, s: System, c: Config, phase: Phase, r: Reading, a: Answer)
    requires Inv(from.sys) && Replied(from, events, s, OfPhase(c, phase), r, a) && !a.Nothing?
    ensures Tells(s.db, phase, r.at, a)
  {
    hide Inv, Tells, AnswerTo;
    var steps := PoolIsRun(from, events[..|events| - 1]);
    RunKeeps(from.sys, steps);
    AnswerTells(HappensAll(from, events[..|events| - 1]).sys, c, phase, r);
  }

  // ---- riding through dropped connections ----

  const FIRST_DELAY := 50_000
  const MAX_DELAY := 1_000_000

  /** The wait before try i + 1: doubling from the first delay, to the longest. */
  function Delay(i: nat): int { if i == 0 then FIRST_DELAY else Min(Delay(i - 1) * 2, MAX_DELAY) }

  lemma {:induction false} DelayDoubles(i: nat)
    ensures Delay(i) == Min(50_000 * Pow2(i), 1_000_000)
  {
    if i > 0 {
      DelayDoubles(i - 1);
      assert 50_000 * Pow2(i) == 2 * (50_000 * Pow2(i - 1));
    }
  }

  /** A try that failed: whether the call had committed by then, how it failed, what others did until the next
      try, and what the worker's clock read. */
  datatype Drop = Drop(reading: Reading, committed: bool, failure: FleetConnections.Failure, others: seq<Event>, now: Time)

  /** A call as it goes: what others did first, the tries that failed, the reading of the try that answers,
      and the worker's clock at the start. */
  datatype Ride = Ride(before: seq<Event>, drops: seq<Drop>, reading: Reading, start: Time)

  /** Every failed try lost its connection, and came early enough to wait and try again. */
  predicate Rides(ride: Ride, seconds: nat) {
    forall i :: 0 <= i < |ride.drops| ==>
                  FleetConnections.Lost(ride.drops[i].failure) && ride.drops[i].now + Delay(i) <= ride.start + seconds
  }

  /** One try: the call commits, and its answer arrives or is lost. */
  method Try(db: Database, e: Errand, r: Reading, ghost heard: bool,
             ghost id: string, ghost w: WorkerState, ghost from: Pool, ghost events: seq<Event>)
    returns (answer: Answer, ghost events': seq<Event>)
    requires Follows(db.Crowd(), id, w, from, events) && Suits(e, id, w)
    modifies db, db.store
    ensures answer == Reply(old(db.Sys()), StepOf(e, r)) && db.Sys() == Apply(old(db.Sys()), StepOf(e, r))
    ensures events' == events + [EventOf(e, r, heard)]
    ensures Follows(db.Crowd(), id, if heard then After(e, w, answer) else w, from, events')
  {
    hide AnswerTo, Apply, Enabled, StepOf, Advance, HappensAll;
    ghost var crowd := db.Crowd();
    answer := db.Perform(StepOf(e, r));
    events' := events + [EventOf(e, r, heard)];
    ErrandHappens(crowd, id, w, e, r, heard);
    Onward(crowd, db.Crowd(), id, w, if heard then After(e, w, answer) else w, from, events, [EventOf(e, r, heard)]);
  }

  /** ride_through: the answer of the first try that gets one, or None when a failed one is raised. */
  method RideThrough(db: Database, e: Errand, ride: Ride, seconds: nat,
                     ghost id: string, ghost w: WorkerState, ghost from: Pool, ghost events: seq<Event>)
    returns (answer: Option<Answer>, ghost events': seq<Event>)
    requires Follows(db.Crowd(), id, w, from, events) && Suits(e, id, w)
    modifies db, db.store
    ensures answer.Some? <==> Rides(ride, seconds)
    ensures Follows(db.Crowd(), id, if answer.Some? then After(e, w, answer.value) else w, from, events')
    ensures answer.Some? ==> Replied(from, events', db.Sys(), e, ride.reading, answer.value)
    ensures events <= events'
  {
    hide Reply, StepOf, EventOf, After, HappensAll;
    OthersGoOn(db.Crowd(), ride.before, id, w, from, events);
    db.HappenAll(ride.before);
    events' := events + Foreign(ride.before, id);
    var deadline := ride.start + seconds;
    var delay := FIRST_DELAY;
    for i := 0 to |ride.drops|
      invariant delay == Delay(i)
      invariant Follows(db.Crowd(), id, w, from, events') && events <= events'
      invariant forall n :: 0 <= n < i ==> FleetConnections.Lost(ride.drops[n].failure) && ride.drops[n].now + Delay(n) <= deadline
    {
      var drop := ride.drops[i];
      if drop.committed {
        var _, more := Try(db, e, drop.reading, false, id, w, from, events');
        events' := more;
      }
      var lost := FleetConnections.ConnectionLost(drop.failure);
      if !lost || drop.now + delay > deadline { return None, events'; }
      OthersGoOn(db.Crowd(), drop.others, id, w, from, events');
      db.HappenAll(drop.others);
      events' := events' + Foreign(drop.others, id);
      delay := Min(delay * 2, MAX_DELAY);
    }
    ghost var before := events';
    var got;
    got, events' := Try(db, e, ride.reading, true, id, w, from, before);
    answer := Some(got);
    assert events'[..|events'| - 1] == before;
  }

  // ---- the step ----

  /** A timed sweep: how its reap goes, the clock after it, the containers and networks then listed, or None when
      listing them raises, how the reading of the live attempts goes, and what each removal comes to. */
  datatype Sweep = Sweep(
    reap: Ride, now: Time, listing: Option<Listing>, live: Ride, removal: string -> FleetFencing.Removal)

  datatype Listing = Listing(containers: seq<FleetFencing.Item>, networks: seq<FleetFencing.Item>)

  /** What a run comes to: its end, with how the record of its execution goes if it has one, or an exception. */
  datatype Execution = Ends(result: RunResult, record: Option<Ride>) | Breaks

  /** How one step goes: the clock at its start, its calls, and how long and to what end its run takes. */
  datatype Script = Script(
    now: Time, sweep: Sweep, claim: Ride, reap: Ride, claimAgain: Ride, start: Ride, beats: seq<Ride>, run: Execution,
    cancel: Ride, publish: Ride, look: Ride, release: Ride)

  datatype Stepped = Worked(some: bool) | Raised

  class Worker {
    const config: Config
    const patience: nat
    const reapEvery: nat
    var reapedAt: Option<Time>
    var published: int
    var rejected: int
    var lost: int
    var released: int
    var cancelled: int
    var claims: int

    constructor (config: Config, patience: nat, reapEvery: nat)
      ensures IsNew(View()) && reapedAt.None?
      ensures this.config == config && this.patience == patience && this.reapEvery == reapEvery
    {
      this.config, this.patience, this.reapEvery, reapedAt := config, patience, reapEvery, None;
      published, rejected, lost, released, cancelled, claims := 0, 0, 0, 0, 0, 0;
    }

    function Counters(): Counts
      reads this
    {
      Counts(published, rejected, lost, released, cancelled, claims)
    }

    /** The worker in a phase of its step. */
    function In(phase: Phase): WorkerState
      reads this
    {
      WorkerState(phase, Counters())
    }

    /** The worker between two steps. */
    function View(): WorkerState
      reads this
    {
      In(Idle)
    }

    /** A store call that outlasts a dropped connection, or raises. */
    method Request(db: Database, e: Errand, ride: Ride, ghost w: WorkerState, ghost from: Pool, ghost events: seq<Event>)
      returns (answer: Option<Answer>, ghost events': seq<Event>)
      requires Follows(db.Crowd(), config.id, w, from, events) && Suits(e, config.id, w)
      modifies db, db.store
      ensures Follows(db.Crowd(), config.id, if answer.Some? then After(e, w, answer.value) else w, from, events')
      ensures answer.Some? ==> !answer.value.Nothing? && Replied(from, events', db.Sys(), e, ride.reading, answer.value)
      ensures events <= events'
    {
      hide Follows, Replied;
      answer, events' := RideThrough(db, e, ride, patience, config.id, w, from, events);
      if answer.Some? && answer.value.Nothing? { answer := None; }
    }

    /** The call of a phase. */
    method Ask(db: Database, phase: Phase, ride: Ride, ghost from: Pool, ghost events: seq<Event>)
      returns (answer: Option<Answer>, ghost events': seq<Event>)
      requires Follows(db.Crowd(), config.id, In(phase), from, events)
      modifies db, db.store
      ensures Follows(db.Crowd(), config.id, if answer.Some? then Advance(In(phase), answer.value) else In(phase), from, events')
      ensures answer.Some? ==> Fits(phase, answer.value)
      ensures answer.Some? && Inv(from.sys) ==> Tells(db.Sys().db, phase, ride.reading.at, answer.value)
      ensures events <= events'
    {
      hide Follows, HappensAll, Inv, Tells;
      answer, events' := Request(db, OfPhase(config, phase), ride, In(phase), from, events);
      if answer.Some? && Inv(from.sys) { ReplyTells(from, events', db.Sys(), config, phase, ride.reading, answer.value); }
    }

    /** _reap, on its timer: lapsed leases are ended first, and then the containers stopped whose attempts were not
        live in a reading made after they were listed. */
    method SweepOrphans(db: Database, script: Script, ghost from: Pool, ghost events: seq<Event>)
      returns (done: bool, stopped: seq<string>, ghost events': seq<Event>)
      requires Follows(db.Crowd(), config.id, View(), from, events)
      modifies db, db.store, this`reapedAt
      ensures Follows(db.Crowd(), config.id, View(), from, events')
      ensures if Due(old(reapedAt), script.now) then done ==> reapedAt == Some(script.sweep.now)
              else done && stopped == [] && events' == events && reapedAt == old(reapedAt)
      ensures events <= events'
      ensures done && Due(old(reapedAt), script.now) ==>
                && script.sweep.listing.Some? && ReapBy(config.retry, script.sweep.reap.reading) in events'
                && exists alive :: ReadsLive(from, events', script.sweep.live.reading.at, alive)
                                   && stopped == FleetFencing.Orphans(script.sweep.listing.value.containers, alive)
    {
      hide Follows, Replied, ReadsLive, FleetFencing.Swept, FleetFencing.Orphans;
      done, stopped, events' := true, [], events;
      if !Due(reapedAt, script.now) { return; }
      done := false;
      var answer;
      answer, events' := Request(db, Reaping(config.retry), script.sweep.reap, View(), from, events);
      if answer.None? { return; }
      ReapHeard(from, events', db.Sys(), config.retry, script.sweep.reap.reading, answer.value);
      reapedAt := Some(script.sweep.now);
      if script.sweep.listing.None? { return; }
      answer, events' := Request(db, ReadingLive, script.sweep.live, View(), from, events');
      if answer.None? { return; }
      LiveHeard(from, events', db.Sys(), script.sweep.live.reading, answer.value);
      var listing := script.sweep.listing.value;
      var removed, raised;
      stopped, removed, raised := FleetFencing.ReapOrphans(listing.containers, listing.networks, answer.value.keys, script.sweep.removal);
      done := !raised;
    }

    /** A sweep is due at first, and then once the time between two has passed. */
    predicate Due(last: Option<Time>, now: Time) { last.None? || now - last.value >= reapEvery }

    /** _claim: look for a job, and count the claim that got one. */
    method ClaimJob(db: Database, ride: Ride, ghost from: Pool, ghost events: seq<Event>)
      returns (answer: Option<Answer>, ghost events': seq<Event>)
      requires Follows(db.Crowd(), config.id, View(), from, events)
      modifies db, db.store, this`claims
      ensures answer.Some? ==> answer.value.Held?
      ensures events <= events'
      ensures Follows(db.Crowd(), config.id, In(Found(answer)), from, events')
      ensures Counters() == old(Counters()).(claims := old(claims) + if Found(answer).Idle? then 0 else 1)
    {
      hide Follows;
      answer, events' := Ask(db, Idle, ride, from, events);
      if answer.Some? && answer.value.hold.Some? { claims := claims + 1; }
    }

    /** _cancel, and the lost count its callers add when it was too late. */
    method CancelJob(db: Database, hold: Hold, ride: Ride, ghost from: Pool, ghost events: seq<Event>)
      returns (done: bool, ghost events': seq<Event>)
      requires Follows(db.Crowd(), config.id, In(Cancelling(hold)), from, events)
      modifies db, db.store, this`cancelled, this`lost
      ensures Follows(db.Crowd(), config.id, In(if done then Idle else Cancelling(hold)), from, events')
      ensures if done then OneMore(old(Counters()), Counters()) else Counters() == old(Counters())
      ensures done && Inv(from.sys) ==> Counted(db.Sys().db, Cancelling(hold), old(Counters()), Counters())
    {
      hide Follows, Inv;
      var answer;
      answer, events' := Ask(db, Cancelling(hold), ride, from, events);
      done := answer.Some?;
      if done {
        if answer.value.ok { cancelled := cancelled + 1; } else { lost := lost + 1; }
      }
    }

    /** _run: heartbeats until the run ends, the lease is lost or a cancel shows; None when a call raised. */
    method RunJob(db: Database, hold: Hold, beats: seq<Ride>, run: Execution, ghost from: Pool, ghost events: seq<Event>)
      returns (last: Option<Answer>, ended: bool, ghost events': seq<Event>)
      requires Follows(db.Crowd(), config.id, In(Working(hold)), from, events)
      modifies db, db.store
      ensures Follows(db.Crowd(), config.id, if last.Some? then Advance(In(Working(hold)), last.value) else In(Working(hold)), from, events')
      ensures last.Some? ==> last.value.Beaten? && (last.value.beat.None? || last.value.beat.value.cancelRequested)
      ensures ended ==> last.None? && run.Ends?
    {
      hide Follows;
      last, events', ended := None, events, false;
      for i := 0 to |beats|
        invariant Follows(db.Crowd(), config.id, In(Working(hold)), from, events') && last.None?
      {
        var answer;
        answer, events' := Ask(db, Working(hold), beats[i], from, events');
        if answer.None? { return; }
        var beat := answer.value.beat;
        if beat.None? || beat.value.cancelRequested { return answer, false, events'; }
      }
      ended := run.Ends?;
    }

    /** record_execution, of a run that has one: no modelled table keeps it. */
    method RecordExecution(db: Database, hold: Hold, record: Option<Ride>, ghost w: WorkerState, ghost from: Pool, ghost events: seq<Event>)
      returns (done: bool, ghost events': seq<Event>)
      requires Follows(db.Crowd(), config.id, w, from, events)
      modifies db, db.store
      ensures Follows(db.Crowd(), config.id, w, from, events')
    {
      hide Follows;
      done, events' := true, events;
      if record.Some? {
        var answer;
        answer, events' := Request(db, LookingAt(hold.key.job), record.value, w, from, events);
        done := answer.Some?;
      }
    }

    /** What a step does with the outcome of its run: record it, and publish it or give the job back. */
    method Settle(db: Database, hold: Hold, result: RunResult, script: Script, ghost from: Pool, ghost events: seq<Event>)
      returns (done: bool, ghost phase: Phase, ghost last: Phase, ghost events': seq<Event>)
      requires Follows(db.Crowd(), config.id, In(Working(hold)), from, events) && script.run.Ends? && script.run.result == result
      modifies db, db.store, this`published, this`rejected, this`lost, this`released, this`cancelled
      ensures Follows(db.Crowd(), config.id, In(phase), from, events')
      ensures if done then phase == Idle && OneMore(old(Counters()), Counters()) else Counters() == old(Counters())
      ensures done ==> EndsIn(hold, script.run, last)
      ensures done && Inv(from.sys) ==> Counted(db.Sys().db, last, old(Counters()), Counters())
    {
      hide Follows, Inv, Stored;
      phase := Ran(In(Working(hold)), result).phase;
      last := phase;
      events' := events + [Finish(config.id, result)];
      RunFinishes(db.Crowd(), config.id, In(Working(hold)), result, from, events);
      done, events' := RecordExecution(db, hold, script.run.record, In(phase), from, events');
      if !done { return; }
      done := false;
      var answer;
      match result {
        case Failure(error) => {
          answer, events' := Ask(db, Releasing(hold, error), script.release, from, events');
          if answer.None? { return; }
          if answer.value.state.None? { lost := lost + 1; } else { released := released + 1; }
        }
        case Done(outcome, body) => {
          answer, events' := Ask(db, Publishing(hold, outcome, body), script.publish, from, events');
          if answer.None? { return; }
          if answer.value.ok {
            published := published + 1;
          } else {
            phase, last := Asking(hold), Asking(hold);
            answer, events' := Ask(db, Asking(hold), script.look, from, events');
            if answer.None? { return; }
            if answer.value.state == Some(Cancelled) { cancelled := cancelled + 1; } else { rejected := rejected + 1; }
          }
        }
      }
      done, phase := true, Idle;
    }

    /** The part of a step after its claim: start, run, and one ending. */
    method Carry(db: Database, hold: Hold, script: Script, ghost from: Pool, ghost events: seq<Event>)
      returns (done: bool, ghost phase: Phase, ghost last: Phase, ghost events': seq<Event>)
      requires Follows(db.Crowd(), config.id, In(Starting(hold)), from, events)
      modifies db, db.store, this`published, this`rejected, this`lost, this`released, this`cancelled
      ensures Follows(db.Crowd(), config.id, In(phase), from, events')
      ensures if done then phase == Idle && OneMore(old(Counters()), Counters()) else Counters() == old(Counters())
      ensures done ==> EndsIn(hold, script.run, last)
      ensures done && Inv(from.sys) ==> Counted(db.Sys().db, last, old(Counters()), Counters())
    {
      hide Follows, Inv;
      done, phase, last := false, Starting(hold), Cancelling(hold);
      var answer, ended;
      answer, events' := Ask(db, Starting(hold), script.start, from, events);
      if answer.None? { return; }
      if answer.value.ok {
        phase := Working(hold);
        answer, ended, events' := RunJob(db, hold, script.beats, script.run, from, events');
        if ended {
          done, phase, last, events' := Settle(db, hold, script.run.result, script, from, events');
          return;
        }
        if answer.None? { return; }
        if answer.value.beat.None? {
          lost := lost + 1;
          return true, Idle, Working(hold), events';
        }
      }
      done, events' := CancelJob(db, hold, script.cancel, from, events');
      phase := if done then Idle else Cancelling(hold);
    }

    /** Claim a job, reaping lapsed leases first when there was none. */
    method FindJob(db: Database, script: Script, ghost from: Pool, ghost events: seq<Event>)
      returns (answer: Option<Answer>, ghost events': seq<Event>)
      requires Follows(db.Crowd(), config.id, View(), from, events)
      modifies db, db.store, this`claims
      ensures answer.Some? ==> answer.value.Held?
      ensures answer.Some? && answer.value.hold.None? ==> ReapBy(config.retry, script.reap.reading) in events'
      ensures Follows(db.Crowd(), config.id, In(Found(answer)), from, events')
      ensures Counters() == old(Counters()).(claims := old(claims) + if Found(answer).Idle? then 0 else 1)
    {
      hide Follows, Replied;
      answer, events' := ClaimJob(db, script.claim, from, events);
      if answer.None? { return; }
      if answer.value.hold.None? {
        answer, events' := Request(db, Reaping(config.retry), script.reap, View(), from, events');
        if answer.None? { return; }
        ReapHeard(from, events', db.Sys(), config.retry, script.reap.reading, answer.value);
        answer, events' := ClaimJob(db, script.claimAgain, from, events');
      }
    }

    /** step: run one job; False when there was nothing to claim, even after reaping lapsed leases.
        Whatever everyone else does meanwhile and whichever answers are lost, what happens is a course of the pool's
        events that leads this worker, too, where it is then: in the phase in which a call raised, or idle again. A step
        that returns True has claimed one job and raised exactly one of the five counters, by one. */
    method Step(db: Database, script: Script)
      returns (r: Stepped, ghost phase: Phase, ghost last: Phase, ghost events: seq<Event>, ghost trace: seq<FleetProtocol.Step>)
      requires config.id !in db.others
      modifies db, db.store, this
      ensures db.Sys() == Run(old(db.Sys()), trace)
      ensures Follows(db.Crowd(), config.id, In(phase), With(old(db.Crowd()), config.id, old(View())), events)
      ensures r.Worked? ==> phase == Idle
      ensures r.Worked? && r.some ==> claims == old(claims) + 1 && OneMore(old(Counters()), Counters())
      ensures r.Worked? && r.some ==> !last.Idle? && EndsIn(last.hold, script.run, last)
      ensures r.Worked? && r.some && Inv(old(db.Sys())) ==>
                Counted(db.Sys().db, last, old(Counters()).(claims := old(claims) + 1), Counters())
      ensures r.Worked? && !r.some ==> Counters() == old(Counters()) && ReapBy(config.retry, script.reap.reading) in events
      ensures r.Raised? ==> Tally(Counters()) == Tally(old(Counters()))
      ensures r.Worked? ==> reapedAt == if Due(old(reapedAt), script.now) then Some(script.sweep.now) else old(reapedAt)
    {
      ghost var from := With(db.Crowd(), config.id, View());
      assert Follows(db.Crowd(), config.id, View(), from, []);
      hide Follows, HappensAll, Inv, Counted, EndsIn, FleetFencing.Orphans;
      r, phase, last := Raised, Idle, Idle;
      var swept, stopped;
      swept, stopped, events := SweepOrphans(db, script, from, []);
      if swept {
        var answer;
        answer, events := FindJob(db, script, from, events);
        if answer.Some? {
          if answer.value.hold.None? {
            r := Worked(false);
          } else {
            var done;
            done, phase, last, events := Carry(db, answer.value.hold.value, script, from, events);
            if done { r := Worked(true); }
          }
        }
      }
      trace := FollowedIsRun(db.Crowd(), config.id, In(phase), from, events);
    }

    /** run, for as many steps as its stop allows: it returns how many results are this worker's. */
    method Work(db: Database, scripts: seq<Script>)
      returns (done: bool, count: int, ghost phase: Phase, ghost events: seq<Event>)
      requires config.id !in db.others
      modifies db, db.store, this
      ensures Follows(db.Crowd(), config.id, In(phase), With(old(db.Crowd()), config.id, old(View())), events)
      ensures done ==> phase == Idle && count == published
      ensures PoolOk(With(old(db.Crowd()), config.id, old(View()))) ==>
                && PoolOk(With(db.Crowd(), config.id, In(phase)))
                && (done ==> count == |Own(db.Sys().db, config.id)|)
    {
      ghost var from := With(db.Crowd(), config.id, View());
      done, count, phase, events := false, published, Idle, [];
      for i := 0 to |scripts|
        invariant config.id !in db.others && Follows(db.Crowd(), config.id, View(), from, events) && phase == Idle
      {
        ghost var crowd, w := db.Crowd(), View();
        var r;
        ghost var last, more, trace;
        r, phase, last, more, trace := Step(db, scripts[i]);
        Onward(crowd, db.Crowd(), config.id, w, In(phase), from, events, more);
        events := events + more;
        if r.Raised? {
          if PoolOk(from) { StaysInOrder(db.Crowd(), config.id, In(phase), from, events); }
          return;
        }
      }
      done, count := true, published;
      if PoolOk(from) { StaysInOrder(db.Crowd(), config.id, View(), from, events); }
    }
  }

  /** The phases in which a job can leave its worker's hands, by what its run came to. */
  predicate EndsIn(hold: Hold, run: Execution, last: Phase) {
    || last == Working(hold) || last == Cancelling(hold)
    || (run.Ends? && match run.result
          case Failure(error) => last == Releasing(hold, error)
          case Done(outcome, body) => last == Publishing(hold, outcome, body) || last == Asking(hold))
  }

  /** A job's worker after a claim, or no worker of any. */
  function Found(answer: Option<Answer>): Phase
    requires answer.Some? ==> answer.value.Held?
  {
    if answer.Some? && answer.value.hold.Some? then Starting(answer.value.hold.value) else Idle
  }

  lemma RunFinishes(crowd: Pool, id: string, w: WorkerState, result: RunResult, from: Pool, events: seq<Event>)
    requires Follows(crowd, id, w, from, events)
    ensures Follows(crowd, id, Ran(w, result), from, events + [Finish(id, result)])
  {
    var p := With(crowd, id, w);
    assert [Finish(id, result)][1..] == [];
    assert HappensAll(p, [Finish(id, result)]) == Happens(p, Finish(id, result));
    assert crowd.workers[id := w][id := Ran(w, result)] == crowd.workers[id := Ran(w, result)];
    Onward(crowd, crowd, id, w, Ran(w, result), from, events, [Finish(id, result)]);
  }

  lemma FollowedIsRun(crowd: Pool, id: string, w: WorkerState, from: Pool, events: seq<Event>) returns (trace: seq<Step>)
    requires Follows(crowd, id, w, from, events)
    ensures crowd.sys == Run(from.sys, trace)
  {
    trace := PoolIsRun(from, events);
  }

  /** Wherever a pool in order has come to, it is in order, and an idle worker's published counter is the number of its
      results. */
  lemma StaysInOrder(crowd: Pool, id: string, w: WorkerState, from: Pool, events: seq<Event>)
    requires PoolOk(from) && Follows(crowd, id, w, from, events)
    ensures PoolOk(With(crowd, id, w))
    ensures w.phase.Idle? ==> w.counts.published == |Own(crowd.sys.db, id)|
  {
    PoolKeeps(from, events);
    assert WorkerOk(crowd.sys, id, With(crowd, id, w).workers[id]);
  }

  /** The kind of answer each phase's call gets. */
  predicate Fits(phase: Phase, a: Answer) {
    match phase
    case Idle => a.Held?
    case Starting(_) => a.Yes?
    case Working(_) => a.Beaten?
    case Cancelling(_) => a.Yes?
    case Publishing(_, _, _) => a.Yes?
    case Asking(_) => a.State?
    case Releasing(_, _) => a.State?
  }
}
