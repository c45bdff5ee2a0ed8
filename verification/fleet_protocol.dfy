/** Every interleaving of submitters, workers, cancellers and reapers over the store.
    A run is any sequence of steps. A step whose guard fails changes nothing, so crashes, pauses,
    sessions killed before they commit and calls made in a foolish order are all runs too; a call
    repeated after a lost answer is the same step again. */
module FleetProtocol {
  import opened Wrappers
  import opened FleetRows
  import opened FleetTransactions

  /** What a worker knows of a claim it made: which attempt it holds, and since when. */
  datatype Hold = Hold(worker: string, key: Key, since: Time)

  /** The tables, the latest commit's clock reading, and every claim ever made. */
  datatype System = System(db: DB, clock: Time, granted: set<Hold>)

  /** One committed store call: "at" is its clock reading, and "commit" the time at which it takes effect. */
  datatype Step =
    | Tick(at: Time)
    | Look(job: int, at: Time)
    | ReadLive(at: Time)
    | Submit(request: Request, key: Option<string>, at: Time, commit: Time)
    | Claim(worker: string, lease: nat, locked: set<int>, at: Time, commit: Time)
    | Start(hold: Hold, at: Time, commit: Time)
    | Heartbeat(hold: Hold, lease: nat, at: Time, commit: Time)
    | Cancel(job: int, at: Time, commit: Time)
    | FinishCancel(hold: Hold, at: Time, commit: Time)
    | Publish(hold: Hold, outcome: Outcome, body: Body, at: Time, commit: Time)
    | Release(hold: Hold, error: string, retry: RetryPolicy, at: Time, commit: Time)
    | Reap(retry: RetryPolicy, locked: set<int>, at: Time, commit: Time)

  /** When a step takes effect. */
  function CommitOf(step: Step): Time { if step.Tick? || step.Look? || step.ReadLive? then step.at else step.commit }

  /** A call about an attempt somebody holds. */
  predicate OfHolder(step: Step) {
    step.Start? || step.Heartbeat? || step.FinishCancel? || step.Publish? || step.Release?
  }

  /** Commits follow one another and a call may have read the clock at any time before its own; a worker only
      makes calls about attempts it claimed, after it claimed them, under its own id. */
  predicate Enabled(s: System, step: Step) {
    && s.clock <= CommitOf(step)
    && step.at <= CommitOf(step)
    && (OfHolder(step) ==> step.hold in s.granted && step.hold.since <= step.at)
  }

  /** The tables after an enabled step. */
  function DbAfter(db: DB, step: Step): DB {
    match step
    case Tick(_) => db
    case Look(_, _) => db
    case ReadLive(_) => db
    case Submit(request, key, at, _) => SubmitTx(db, request, key, at).0
    case Claim(worker, lease, locked, at, _) => ClaimTx(db, worker, lease, locked, at).0
    case Start(hold, at, _) => StartTx(db, hold.key, at).0
    case Heartbeat(hold, lease, at, _) => HeartbeatTx(db, hold.key, lease, at).0
    case Cancel(job, at, _) => CancelTx(db, job, at).0
    case FinishCancel(hold, at, _) => FinishCancelledTx(db, hold.key, at).0
    case Publish(hold, outcome, body, at, _) => PublishTx(db, hold.key, hold.worker, outcome, body, at).0
    case Release(hold, error, retry, at, _) => ReleaseTx(db, hold.key, error, retry, at).0
    case Reap(retry, locked, at, _) => ReapTx(db, retry, locked, at).0
  }

  /** What a call tells its caller, when the answer arrives. */
  datatype Answer =
    | Nothing
    | Batch(sub: Submission)
    | Held(hold: Option<Hold>)
    | Yes(ok: bool)
    | Beaten(beat: Option<Beat>)
    | State(state: Option<JobState>)
    | Alive(keys: set<Key>)
    | Ended(jobs: seq<int>)

  function AnswerTo(db: DB, step: Step): Answer {
    match step
    case Tick(_) => Nothing
    case Look(job, _) => State(if job in db.jobs then Some(db.jobs[job].state) else None)
    case ReadLive(at) => Alive(LiveAttempts(db, at))
    case Submit(request, key, at, _) => Batch(SubmitTx(db, request, key, at).1)
    case Claim(worker, lease, locked, at, _) =>
      var got := ClaimTx(db, worker, lease, locked, at).1;
      Held(if got.None? then None else Some(Hold(worker, got.value, at)))
    case Start(hold, at, _) => Yes(StartTx(db, hold.key, at).1)
    case Heartbeat(hold, lease, at, _) => Beaten(HeartbeatTx(db, hold.key, lease, at).1)
    case Cancel(job, at, _) => State(CancelTx(db, job, at).1)
    case FinishCancel(hold, at, _) => Yes(FinishCancelledTx(db, hold.key, at).1)
    case Publish(hold, outcome, body, at, _) => Yes(PublishTx(db, hold.key, hold.worker, outcome, body, at).1)
    case Release(hold, error, retry, at, _) => State(ReleaseTx(db, hold.key, error, retry, at).1)
    case Reap(retry, locked, at, _) => Ended(ReapTx(db, retry, locked, at).1)
  }

  function GrantedAfter(s: System, step: Step): set<Hold> {
    if !step.Claim? then s.granted
    else
      var got := AnswerTo(s.db, step).hold;
      if got.None? then s.granted else s.granted + {got.value}
  }

  function Apply(s: System, step: Step): System {
    if !Enabled(s, step) then s
    else System(DbAfter(s.db, step), CommitOf(step), GrantedAfter(s, step))
  }

  function Run(s: System, steps: seq<Step>): System
    decreases |steps|
  {
    if steps == [] then s else Run(Apply(s, steps[0]), steps[1..])
  }

  /** An empty store, at any clock reading. */
  function Initial(clock: Time): System { System(EMPTY, clock, {}) }

  // ---- what every reachable state keeps ----

  predicate AttemptOk(a: AttemptRow, clock: Time) {
    && a.claimedAt <= a.lease && a.claimedAt <= clock
    && (a.endedAt.Some? <==> a.endedBy.Some?)
    && (a.endedAt.Some? ==>
          && a.claimedAt <= a.endedAt.value <= clock
          && (a.endedBy.value.ByLeaseExpiry? <==> a.lease <= a.endedAt.value))
  }

  predicate RetryEnded(a: AttemptRow) { a.endedBy.Some? && Retryable(a.endedBy.value) }

  /** How the last attempt's record agrees with its job's row. */
  predicate LastOk(r: JobRow, a: AttemptRow) {
    && (Leased(r.state) ==> a.endedBy.None? && r.lease == Some(a.lease))
    && (r.state.Queued? || r.state.DeadLettered? ==> RetryEnded(a))
    && (r.state.Queued? ==> a.endedAt.Some? && a.endedAt.value <= r.availableAt)
    && (HasResult(r.state) ==> a.endedBy == Some(ByPublish))
    && (r.state.Cancelled? ==> RetryEnded(a) || a.endedBy == Some(ByCancel))
  }

  predicate RowOk(r: JobRow) {
    && 0 <= r.attempt <= r.maxAttempts && 1 <= r.maxAttempts
    && (Leased(r.state) <==> r.lease.Some?)
    && (HasResult(r.state) <==> r.resultId.Some?)
    && (r.state.Queued? ==> Retries(r))
    && (r.state.Cancelled? ==> r.cancelAt.Some?)
    && (HasResult(r.state) || r.state.DeadLettered? ==> r.cancelAt.None?)
    && (r.state.DeadLettered? ==> r.attempt == r.maxAttempts)
    && (r.attempt == 0 ==> r.state.Queued? || r.state.Cancelled?)
  }

  predicate ResultOk(db: DB, r: JobRow, j: int) {
    r.resultId.Some? ==>
      && r.resultId.value in db.results
      && var e := db.results[r.resultId.value];
      && e.job == j && e.attempt == r.attempt && e.outcome == r.state
      && (Key(j, r.attempt) in db.attempts ==>
            var a := db.attempts[Key(j, r.attempt)];
            e.worker == a.worker && a.endedAt == Some(e.publishedAt))
  }

  ghost predicate LogOk(db: DB, j: int, n: int, clock: Time) {
    && (forall a :: Key(j, a) in db.attempts <==> 1 <= a <= n)
    && (forall a :: Key(j, a) in db.attempts ==> AttemptOk(db.attempts[Key(j, a)], clock))
    && (forall a :: Key(j, a) in db.attempts && a < n ==> RetryEnded(db.attempts[Key(j, a)]))
    && (forall a, b :: Key(j, a) in db.attempts && Key(j, b) in db.attempts && a < b ==>
                         Before(db.attempts[Key(j, a)], db.attempts[Key(j, b)]))
  }

  /** One attempt ended before the other was claimed. */
  predicate Before(a: AttemptRow, b: AttemptRow) { a.endedAt.Some? && a.endedAt.value <= b.claimedAt }

  ghost predicate JobOk(db: DB, clock: Time, j: int)
    requires j in db.jobs
  {
    var r := db.jobs[j];
    && RowOk(r)
    && LogOk(db, j, r.attempt, clock)
    && (r.attempt >= 1 ==> LastOk(r, db.attempts[Key(j, r.attempt)]))
    && ResultOk(db, r, j)
  }

  ghost predicate IdsOk(db: DB) {
    && (forall j :: j in db.jobs ==> j < db.nextJob && db.jobs[j].batch in db.batches)
    && (forall k :: k in db.attempts ==> k.job in db.jobs)
    && (forall n :: n in db.results ==>
                      n < db.nextResult && db.results[n].job in db.jobs && db.jobs[db.results[n].job].resultId == Some(n))
    && (forall b :: b in db.batches ==> b < db.nextBatch)
    && (forall b, c :: b in db.batches && c in db.batches && SameKey(db.batches[b], db.batches[c]) ==> b == c)
    && (forall i, j :: i in db.jobs && j in db.jobs && SamePlace(db.jobs[i], db.jobs[j]) ==> i == j)
  }

  predicate SameKey(a: BatchRow, b: BatchRow) { a.key.Some? && a.key == b.key }

  predicate SamePlace(a: JobRow, b: JobRow) { a.batch == b.batch && a.position == b.position }

  ghost predicate GrantsOk(s: System) {
    forall h :: h in s.granted ==>
                  && h.key in s.db.attempts
                  && s.db.attempts[h.key].worker == h.worker && s.db.attempts[h.key].claimedAt <= h.since
  }

  ghost predicate Inv(s: System) {
    && (forall j :: j in s.db.jobs ==> JobOk(s.db, s.clock, j))
    && IdsOk(s.db)
    && GrantsOk(s)
  }

  ghost predicate ResultsGrow(db: DB, db': DB) {
    forall n :: n in db.results ==> n in db'.results && db'.results[n] == db.results[n]
  }

  // ---- how the state moves ----

  predicate JobEvolves(r: JobRow, r': JobRow) {
    && r'.batch == r.batch && r'.position == r.position && r'.what == r.what && r'.policy == r.policy
    && r'.maxAttempts == r.maxAttempts && r.attempt <= r'.attempt
    && (Final(r.state) ==> r' == r)
    && (r.cancelAt.Some? ==> r'.cancelAt == r.cancelAt)
  }

  predicate AttemptEvolves(a: AttemptRow, a': AttemptRow) {
    a'.worker == a.worker && a'.claimedAt == a.claimedAt && (a.endedBy.Some? ==> a' == a)
  }

  /** How any later state relates to an earlier one. Nothing recorded is lost or rewritten: final
      jobs, ended attempts, results and batches are frozen, and cancels stay requested. */
  ghost predicate Evolves(s: System, s': System) {
    && s.clock <= s'.clock && s.granted <= s'.granted
    && (forall j :: j in s.db.jobs ==> j in s'.db.jobs && JobEvolves(s.db.jobs[j], s'.db.jobs[j]))
    && (forall j :: j in s'.db.jobs && j !in s.db.jobs ==> s'.db.jobs[j].batch >= s.db.nextBatch)
    && (forall k :: k in s.db.attempts ==>
                      k in s'.db.attempts && AttemptEvolves(s.db.attempts[k], s'.db.attempts[k]))
    && ResultsGrow(s.db, s'.db)
    && (forall b :: b in s.db.batches ==> b in s'.db.batches && s'.db.batches[b] == s.db.batches[b])
    && s.db.nextBatch <= s'.db.nextBatch
  }
}
