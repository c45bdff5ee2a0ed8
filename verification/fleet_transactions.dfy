/** What each store call does to the tables in its one transaction (fleet/store.py).
    Each call is a function of the tables it finds, its arguments, the rows SKIP LOCKED passed over
    and its clock reading. FleetStore has the same calls as methods that update the tables in place. */
module FleetTransactions {
  import opened Wrappers
  import opened FleetRows

  function Pow2(n: nat): (p: nat)
    ensures p >= 1
  {
    if n == 0 then 1 else 2 * Pow2(n - 1)
  }

  function Min(a: int, b: int): int { if a <= b then a else b }

  /** least(backoff * power(2, attempt - 1), cap) */
  function Backoff(retry: RetryPolicy, attempt: int): nat
  {
    if attempt < 1 then Min(retry.backoff, retry.cap) else Min(retry.backoff * Pow2(attempt - 1), retry.cap)
  }

  predicate Retries(r: JobRow) { r.cancelAt.None? && r.attempt < r.maxAttempts }

  /** The row of a job whose attempt ends without a result. */
  function EndedJob(r: JobRow, error: string, retry: RetryPolicy, at: Time): JobRow
  {
    if Retries(r) then
      r.(state := Queued, availableAt := at + Backoff(retry, r.attempt), worker := None,
      claimedAt := None, startedAt := None, finishedAt := None, lease := None, lastError := Some(error))
    else
      r.(state := if r.cancelAt.Some? then Cancelled else DeadLettered, finishedAt := Some(at),
      lease := None, lastError := Some(error))
  }

  function EndedAttempt(a: AttemptRow, how: Ending, error: Option<string>, at: Time): AttemptRow {
    a.(endedAt := Some(at), endedBy := Some(how), error := if error.Some? then error else a.error)
  }

  /** The shared statement _end_attempts, on the chosen jobs. */
  function EndAttempts(db: DB, chosen: set<int>, how: Ending, error: string, retry: RetryPolicy, at: Time): DB
    requires chosen <= db.jobs.Keys
  {
    db.(jobs := map j | j in db.jobs :: if j in chosen then EndedJob(db.jobs[j], error, retry, at) else db.jobs[j],
    attempts := map k | k in db.attempts ::
      if k.job in chosen && db.jobs[k.job].attempt == k.attempt
      then EndedAttempt(db.attempts[k], how, Some(error), at) else db.attempts[k])
  }

  /** The jobs whose attempts the statement ended: those with a row in the log. */
  function Moved(db: DB, chosen: set<int>): set<int>
    requires chosen <= db.jobs.Keys
  {
    set j | j in chosen && Key(j, db.jobs[j].attempt) in db.attempts
  }

  datatype Submission =
    | Submitted(batch: int, jobs: seq<int>, created: bool)
    | Conflict
    | Refused

  function JobsOf(db: DB, batch: int): set<int> {
    set j | j in db.jobs && db.jobs[j].batch == batch
  }

  /** "order by position" over the given jobs. */
  function ByPosition(jobs: map<int, JobRow>, ids: set<int>): (order: seq<int>)
    requires ids <= jobs.Keys
  {
    if ids == {} then []
    else
      var positions := set j | j in ids :: jobs[j].position as int;
      assert positions != {} by {
        var j := MemberOf(ids);
        assert jobs[j].position as int in positions;
      }
      var first := Least(positions).value;
      var firsts := set j | j in ids && jobs[j].position == first;
      assert firsts != {} by { var j :| j in ids && jobs[j].position as int == first; assert j in firsts; }
      var id := Least(firsts).value;
      [id] + ByPosition(jobs, ids - {id})
  }

  /** The row of a batch's job, when the batch's ids start at first. */
  function NewRow(batch: int, first: int, id: int, request: Request, at: Time): JobRow
    requires first <= id < first + |request.jobs|
  {
    var position := id - first;
    JobRow(batch, position, request.jobs[position], request.policy, Queued, 0, request.maxAttempts,
           None, None, None, at, None, None, None, None, None)
  }

  function WithKey(db: DB, key: Option<string>): set<int> {
    set b | b in db.batches && key.Some? && db.batches[b].key == key
  }

  /** The rows of a fresh batch. */
  function NewRows(db: DB, request: Request, at: Time): map<int, JobRow> {
    map j | db.nextJob <= j < db.nextJob + |request.jobs| :: NewRow(db.nextBatch, db.nextJob, j, request, at)
  }

  function SubmitTx(db: DB, request: Request, key: Option<string>, at: Time): (DB, Submission)
  {
    if request.jobs == [] || request.maxAttempts < 1 then (db, Refused)
    else
      var existing := Least(WithKey(db, key));
      if existing.Some? then
        var b := existing.value;
        if db.batches[b].request != request then (db, Conflict)
        else (db, Submitted(b, ByPosition(db.jobs, JobsOf(db, b)), false))
      else
        var b, n := db.nextBatch, |request.jobs|;
        (db.(batches := db.batches[b := BatchRow(key, request)], jobs := db.jobs + NewRows(db, request, at),
         nextBatch := b + 1, nextJob := db.nextJob + n),
         Submitted(b, seq(n, i requires 0 <= i < n => db.nextJob + i), true))
  }

  /** The queued jobs a claim may take: available, and not locked by another claimer. */
  function Claimable(db: DB, locked: set<int>, at: Time): set<int> {
    set j | j in db.jobs && j !in locked && db.jobs[j].state.Queued? && db.jobs[j].availableAt <= at
  }

  function ClaimTx(db: DB, worker: string, lease: nat, locked: set<int>, at: Time): (r: (DB, Option<Key>))
  {
    var found := Least(Claimable(db, locked, at));
    if found.None? then (db, None)
    else
      var j := found.value;
      var r := db.jobs[j];
      var k := Key(j, r.attempt + 1);
      (db.(jobs := db.jobs[j := r.(state := Claimed, attempt := r.attempt + 1, worker := Some(worker),
      claimedAt := Some(at), startedAt := None, lease := Some(at + lease))],
      attempts := db.attempts[k := AttemptRow(worker, at, at + lease, None, None, None)]),
      Some(k))
  }

  predicate IsRunning(db: DB, k: Key, at: Time) {
    Live(db, k, at) && db.jobs[k.job].state.Running? && db.jobs[k.job].cancelAt.None?
  }

  function StartTx(db: DB, k: Key, at: Time): (DB, bool)
  {
    if Live(db, k, at) && db.jobs[k.job].state.Claimed? && db.jobs[k.job].cancelAt.None? then
      (db.(jobs := db.jobs[k.job := db.jobs[k.job].(state := Running, startedAt := Some(at))]), true)
    else (db, IsRunning(db, k, at))
  }

  datatype Beat = Beat(lease: Time, cancelRequested: bool)

  function HeartbeatTx(db: DB, k: Key, lease: nat, at: Time): (DB, Option<Beat>)
  {
    if !Live(db, k, at) then (db, None)
    else
      var r := db.jobs[k.job];
      var jobs := db.jobs[k.job := r.(lease := Some(at + lease))];
      if k !in db.attempts then (db.(jobs := jobs), None)
      else
        (db.(jobs := jobs, attempts := db.attempts[k := db.attempts[k].(lease := at + lease)]),
         Some(Beat(at + lease, r.cancelAt.Some?)))
  }

  function CancelTx(db: DB, job: int, at: Time): (DB, Option<JobState>)
  {
    if job !in db.jobs then (db, None)
    else
      var r := db.jobs[job];
      if !r.state.Queued? && !Leased(r.state) then (db, Some(r.state))
      else
        var asked := r.(cancelAt := if r.cancelAt.None? then Some(at) else r.cancelAt);
        var after := if r.state.Queued? then asked.(state := Cancelled, finishedAt := Some(at)) else asked;
        (db.(jobs := db.jobs[job := after]), Some(after.state))
  }

  /** The shared statement _FINISH_CANCELLED, and whether it ended the attempt. */
  function FinishCancelled(db: DB, k: Key, at: Time): (DB, bool)
  {
    if !(Live(db, k, at) && db.jobs[k.job].cancelAt.Some?) then (db, false)
    else
      var jobs := db.jobs[k.job := db.jobs[k.job].(state := Cancelled, lease := None, finishedAt := Some(at))];
      if k !in db.attempts then (db.(jobs := jobs), false)
      else
        (db.(jobs := jobs,
         attempts := db.attempts[k := EndedAttempt(db.attempts[k], ByCancel, Some("cancelled"), at)]), true)
  }

  function FinishCancelledTx(db: DB, k: Key, at: Time): (DB, bool)
  {
    var (after, ended) := FinishCancelled(db, k, at);
    (after, ended || EndedBy(after, k, ByCancel))
  }

  /** This very result is already stored. */
  predicate Stored(db: DB, k: Key, worker: string, outcome: Outcome, body: Body) {
    exists n :: n in db.results && SameResult(db.results[n], k, worker, outcome, body)
  }

  predicate SameResult(r: ResultRow, k: Key, worker: string, outcome: Outcome, body: Body) {
    r.job == k.job && r.attempt == k.attempt && r.worker == worker && r.outcome == outcome && r.body == body
  }

  function PublishTx(db: DB, k: Key, worker: string, outcome: Outcome, body: Body, at: Time): (DB, bool)
  {
    if !(k.job in db.jobs && db.jobs[k.job].attempt == k.attempt && Leased(db.jobs[k.job].state)) then
      (db, Stored(db, k, worker, outcome, body))
    else if db.jobs[k.job].cancelAt.Some? then (FinishCancelled(db, k, at).0, false)
    else if !Live(db, k, at) then (db, false)
    else
      var n := db.nextResult;
      (db.(results := db.results[n := ResultRow(k.job, k.attempt, worker, at, outcome, body)], nextResult := n + 1,
       jobs := db.jobs[k.job := db.jobs[k.job].(state := outcome, resultId := Some(n), lease := None, finishedAt := Some(at))],
       attempts := if k in db.attempts
       then db.attempts[k := EndedAttempt(db.attempts[k], ByPublish, None, at)] else db.attempts),
       true)
  }

  /** The state of the job the statement moved; else, asked again, its state if the attempt was given back before. */
  function ReleaseTx(db: DB, k: Key, error: string, retry: RetryPolicy, at: Time): (DB, Option<JobState>)
  {
    var chosen := if Live(db, k, at) then {k.job} else {};
    var after := EndAttempts(db, chosen, ByRelease, error, retry, at);
    if k.job in Moved(db, chosen) then (after, Some(after.jobs[k.job].state))
    else if !EndedBy(after, k, ByRelease) then (after, None)
    else (after, if k.job in after.jobs then Some(after.jobs[k.job].state) else None)
  }

  /** The leased jobs whose lease ran out, less those another reaper holds. */
  function Lapsed(db: DB, locked: set<int>, at: Time): set<int> {
    set j | j in db.jobs && j !in locked && Leased(db.jobs[j].state) && db.jobs[j].lease.Some? && db.jobs[j].lease.value <= at
  }

  const LEASE_EXPIRED := "lease expired"

  function ReapTx(db: DB, retry: RetryPolicy, locked: set<int>, at: Time): (DB, seq<int>)
  {
    var chosen := Lapsed(db, locked, at);
    (EndAttempts(db, chosen, ByLeaseExpiry, LEASE_EXPIRED, retry, at), InOrder(Moved(db, chosen)))
  }

  function LiveAttempts(db: DB, at: Time): set<Key> {
    set j | j in db.jobs && LiveRow(db.jobs[j], at) :: Key(j, db.jobs[j].attempt)
  }
}
