/** Calls made at least once take effect exactly once.
    "Later" is any continuation: Run(s, steps) for every sequence of steps by anyone. */
module FleetEffects {
  import opened Wrappers
  import opened FleetRows
  import opened FleetTransactions
  import opened FleetProtocol
  import opened FleetSafety

  // ---- publish ----

  /** The state a call leaves behind, at its commit. */
  function After(s: System, db: DB, at: Time): System { System(db, at, s.granted) }

  /** The result is stored, and its job and its attempt end with it; nothing else changes. */
  ghost predicate PublishedAt(db: DB, db': DB, k: Key, worker: string, outcome: Outcome, body: Body, at: Time) {
    && k in db.attempts && k in db'.attempts && k.job in db.jobs && k.job in db'.jobs && db.nextResult !in db.results
    && db'.nextResult == db.nextResult + 1
    && db'.results == db.results[db.nextResult := ResultRow(k.job, k.attempt, worker, at, outcome, body)]
    && OnlyTouches(db.(results := db'.results, nextResult := db'.nextResult), db', k)
    && db'.jobs[k.job] == db.jobs[k.job].(state := outcome, resultId := Some(db.nextResult), lease := None, finishedAt := Some(at))
    && db'.attempts[k] == db.attempts[k].(endedAt := Some(at), endedBy := Some(ByPublish))
  }

  /** The job and its attempt end cancelled; nothing else changes. */
  ghost predicate CancelledAt(db: DB, db': DB, k: Key, at: Time) {
    && k in db.attempts && k in db'.attempts && k.job in db.jobs && k.job in db'.jobs && OnlyTouches(db, db', k)
    && db'.jobs[k.job] == db.jobs[k.job].(state := Cancelled, lease := None, finishedAt := Some(at))
    && db'.attempts[k] == db.attempts[k].(endedAt := Some(at), endedBy := Some(ByCancel), error := Some("cancelled"))
  }

  lemma HeldKey(s: System, hold: Hold)
    requires Inv(s) && hold in s.granted
    ensures hold.key in s.db.attempts && hold.key.job in s.db.jobs
  {
    hide JobOk;
  }

  lemma CancelWrites(db: DB, k: Key, at: Time)
    requires k in db.attempts && Live(db, k, at) && db.jobs[k.job].cancelAt.Some?
    ensures FinishCancelled(db, k, at).1 && CancelledAt(db, FinishCancelled(db, k, at).0, k, at)
  {}

  lemma PublishWrites(db: DB, k: Key, worker: string, outcome: Outcome, body: Body, at: Time)
    requires k in db.attempts && Live(db, k, at) && db.jobs[k.job].cancelAt.None? && db.nextResult !in db.results
    ensures var (db', ok) := PublishTx(db, k, worker, outcome, body, at); ok && PublishedAt(db, db', k, worker, outcome, body, at)
  {}

  /** publish answers True exactly when its own result is the job's one result afterwards. It writes only while the
      lease is live: the result, or the end of a job that was asked to stop. */
  lemma PublishEffect(s: System, hold: Hold, outcome: Outcome, body: Body, at: Time)
    requires Inv(s) && hold in s.granted
    ensures var (db', ok) := PublishTx(s.db, hold.key, hold.worker, outcome, body, at);
            && (ok <==> Stored(db', hold.key, hold.worker, outcome, body))
            && (ok ==> db'.jobs[hold.key.job].state == outcome && EndedBy(db', hold.key, ByPublish))
            && (!Live(s.db, hold.key, at) ==> db' == s.db)
            && (Live(s.db, hold.key, at) && s.db.jobs[hold.key.job].cancelAt.Some? ==> !ok && CancelledAt(s.db, db', hold.key, at))
            && (Live(s.db, hold.key, at) && s.db.jobs[hold.key.job].cancelAt.None? ==>
                  ok && PublishedAt(s.db, db', hold.key, hold.worker, outcome, body, at))
  {
    hide PublishedAt, CancelledAt, GrantsOk;
    var k := hold.key;
    var (db', ok) := PublishTx(s.db, k, hold.worker, outcome, body, at);
    assert k in s.db.attempts && k.job in s.db.jobs by { HeldKey(s, hold); }
    assert JobOk(s.db, s.clock, k.job) && Key(k.job, k.attempt) in s.db.attempts;
    if Live(s.db, k, at) {
      if s.db.jobs[k.job].cancelAt.Some? { CancelWrites(s.db, k, at); } else { PublishWrites(s.db, k, hold.worker, outcome, body, at); }
    }
    var r := s.db.jobs[k.job];
    if r.attempt == k.attempt && Leased(r.state) {
      assert !Stored(s.db, k, hold.worker, outcome, body);
      if ok {
        assert SameResult(db'.results[s.db.nextResult], k, hold.worker, outcome, body);
      }
    } else if ok {
      var n :| n in s.db.results && SameResult(s.db.results[n], k, hold.worker, outcome, body);
      assert r.resultId == Some(n);
    }
  }

  /** Two stored results are never for the same job. */
  lemma OneResultEach(s: System, m: int, n: int)
    requires Inv(s) && m in s.db.results && n in s.db.results && s.db.results[m].job == s.db.results[n].job
    ensures m == n
  {
    assert s.db.jobs[s.db.results[m].job].resultId == Some(m) && s.db.jobs[s.db.results[n].job].resultId == Some(n);
  }

  /** Once a job has a result, publish changes nothing and accepts only that result. */
  lemma PublishSettled(s: System, n: int, k: Key, worker: string, outcome: Outcome, body: Body, at: Time)
    requires Inv(s) && n in s.db.results && s.db.results[n].job == k.job
    ensures PublishTx(s.db, k, worker, outcome, body, at) ==
            (s.db, var e := s.db.results[n]; k.attempt == e.attempt && worker == e.worker && outcome == e.outcome && body == e.body)
  {
    assert JobOk(s.db, s.clock, k.job) && s.db.jobs[k.job].resultId == Some(n);
    if Stored(s.db, k, worker, outcome, body) {
      var m :| m in s.db.results && SameResult(s.db.results[m], k, worker, outcome, body);
      OneResultEach(s, m, n);
    }
  }

  lemma StoredForever(s: System, n: int, steps: seq<Step>)
    requires Inv(s) && n in s.db.results
    ensures Inv(Run(s, steps)) && n in Run(s, steps).db.results && Run(s, steps).db.results[n] == s.db.results[n]
  {
    hide Inv;
    RunKeeps(s, steps);
  }

  /** Once a result is stored, which is what an accepted publish means, the same publish made again at
      any later time is accepted again and changes nothing, and any other result for the job is refused
      and changes nothing. */
  lemma PublishOnce(s: System, n: int, steps: seq<Step>, k: Key, worker: string, outcome: Outcome, body: Body, at: Time)
    requires Inv(s) && n in s.db.results && s.db.results[n].job == k.job
    ensures PublishTx(Run(s, steps).db, k, worker, outcome, body, at) ==
            (Run(s, steps).db,
             var e := s.db.results[n]; k.attempt == e.attempt && worker == e.worker && outcome == e.outcome && body == e.body)
  {
    StoredForever(s, n, steps);
    PublishSettled(Run(s, steps), n, k, worker, outcome, body, at);
  }

  // ---- release and finish_cancelled ----

  lemma ReleaseWrites(db: DB, k: Key, error: string, retry: RetryPolicy, at: Time)
    requires k in db.attempts && Live(db, k, at)
    ensures var (db', state) := ReleaseTx(db, k, error, retry, at);
            && OnlyTouches(db, db', k) && k in db'.attempts && state == Some(db'.jobs[k.job].state)
            && db'.jobs[k.job] == EndedJob(db.jobs[k.job], error, retry, at)
            && LogEnded(db.attempts[k], db'.attempts[k], ByRelease, error, at)
  {
    hide EndedJob;
    assert k == Key(k.job, k.attempt);
    assert k.job in Moved(db, {k.job});
  }

  /** release answers a state exactly when its attempt ended released, and it is the job's state. While the lease is
      live its row and its attempt end with the error given, and otherwise nothing changes. */
  lemma ReleaseEffect(s: System, k: Key, error: string, retry: RetryPolicy, at: Time)
    requires Inv(s)
    ensures var (db', state) := ReleaseTx(s.db, k, error, retry, at);
            && (state.Some? <==> EndedBy(db', k, ByRelease))
            && (state.Some? ==> k.job in db'.jobs && state.value == db'.jobs[k.job].state)
            && (Live(s.db, k, at) ==>
                  && state.Some? && OnlyTouches(s.db, db', k) && k in s.db.attempts && k in db'.attempts
                  && RowEnded(s.db.jobs[k.job], db'.jobs[k.job], error, retry, at)
                  && LogEnded(s.db.attempts[k], db'.attempts[k], ByRelease, error, at))
            && (!Live(s.db, k, at) ==> db' == s.db)
  {
    if Live(s.db, k, at) {
      assert k in s.db.attempts by { HeldByJob(s, k, at); }
      ReleaseWrites(s.db, k, error, retry, at);
      EndedIsEnded(s.db.jobs[k.job], error, retry, at);
      hide Inv, EndedJob, RowEnded, ReleaseTx;
    } else {
      ReleasedNothing(s.db, error, retry, at);
    }
  }

  lemma HeldByJob(s: System, k: Key, at: Time)
    requires Inv(s) && Live(s.db, k, at)
    ensures k in s.db.attempts
  {
    hide IdsOk, GrantsOk, LastOk, ResultOk;
    assert JobOk(s.db, s.clock, k.job) && Key(k.job, k.attempt) in s.db.attempts;
  }

  /** What becomes of a job whose attempt ends without a result: it waits for its next one, or it is over. */
  predicate RowEnded(r: JobRow, r': JobRow, error: string, retry: RetryPolicy, at: Time) {
    && r'.lease.None? && r'.lastError == Some(error)
    && (r'.state.Queued? <==> r.cancelAt.None? && r.attempt < r.maxAttempts)
    && (r'.state.Cancelled? <==> r.cancelAt.Some?)
    && (r'.state.DeadLettered? <==> r.cancelAt.None? && r.attempt >= r.maxAttempts)
    && (r'.state.Queued? ==>
          && r'.availableAt == at + Backoff(retry, r.attempt)
          && r'.worker.None? && r'.claimedAt.None? && r'.startedAt.None? && r'.finishedAt.None?)
    && (!r'.state.Queued? ==>
          && r'.finishedAt == Some(at) && r'.availableAt == r.availableAt
          && r'.worker == r.worker && r'.claimedAt == r.claimedAt && r'.startedAt == r.startedAt)
    && r' == r.(state := r'.state, lease := r'.lease, lastError := r'.lastError, availableAt := r'.availableAt, worker := r'.worker,
       claimedAt := r'.claimedAt, startedAt := r'.startedAt, finishedAt := r'.finishedAt)
  }

  predicate LogEnded(a: AttemptRow, a': AttemptRow, how: Ending, error: string, at: Time) {
    a'.endedAt == Some(at) && a'.endedBy == Some(how) && a'.error == Some(error)
    && a' == a.(endedAt := a'.endedAt, endedBy := a'.endedBy, error := a'.error)
  }

  lemma EndedAgain(s: System, k: Key, error: string, retry: RetryPolicy, at: Time)
    requires Inv(s) && k in s.db.attempts && s.db.attempts[k].endedBy.Some?
    ensures ReleaseTx(s.db, k, error, retry, at).0 == s.db
    ensures ReleaseTx(s.db, k, error, retry, at).1.Some? <==> EndedBy(s.db, k, ByRelease)
    ensures FinishCancelledTx(s.db, k, at) == (s.db, EndedBy(s.db, k, ByCancel))
  {
    assert JobOk(s.db, s.clock, k.job) && Key(k.job, k.attempt) in s.db.attempts;
    assert !Live(s.db, k, at);
    ReleasedNothing(s.db, error, retry, at);
  }

  /** An ended attempt never ends again: release and finish_cancelled made again, at any later time,
      change nothing and answer by how it ended. */
  lemma EndedOnce(s: System, k: Key, steps: seq<Step>, error: string, retry: RetryPolicy, at: Time)
    requires Inv(s) && k in s.db.attempts && s.db.attempts[k].endedBy.Some?
    ensures var later := Run(s, steps).db;
            && k in later.attempts && later.attempts[k] == s.db.attempts[k]
            && ReleaseTx(later, k, error, retry, at).0 == later
            && (ReleaseTx(later, k, error, retry, at).1.Some? <==> EndedBy(s.db, k, ByRelease))
            && FinishCancelledTx(later, k, at) == (later, EndedBy(s.db, k, ByCancel))
  {
    RunKeeps(s, steps);
    var later := Run(s, steps);
    assert AttemptEvolves(s.db.attempts[k], later.db.attempts[k]);
    EndedAgain(later, k, error, retry, at);
  }

  lemma ReleasedNothing(db: DB, error: string, retry: RetryPolicy, at: Time)
    ensures EndAttempts(db, {}, ByRelease, error, retry, at) == db
  {
    var db' := EndAttempts(db, {}, ByRelease, error, retry, at);
    assert db'.jobs == db.jobs && db'.attempts == db.attempts;
  }

  /** finish_cancelled answers True exactly when its attempt ended cancelled, and then so did its job. */
  lemma FinishCancelledEffect(s: System, k: Key, at: Time)
    requires Inv(s) && k in s.db.attempts
    ensures var (db', ended) := FinishCancelledTx(s.db, k, at);
            && (ended <==> EndedBy(db', k, ByCancel))
            && (ended ==> k.job in db'.jobs && db'.jobs[k.job].state.Cancelled? && db'.jobs[k.job].attempt == k.attempt)
            && (if Live(s.db, k, at) && s.db.jobs[k.job].cancelAt.Some? then ended && CancelledAt(s.db, db', k, at) else db' == s.db)
  {
    hide GrantsOk, ResultOk, CancelledAt;
    assert k.job in s.db.jobs && JobOk(s.db, s.clock, k.job) && Key(k.job, k.attempt) in s.db.attempts;
    if Live(s.db, k, at) && s.db.jobs[k.job].cancelAt.Some? { CancelWrites(s.db, k, at); }
  }

  // ---- start ----

  /** start answers True exactly when the attempt is then running, its lease live and no cancel asked;
      made again while that is still so it answers True again and changes nothing. */
  lemma StartEffect(s: System, k: Key, at: Time, next: Time)
    requires at <= next
    ensures var (db', started) := StartTx(s.db, k, at);
            && (started <==> Live(s.db, k, at) && s.db.jobs[k.job].cancelAt.None?)
            && (started <==> IsRunning(db', k, at))
            && (started && s.db.jobs[k.job].state.Claimed? ==>
                  db' == s.db.(jobs := s.db.jobs[k.job := s.db.jobs[k.job].(state := Running, startedAt := Some(at))]))
            && (started && s.db.jobs[k.job].state.Running? ==> db' == s.db) && (!started ==> db' == s.db)
            && StartTx(db', k, next).1 == (started && IsRunning(db', k, next))
            && (started ==> StartTx(db', k, next).0 == db')
  {}

  // ---- claim, heartbeat and reap ----

  /** Nobody else's rows: every other job and attempt stays as it is, and so do the other tables. */
  ghost predicate OnlyTouches(db: DB, db': DB, k: Key) {
    && db' == db.(jobs := db'.jobs, attempts := db'.attempts)
    && (forall j :: j in db.jobs ==> j in db'.jobs && (j != k.job ==> db'.jobs[j] == db.jobs[j]))
    && (forall j :: j in db'.jobs ==> j in db.jobs)
    && (forall l :: l in db.attempts && l != k ==> l in db'.attempts && db'.attempts[l] == db.attempts[l])
    && (forall l :: l in db'.attempts && l != k ==> l in db.attempts)
  }

  /** claim takes the oldest job it may take, and only when there is none answers None: the job's next attempt,
      never logged before, holds its lease from then on, and nothing else changes. */
  lemma ClaimEffect(s: System, worker: string, lease: nat, locked: set<int>, at: Time)
    requires Inv(s)
    ensures var (db', got) := ClaimTx(s.db, worker, lease, locked, at);
            && (got.None? <==> forall j :: j in s.db.jobs && j !in locked && s.db.jobs[j].state.Queued? ==> s.db.jobs[j].availableAt > at)
            && (got.None? ==> db' == s.db)
            && (got.Some? ==>
                  var k := got.value;
                  && k.job in s.db.jobs && k.job !in locked && s.db.jobs[k.job].state.Queued? && s.db.jobs[k.job].availableAt <= at
                  && (forall j :: j in s.db.jobs && j < k.job && j !in locked && s.db.jobs[j].state.Queued? ==> s.db.jobs[j].availableAt > at)
                  && k.attempt == s.db.jobs[k.job].attempt + 1 <= s.db.jobs[k.job].maxAttempts && k !in s.db.attempts
                  && k in db'.attempts && db'.attempts[k] == AttemptRow(worker, at, at + lease, None, None, None)
                  && db'.jobs[k.job] == s.db.jobs[k.job].(state := Claimed, attempt := k.attempt, worker := Some(worker),
                     claimedAt := Some(at), startedAt := None, lease := Some(at + lease))
                  && (forall now :: Live(db', k, now) <==> now < at + lease) && OnlyTouches(s.db, db', k))
  {
    var found := Least(Claimable(s.db, locked, at));
    if found.None? {
      forall j | j in s.db.jobs && j !in locked && s.db.jobs[j].state.Queued?
        ensures s.db.jobs[j].availableAt > at
      {
        assert j !in Claimable(s.db, locked, at);
      }
    } else {
      assert JobOk(s.db, s.clock, found.value);
      forall j | j in s.db.jobs && j < found.value && j !in locked && s.db.jobs[j].state.Queued?
        ensures s.db.jobs[j].availableAt > at
      {
        assert j !in Claimable(s.db, locked, at);
      }
    }
  }

  /** heartbeat answers exactly while the lease is live: the lease then runs from the reading on, in the row and
      in the log alike, the answer says whether a cancel was asked, and nothing else changes. */
  lemma HeartbeatEffect(s: System, k: Key, lease: nat, at: Time)
    requires Inv(s)
    ensures var (db', beat) := HeartbeatTx(s.db, k, lease, at);
            && (beat.Some? <==> Live(s.db, k, at))
            && (beat.None? ==> db' == s.db)
            && (beat.Some? ==>
                  && k in s.db.attempts && beat.value == Beat(at + lease, s.db.jobs[k.job].cancelAt.Some?) && OnlyTouches(s.db, db', k)
                  && db'.jobs[k.job] == s.db.jobs[k.job].(lease := Some(at + lease))
                  && db'.attempts[k] == s.db.attempts[k].(lease := at + lease))
  {
    if Live(s.db, k, at) { assert JobOk(s.db, s.clock, k.job) && Key(k.job, k.attempt) in s.db.attempts; }
  }

  lemma EndedIsEnded(r: JobRow, error: string, retry: RetryPolicy, at: Time)
    ensures RowEnded(r, EndedJob(r, error, retry, at), error, retry, at)
  {}

  lemma EndedAreLapsed(s: System, retry: RetryPolicy, locked: set<int>, at: Time)
    requires Inv(s)
    ensures var ended := ReapTx(s.db, retry, locked, at).1; Rising(ended) && forall j :: j in ended <==> j in Lapsed(s.db, locked, at)
    ensures forall j :: j in Lapsed(s.db, locked, at) ==> Key(j, s.db.jobs[j].attempt) in s.db.attempts
  {
    hide IdsOk, GrantsOk, ResultOk, LastOk, EndAttempts;
    forall j | j in Lapsed(s.db, locked, at)
      ensures Key(j, s.db.jobs[j].attempt) in s.db.attempts
    {
      assert JobOk(s.db, s.clock, j);
    }
    assert Moved(s.db, Lapsed(s.db, locked, at)) == Lapsed(s.db, locked, at);
  }

  /** reap leaves no lapsed lease but those another reaper holds, answers exactly the jobs it ended, each then
      waiting out its backoff, cancelled or dead-lettered, and touches no other job and no other attempt. */
  lemma ReapEffect(s: System, retry: RetryPolicy, locked: set<int>, at: Time)
    requires Inv(s)
    ensures var (db', ended) := ReapTx(s.db, retry, locked, at);
            && Rising(ended) && (forall j :: j in ended <==> j in Lapsed(s.db, locked, at)) && Lapsed(db', locked, at) == {}
            && (forall j :: j in s.db.jobs && j !in ended ==> j in db'.jobs && db'.jobs[j] == s.db.jobs[j])
            && (forall j :: j in ended ==> j in db'.jobs && RowEnded(s.db.jobs[j], db'.jobs[j], LEASE_EXPIRED, retry, at))
            && db' == s.db.(jobs := db'.jobs, attempts := db'.attempts)
            && db'.jobs.Keys == s.db.jobs.Keys && db'.attempts.Keys == s.db.attempts.Keys
            && (forall j :: j in ended ==> EndedBy(db', Key(j, s.db.jobs[j].attempt), ByLeaseExpiry))
            && (forall k :: k in s.db.attempts ==>
                  if k.job in ended && k.attempt == s.db.jobs[k.job].attempt
                  then LogEnded(s.db.attempts[k], db'.attempts[k], ByLeaseExpiry, LEASE_EXPIRED, at)
                  else db'.attempts[k] == s.db.attempts[k])
  {
    hide Inv, EndedJob, InOrder;
    EndedAreLapsed(s, retry, locked, at);
    forall j | j in Lapsed(s.db, locked, at)
      ensures RowEnded(s.db.jobs[j], EndedJob(s.db.jobs[j], LEASE_EXPIRED, retry, at), LEASE_EXPIRED, retry, at)
    {
      EndedIsEnded(s.db.jobs[j], LEASE_EXPIRED, retry, at);
    }
  }

  // ---- cancel ----

  /** A cancel asked for before a result wins for good: no later state has a result for the job, and if
      the job ever becomes final it is cancelled. */
  lemma CancelWins(s: System, job: int, steps: seq<Step>)
    requires Inv(s) && job in s.db.jobs && s.db.jobs[job].cancelAt.Some?
    ensures var later := Run(s, steps).db;
            && job in later.jobs && !HasResult(later.jobs[job].state)
            && (Final(later.jobs[job].state) ==> later.jobs[job].state.Cancelled?)
            && (forall n :: n in later.results ==> later.results[n].job != job)
  {
    RunKeeps(s, steps);
    var later := Run(s, steps);
    assert JobEvolves(s.db.jobs[job], later.db.jobs[job]);
    assert JobOk(later.db, later.clock, job);
  }

  /** cancel ends a queued job at once, only asks of a leased one, keeping the time it was first asked, and leaves a
      final one alone; it touches no attempt, no lease and no other job. */
  lemma CancelEffect(s: System, job: int, at: Time)
    requires Inv(s)
    ensures var (db', state) := CancelTx(s.db, job, at);
            && (state.Some? <==> job in s.db.jobs)
            && (state.Some? ==> job in db'.jobs && state.value == db'.jobs[job].state)
            && db' == s.db.(jobs := db'.jobs) && db'.jobs.Keys == s.db.jobs.Keys
            && (forall j :: j in s.db.jobs && (j != job || Final(s.db.jobs[j].state)) ==> db'.jobs[j] == s.db.jobs[j])
            && (job in s.db.jobs && s.db.jobs[job].state.Queued? ==>
                  db'.jobs[job] == s.db.jobs[job].(state := Cancelled, finishedAt := Some(at), cancelAt := Some(at)))
            && (job in s.db.jobs && Leased(s.db.jobs[job].state) ==>
                  db'.jobs[job] == s.db.jobs[job].(cancelAt := Asked(s.db.jobs[job], at)))
  {
    if job in s.db.jobs { assert JobOk(s.db, s.clock, job); }
  }

  /** When a job was first asked to stop. */
  function Asked(r: JobRow, at: Time): Option<Time> { if r.cancelAt.Some? then r.cancelAt else Some(at) }

  // ---- submit ----

  /** The ids from first on, in order. */
  function Ids(first: int, n: nat): (ids: seq<int>) { seq(n, i requires 0 <= i < n => first + i) }

  /** Jobs numbered in the order of their positions are listed in the order of their ids. */
  lemma {:induction false} PositionsInOrder(jobs: map<int, JobRow>, ids: set<int>, first: int, start: nat, n: nat)
    requires ids <= jobs.Keys
    requires forall j :: j in ids <==> first + start <= j < first + n
    requires forall j :: j in ids ==> jobs[j].position == j - first
    requires start <= n
    ensures ByPosition(jobs, ids) == Ids(first, n)[start..]
    decreases n - start
  {
    if start == n {
      assert ids == {} by { if ids != {} { var j := MemberOf(ids); assert false; } }
    } else {
      var id := first + start;
      assert id in ids;
      var positions := set j | j in ids :: jobs[j].position as int;
      assert jobs[id].position as int in positions;
      assert Least(positions) == Some(start as int);
      var firsts := set j | j in ids && jobs[j].position == start;
      assert id in firsts && forall j :: j in firsts ==> j == id;
      assert Least(firsts) == Some(id);
      PositionsInOrder(jobs, ids - {id}, first, start + 1, n);
      assert Ids(first, n)[start..] == [id] + Ids(first, n)[start + 1..];
    }
  }

  /** A submission with a key makes one batch, ever: made again at any later time, with the same content
      it answers the same batch and the same job ids and changes nothing; with other content it is a
      conflict and changes nothing. */
  lemma SubmitOnce(s: System, request: Request, key: string, at: Time, commit: Time, steps: seq<Step>, again: Request, next: Time)
    requires Inv(s) && s.clock <= commit && again.jobs != [] && again.maxAttempts >= 1
    requires var sub := SubmitTx(s.db, request, Some(key), at).1; sub.Submitted? && sub.created
    ensures var (db', sub) := SubmitTx(s.db, request, Some(key), at);
            var later := Run(After(s, db', commit), steps).db;
            SubmitTx(later, again, Some(key), next) ==
            (later, if again == request then Submitted(sub.batch, sub.jobs, false) else Conflict)
  {
    var (db', sub) := SubmitTx(s.db, request, Some(key), at);
    var first := After(s, db', commit);
    SubmitKeeps(s, request, Some(key), at, commit);
    RunKeeps(first, steps);
    var later := Run(first, steps);
    var b, low, n := sub.batch, s.db.nextJob, |request.jobs|;
    assert b in first.db.batches && b in later.db.batches;
    assert b in WithKey(later.db, Some(key));
    forall c | c in WithKey(later.db, Some(key))
      ensures c == b
    {
      assert SameKey(later.db.batches[b], later.db.batches[c]);
    }
    assert Least(WithKey(later.db, Some(key))) == Some(b);
    forall j
      ensures j in JobsOf(later.db, b) <==> low <= j < low + n
      ensures j in JobsOf(later.db, b) ==> later.db.jobs[j].position == j - low
    {
      if j in first.db.jobs { assert JobEvolves(first.db.jobs[j], later.db.jobs[j]); }
      if j in s.db.jobs { assert s.db.jobs[j].batch in s.db.batches; }
    }
    PositionsInOrder(later.db.jobs, JobsOf(later.db, b), low, 0, n);
    assert sub.jobs == Ids(low, n);
  }

  /** Without a key nothing ties two submissions together: each makes a batch of its own. */
  lemma SubmitWithoutKey(s: System, request: Request, at: Time)
    requires Inv(s) && request.jobs != [] && request.maxAttempts >= 1
    ensures var (db', sub) := SubmitTx(s.db, request, None, at);
            && sub == Submitted(s.db.nextBatch, Ids(s.db.nextJob, |request.jobs|), true)
            && sub.batch !in s.db.batches && forall i :: 0 <= i < |request.jobs| ==> sub.jobs[i] !in s.db.jobs
  {
    assert WithKey(s.db, None) == {};
    assert Least(WithKey(s.db, None)).None?;
  }

  /** Which row of the batch holds which of its jobs. */
  ghost predicate Carries(db: DB, batch: int, ids: seq<int>, request: Request) {
    && |ids| == |request.jobs|
    && forall i :: 0 <= i < |ids| ==>
                     && ids[i] in db.jobs && db.jobs[ids[i]].batch == batch && db.jobs[ids[i]].position == i
                     && db.jobs[ids[i]].what == request.jobs[i] && db.jobs[ids[i]].policy == request.policy
                     && db.jobs[ids[i]].maxAttempts == request.maxAttempts
  }

  /** A job nobody took up yet. */
  predicate Untouched(r: JobRow, at: Time) {
    && r.state.Queued? && r.attempt == 0 && r.availableAt == at
    && r.worker.None? && r.lease.None? && r.resultId.None? && r.claimedAt.None? && r.startedAt.None? && r.finishedAt.None?
    && r.lastError.None? && r.cancelAt.None?
  }

  /** The tables before and after a submission that is created. */
  ghost predicate CreatedAt(db: DB, db': DB, batch: int, ids: seq<int>, request: Request, key: Option<string>, at: Time) {
    && (forall b :: b in db.batches && key.Some? ==> db.batches[b].key != key)
    && batch !in db.batches && db'.batches == db.batches[batch := BatchRow(key, request)]
    && Carries(db', batch, ids, request)
    && (forall i :: 0 <= i < |ids| ==> ids[i] !in db.jobs && Untouched(db'.jobs[ids[i]], at))
    && (forall j :: j in db'.jobs <==> j in db.jobs || j in ids)
    && (forall j :: j in db.jobs ==> db'.jobs[j] == db.jobs[j])
    && db'.attempts == db.attempts && db'.results == db.results
  }

  lemma NoneHasKey(db: DB, key: Option<string>)
    requires WithKey(db, key) == {}
    ensures forall b :: b in db.batches && key.Some? ==> db.batches[b].key != key
  {
    forall b | b in db.batches && key.Some?
      ensures db.batches[b].key != key
    {
      assert b !in WithKey(db, key);
    }
  }

  lemma IdsAre(first: int, n: nat, ids: seq<int>)
    requires ids == Ids(first, n)
    ensures |ids| == n && (forall i :: 0 <= i < n ==> ids[i] == first + i) && forall j :: j in ids <==> first <= j < first + n
  {
    forall j
      ensures j in ids <==> first <= j < first + n
    {
      if first <= j < first + n { assert ids[j - first] == j; }
    }
  }

  lemma InsertedIsCreated(db: DB, db': DB, ids: seq<int>, request: Request, key: Option<string>, at: Time)
    requires IdsOk(db) && Inserts(db, db', request, key, at) && ids == Ids(db.nextJob, |request.jobs|)
    ensures CreatedAt(db, db', db.nextBatch, ids, request, key, at)
  {
    assert db.nextBatch !in db.batches && forall j :: j in db.jobs ==> j < db.nextJob;
    NoneHasKey(db, key);
    IdsAre(db.nextJob, |request.jobs|, ids);
    hide IdsOk, WithKey, Ids, Carries;
    InsertedCarries(db, db', ids, request, key, at);
  }

  lemma InsertedCarries(db: DB, db': DB, ids: seq<int>, request: Request, key: Option<string>, at: Time)
    requires Inserts(db, db', request, key, at) && ids == Ids(db.nextJob, |request.jobs|)
    ensures Carries(db', db.nextBatch, ids, request) && forall i :: 0 <= i < |ids| ==> Untouched(db'.jobs[ids[i]], at)
  {
    hide WithKey;
    forall i | 0 <= i < |ids|
      ensures ids[i] in db'.jobs && db'.jobs[ids[i]] == NewRow(db.nextBatch, db.nextJob, ids[i], request, at)
    {
      assert ids[i] == db.nextJob + i;
    }
  }

  /** A submission that is created gives every job it names a row of its own, queued and available at once, in a new
      batch; any other changes nothing, and is refused, a conflict or a repeat by what it holds. */
  lemma SubmitEffect(s: System, request: Request, key: Option<string>, at: Time)
    requires Inv(s)
    ensures var (db', sub) := SubmitTx(s.db, request, key, at);
            && (sub.Refused? <==> request.jobs == [] || request.maxAttempts < 1)
            && (sub.Conflict? ==> exists b :: b in s.db.batches && key.Some? && s.db.batches[b].key == key && s.db.batches[b].request != request)
            && (sub.Submitted? && !sub.created ==> sub.batch in s.db.batches && key.Some? && s.db.batches[sub.batch] == BatchRow(key, request))
            && (if sub.Submitted? && sub.created then CreatedAt(s.db, db', sub.batch, sub.jobs, request, key, at) else db' == s.db)
  {
    hide JobOk, GrantsOk, ByPosition, CreatedAt, NewRows;
    var (db', sub) := SubmitTx(s.db, request, key, at);
    SubmitInserts(s.db, request, key, at);
    if sub.Submitted? && sub.created {
      assert db'.nextBatch != s.db.nextBatch;
      InsertedIsCreated(s.db, db', sub.jobs, request, key, at);
    }
  }

  /** Whatever happens later, the i-th id that was answered is the i-th job's. */
  lemma SubmittedStays(s: System, request: Request, key: Option<string>, at: Time, commit: Time, steps: seq<Step>)
    requires Inv(s) && s.clock <= commit
    requires var sub := SubmitTx(s.db, request, key, at).1; sub.Submitted? && sub.created
    ensures var (db', sub) := SubmitTx(s.db, request, key, at);
            Carries(Run(After(s, db', commit), steps).db, sub.batch, sub.jobs, request)
  {
    hide Inv, SubmitTx;
    SubmitEffect(s, request, key, at);
    hide Carries;
    SubmitKeeps(s, request, key, at, commit);
    var (db', sub) := SubmitTx(s.db, request, key, at);
    RunKeeps(After(s, db', commit), steps);
    StillCarries(After(s, db', commit), Run(After(s, db', commit), steps), sub.batch, sub.jobs, request);
  }

  lemma StillCarries(s: System, s': System, batch: int, ids: seq<int>, request: Request)
    requires Evolves(s, s') && Carries(s.db, batch, ids, request)
    ensures Carries(s'.db, batch, ids, request)
  {
    forall i | 0 <= i < |ids|
      ensures ids[i] in s'.db.jobs && JobEvolves(s.db.jobs[ids[i]], s'.db.jobs[ids[i]])
    {
      var j := ids[i];
      assert j in s.db.jobs && j in s'.db.jobs;
      assert JobEvolves(s.db.jobs[j], s'.db.jobs[j]);
    }
  }
}
