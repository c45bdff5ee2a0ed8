/** No step breaks the protocol's invariant, and every step only moves the state forward. */
module FleetSafety {
  import opened Wrappers
  import opened FleetRows
  import opened FleetTransactions
  import opened FleetProtocol

  // ---- one job at a time ----

  ghost predicate SameLog(db: DB, db': DB, j: int) {
    && (forall a :: Key(j, a) in db.attempts <==> Key(j, a) in db'.attempts)
    && (forall a :: Key(j, a) in db.attempts ==> db.attempts[Key(j, a)] == db'.attempts[Key(j, a)])
  }

  /** A job a step does not touch stays as good as it was, while the clock moves on. */
  lemma JobOkFrame(db: DB, clock: Time, db': DB, clock': Time, j: int)
    requires j in db.jobs && JobOk(db, clock, j) && clock <= clock'
    requires j in db'.jobs && db'.jobs[j] == db.jobs[j] && SameLog(db, db', j) && ResultsGrow(db, db')
    ensures JobOk(db', clock', j)
  {
    var r := db.jobs[j];
    assert r.attempt >= 1 ==> Key(j, r.attempt) in db.attempts;
    if r.resultId.Some? {
      var n := r.resultId.value;
      assert n in db.results;
      assert n in db'.results;
    }
  }

  // ---- a step that touches one job ----

  /** Only this job's row and log changed. */
  ghost predicate OnlyJob(db: DB, db': DB, j: int) {
    && j in db.jobs && j in db'.jobs
    && (forall i :: i in db.jobs && i != j ==> i in db'.jobs && db'.jobs[i] == db.jobs[i])
    && (forall i :: i in db'.jobs && i != j ==> i in db.jobs)
    && (forall k :: k in db.attempts && k.job != j ==> k in db'.attempts && db'.attempts[k] == db.attempts[k])
    && (forall k :: k in db'.attempts && k.job != j ==> k in db.attempts)
    && db'.batches == db.batches && db'.nextBatch == db.nextBatch && db'.nextJob == db.nextJob
    && ResultsGrow(db, db')
  }

  /** What is left to show of the job a step touches: its row and log are still good, nothing in them
      was rewritten, and any new result is the one its row points at. */
  ghost predicate StepOnJob(s: System, s': System, j: int)
    requires j in s.db.jobs && j in s'.db.jobs
  {
    && s.clock <= s'.clock
    && JobOk(s'.db, s'.clock, j)
    && JobEvolves(s.db.jobs[j], s'.db.jobs[j])
    && (s.db.jobs[j].resultId.Some? ==> s'.db.jobs[j].resultId == s.db.jobs[j].resultId)
    && (forall a :: Key(j, a) in s.db.attempts ==>
                      Key(j, a) in s'.db.attempts && AttemptEvolves(s.db.attempts[Key(j, a)], s'.db.attempts[Key(j, a)]))
    && (forall n :: n in s'.db.results ==> n < s'.db.nextResult && (n in s.db.results ||
                                           (s'.db.results[n].job == j && s'.db.jobs[j].resultId == Some(n))))
  }

  lemma OtherJobsKeep(s: System, s': System, j: int)
    requires Inv(s) && OnlyJob(s.db, s'.db, j) && StepOnJob(s, s', j)
    ensures forall i :: i in s'.db.jobs ==> JobOk(s'.db, s'.clock, i)
  {
    forall i | i in s'.db.jobs && i != j
      ensures JobOk(s'.db, s'.clock, i)
    {
      JobOkFrame(s.db, s.clock, s'.db, s'.clock, i);
    }
  }

  lemma ResultsKeepTheirJobs(s: System, s': System, j: int)
    requires IdsOk(s.db) && OnlyJob(s.db, s'.db, j) && StepOnJob(s, s', j)
    ensures forall n :: n in s'.db.results ==>
              s'.db.results[n].job in s'.db.jobs && s'.db.jobs[s'.db.results[n].job].resultId == Some(n)
  {
    hide JobOk, JobEvolves;
    forall n | n in s'.db.results
      ensures s'.db.results[n].job in s'.db.jobs && s'.db.jobs[s'.db.results[n].job].resultId == Some(n)
    {
      if n in s.db.results {
        assert s'.db.results[n] == s.db.results[n];
      }
    }
  }

  lemma IdsKeep(s: System, s': System, j: int)
    requires IdsOk(s.db) && OnlyJob(s.db, s'.db, j) && StepOnJob(s, s', j)
    ensures IdsOk(s'.db)
  {
    hide JobOk;
    ResultsKeepTheirJobs(s, s', j);
    forall k | k in s'.db.attempts
      ensures k.job in s'.db.jobs
    {}
  }

  lemma JobEvolved(s: System, s': System, j: int)
    requires OnlyJob(s.db, s'.db, j) && StepOnJob(s, s', j) && s.granted <= s'.granted
    ensures Evolves(s, s')
  {
    forall k | k in s.db.attempts
      ensures k in s'.db.attempts && AttemptEvolves(s.db.attempts[k], s'.db.attempts[k])
    {
      assert k == Key(k.job, k.attempt);
      if k.job == j {
        assert Key(j, k.attempt) in s.db.attempts;
      }
    }
  }

  predicate GrantOk(db: DB, h: Hold) {
    h.key in db.attempts && db.attempts[h.key].worker == h.worker && db.attempts[h.key].claimedAt <= h.since
  }

  lemma OneJobKeeps(s: System, s': System, j: int)
    requires Inv(s) && OnlyJob(s.db, s'.db, j) && StepOnJob(s, s', j) && s.granted <= s'.granted
    requires forall h :: h in s'.granted && h !in s.granted ==> GrantOk(s'.db, h)
    ensures Inv(s') && Evolves(s, s')
  {
    OtherJobsKeep(s, s', j);
    IdsKeep(s, s', j);
    JobEvolved(s, s', j);
    forall h | h in s'.granted
      ensures GrantOk(s'.db, h)
    {
      if h in s.granted {
        assert AttemptEvolves(s.db.attempts[h.key], s'.db.attempts[h.key]);
      }
    }
  }

  lemma TimePasses(s: System, clock': Time)
    requires Inv(s) && s.clock <= clock'
    ensures Inv(s.(clock := clock')) && Evolves(s, s.(clock := clock'))
  {
    hide JobOk;
    forall j | j in s.db.jobs
      ensures JobOk(s.db, clock', j)
    {
      JobOkFrame(s.db, s.clock, s.db, clock', j);
    }
  }

  /** A new row, and a new record of its latest attempt, for a job that has no result. */
  function Replaced(db: DB, j: int, r: JobRow, a: AttemptRow): DB {
    db.(jobs := db.jobs[j := r], attempts := db.attempts[Key(j, r.attempt) := a])
  }

  predicate RowStep(r: JobRow, r': JobRow) {
    && RowOk(r') && JobEvolves(r, r') && r'.attempt == r.attempt
    && r.resultId.None? && r'.resultId.None?
  }

  lemma ReplacedJobOk(db: DB, clock: Time, j: int, r': JobRow, a': AttemptRow, commit: Time)
    requires j in db.jobs && JobOk(db, clock, j) && clock <= commit && db.jobs[j].attempt >= 1
    requires RowStep(db.jobs[j], r')
    requires LastOk(r', a') && AttemptOk(a', commit)
    requires AttemptEvolves(db.attempts[Key(j, r'.attempt)], a')
    ensures JobOk(Replaced(db, j, r', a'), commit, j)
  {}

  /** A row and a record replaced leave every other job alone. */
  lemma OnlyReplaced(db: DB, db': DB, j: int, r': JobRow, a': AttemptRow)
    requires j in db.jobs && db' == Replaced(db, j, r', a')
    ensures OnlyJob(db, db', j)
  {}

  lemma ReplacedAlone(s: System, j: int, r': JobRow, a': AttemptRow, s': System)
    requires Inv(s) && j in s.db.jobs && s.clock <= s'.clock && s.db.jobs[j].attempt >= 1
    requires RowStep(s.db.jobs[j], r')
    requires LastOk(r', a') && AttemptOk(a', s'.clock)
    requires Key(j, r'.attempt) in s.db.attempts && AttemptEvolves(s.db.attempts[Key(j, r'.attempt)], a')
    requires s'.db == Replaced(s.db, j, r', a')
    ensures OnlyJob(s.db, s'.db, j) && StepOnJob(s, s', j)
  {
    hide GrantsOk, LogOk, OnlyJob;
    assert JobOk(s.db, s.clock, j);
    ReplacedJobOk(s.db, s.clock, j, r', a', s'.clock);
    OnlyReplaced(s.db, s'.db, j, r', a');
  }

  lemma ReplacedKeeps(s: System, j: int, r': JobRow, a': AttemptRow, s': System)
    requires Inv(s) && j in s.db.jobs && s.clock <= s'.clock && s.db.jobs[j].attempt >= 1
    requires RowStep(s.db.jobs[j], r')
    requires LastOk(r', a') && AttemptOk(a', s'.clock)
    requires Key(j, r'.attempt) in s.db.attempts && AttemptEvolves(s.db.attempts[Key(j, r'.attempt)], a')
    requires s'.db == Replaced(s.db, j, r', a') && s'.granted == s.granted
    ensures Inv(s') && Evolves(s, s')
  {
    ReplacedAlone(s, j, r', a', s');
    OneJobKeeps(s, s', j);
  }

  lemma RowJobOk(db: DB, clock: Time, j: int, r': JobRow, db': DB, commit: Time)
    requires j in db.jobs && JobOk(db, clock, j) && clock <= commit
    requires RowStep(db.jobs[j], r') && (Key(j, r'.attempt) in db.attempts ==> LastOk(r', db.attempts[Key(j, r'.attempt)]))
    requires db' == db.(jobs := db.jobs[j := r'])
    ensures JobOk(db', commit, j)
  {
    assert LogOk(db', j, r'.attempt, commit);
  }

  lemma OnlyRow(db: DB, db': DB, j: int, r': JobRow)
    requires j in db.jobs && db' == db.(jobs := db.jobs[j := r'])
    ensures OnlyJob(db, db', j)
  {}

  lemma RowAlone(s: System, j: int, r': JobRow, s': System)
    requires Inv(s) && j in s.db.jobs && s.clock <= s'.clock
    requires RowStep(s.db.jobs[j], r')
    requires Key(j, r'.attempt) in s.db.attempts ==> LastOk(r', s.db.attempts[Key(j, r'.attempt)])
    requires s'.db == s.db.(jobs := s.db.jobs[j := r'])
    ensures OnlyJob(s.db, s'.db, j) && StepOnJob(s, s', j)
  {
    hide GrantsOk, LogOk, OnlyJob;
    RowJobOk(s.db, s.clock, j, r', s'.db, s'.clock);
    OnlyRow(s.db, s'.db, j, r');
  }

  /** The same, when the log stays as it is. */
  lemma RowKeeps(s: System, j: int, r': JobRow, s': System)
    requires Inv(s) && j in s.db.jobs && s.clock <= s'.clock
    requires RowStep(s.db.jobs[j], r')
    requires Key(j, r'.attempt) in s.db.attempts ==> LastOk(r', s.db.attempts[Key(j, r'.attempt)])
    requires s'.db == s.db.(jobs := s.db.jobs[j := r']) && s'.granted == s.granted
    ensures Inv(s') && Evolves(s, s')
  {
    RowAlone(s, j, r', s');
    OneJobKeeps(s, s', j);
  }

  // ---- the calls, one by one ----

  lemma StartKeeps(s: System, k: Key, at: Time, commit: Time)
    requires Inv(s) && s.clock <= commit
    ensures var s' := System(StartTx(s.db, k, at).0, commit, s.granted); Inv(s') && Evolves(s, s')
  {
    var db' := StartTx(s.db, k, at).0;
    if db' == s.db {
      TimePasses(s, commit);
    } else {
      assert JobOk(s.db, s.clock, k.job);
      RowKeeps(s, k.job, db'.jobs[k.job], System(db', commit, s.granted));
    }
  }

  lemma HeartbeatKeeps(s: System, k: Key, lease: nat, at: Time, commit: Time)
    requires Inv(s) && s.clock <= commit
    requires k in s.db.attempts ==> s.db.attempts[k].claimedAt <= at
    ensures var s' := System(HeartbeatTx(s.db, k, lease, at).0, commit, s.granted); Inv(s') && Evolves(s, s')
  {
    var db' := HeartbeatTx(s.db, k, lease, at).0;
    if !Live(s.db, k, at) {
      TimePasses(s, commit);
    } else {
      assert JobOk(s.db, s.clock, k.job);
      assert Key(k.job, k.attempt) in s.db.attempts;
      assert db' == Replaced(s.db, k.job, db'.jobs[k.job], db'.attempts[k]);
      ReplacedKeeps(s, k.job, db'.jobs[k.job], db'.attempts[k], System(db', commit, s.granted));
    }
  }

  lemma FinishCancelledKeeps(s: System, k: Key, at: Time, commit: Time)
    requires Inv(s) && s.clock <= commit && at <= commit
    requires k in s.db.attempts ==> s.db.attempts[k].claimedAt <= at
    ensures var s' := System(FinishCancelled(s.db, k, at).0, commit, s.granted); Inv(s') && Evolves(s, s')
  {
    var db' := FinishCancelled(s.db, k, at).0;
    if db' == s.db {
      TimePasses(s, commit);
    } else {
      assert JobOk(s.db, s.clock, k.job);
      assert Key(k.job, k.attempt) in s.db.attempts;
      assert db' == Replaced(s.db, k.job, db'.jobs[k.job], db'.attempts[k]);
      ReplacedKeeps(s, k.job, db'.jobs[k.job], db'.attempts[k], System(db', commit, s.granted));
    }
  }

  lemma CancelKeeps(s: System, job: int, at: Time, commit: Time)
    requires Inv(s) && s.clock <= commit
    ensures var s' := System(CancelTx(s.db, job, at).0, commit, s.granted); Inv(s') && Evolves(s, s')
  {
    var db' := CancelTx(s.db, job, at).0;
    if db' == s.db {
      TimePasses(s, commit);
    } else {
      assert JobOk(s.db, s.clock, job);
      RowKeeps(s, job, db'.jobs[job], System(db', commit, s.granted));
    }
  }

  /** A job's next attempt: a queued row becomes claimed, and its log grows by one fresh record. */
  predicate Begins(r: JobRow, r': JobRow, a': AttemptRow, commit: Time) {
    && r.state.Queued? && r' == r.(state := r'.state, attempt := r.attempt + 1, worker := r'.worker,
    claimedAt := r'.claimedAt, startedAt := r'.startedAt, lease := Some(a'.lease))
    && Leased(r'.state) && r.availableAt <= a'.claimedAt
    && a'.endedAt.None? && a'.endedBy.None? && a'.claimedAt <= a'.lease && a'.claimedAt <= commit
  }

  lemma BegunJobOk(db: DB, clock: Time, j: int, r': JobRow, a': AttemptRow, commit: Time)
    requires j in db.jobs && JobOk(db, clock, j) && clock <= commit
    requires Begins(db.jobs[j], r', a', commit)
    ensures Key(j, r'.attempt) !in db.attempts
    ensures JobOk(Replaced(db, j, r', a'), commit, j)
  {
    var db' := Replaced(db, j, r', a');
    var n := db.jobs[j].attempt;
    assert n >= 1 ==> Key(j, n) in db.attempts;
    assert LogOk(db', j, r'.attempt, commit);
  }

  lemma BegunAlone(s: System, j: int, r': JobRow, a': AttemptRow, s': System)
    requires Inv(s) && j in s.db.jobs && s.clock <= s'.clock
    requires Begins(s.db.jobs[j], r', a', s'.clock)
    requires s'.db == Replaced(s.db, j, r', a')
    ensures OnlyJob(s.db, s'.db, j) && StepOnJob(s, s', j) && Key(j, r'.attempt) !in s.db.attempts
  {
    hide GrantsOk, LastOk, RowOk, OnlyJob;
    assert JobOk(s.db, s.clock, j);
    BegunJobOk(s.db, s.clock, j, r', a', s'.clock);
    OnlyReplaced(s.db, s'.db, j, r', a');
  }

  lemma BegunKeeps(s: System, j: int, r': JobRow, a': AttemptRow, s': System, worker: string)
    requires Inv(s) && j in s.db.jobs && s.clock <= s'.clock
    requires Begins(s.db.jobs[j], r', a', s'.clock) && a'.worker == worker
    requires s'.db == Replaced(s.db, j, r', a')
    requires s'.granted == s.granted + {Hold(worker, Key(j, r'.attempt), a'.claimedAt)}
    ensures Inv(s') && Evolves(s, s')
  {
    BegunAlone(s, j, r', a', s');
    OneJobKeeps(s, s', j);
  }

  lemma ClaimKeeps(s: System, step: Step)
    requires Inv(s) && step.Claim? && step.at <= step.commit && s.clock <= step.commit
    ensures var s' := System(ClaimTx(s.db, step.worker, step.lease, step.locked, step.at).0, step.commit, GrantedAfter(s, step));
            Inv(s') && Evolves(s, s')
  {
    var found := Least(Claimable(s.db, step.locked, step.at));
    if found.None? {
      TimePasses(s, step.commit);
    } else {
      var (db', got) := ClaimTx(s.db, step.worker, step.lease, step.locked, step.at);
      var s' := System(db', step.commit, GrantedAfter(s, step));
      BegunKeeps(s, found.value, db'.jobs[found.value], db'.attempts[got.value], s', step.worker);
    }
  }

  /** A job's result, with its row and its latest attempt's record. */
  function Finished(db: DB, j: int, r: JobRow, a: AttemptRow, e: ResultRow): DB {
    Replaced(db, j, r, a).(results := db.results[db.nextResult := e], nextResult := db.nextResult + 1)
  }

  predicate Publishes(db: DB, j: int, r: JobRow, r': JobRow, a: AttemptRow, a': AttemptRow, e: ResultRow) {
    && Leased(r.state) && r.cancelAt.None? && HasResult(r'.state)
    && r' == r.(state := r'.state, resultId := Some(db.nextResult), lease := None, finishedAt := r'.finishedAt)
    && a' == a.(endedAt := Some(e.publishedAt), endedBy := Some(ByPublish), error := a'.error)
    && e.job == j && e.attempt == r.attempt && e.outcome == r'.state && e.worker == a.worker
  }

  lemma FinishedJobOk(db: DB, clock: Time, j: int, r': JobRow, a': AttemptRow, e: ResultRow, commit: Time)
    requires j in db.jobs && JobOk(db, clock, j) && clock <= commit
    requires Key(j, r'.attempt) in db.attempts
    requires Publishes(db, j, db.jobs[j], r', db.attempts[Key(j, r'.attempt)], a', e)
    requires AttemptOk(a', commit)
    ensures JobOk(Finished(db, j, r', a', e), commit, j)
  {
    assert LogOk(Finished(db, j, r', a', e), j, r'.attempt, commit);
  }

  lemma FinishedAlone(s: System, j: int, r': JobRow, a': AttemptRow, e: ResultRow, s': System)
    requires Inv(s) && j in s.db.jobs && s.clock <= s'.clock
    requires Key(j, r'.attempt) in s.db.attempts
    requires Publishes(s.db, j, s.db.jobs[j], r', s.db.attempts[Key(j, r'.attempt)], a', e)
    requires AttemptOk(a', s'.clock) && s'.db == Finished(s.db, j, r', a', e)
    ensures OnlyJob(s.db, s'.db, j) && StepOnJob(s, s', j)
  {
    hide LogOk, GrantsOk;
    assert JobOk(s.db, s.clock, j);
    FinishedJobOk(s.db, s.clock, j, r', a', e, s'.clock);
  }

  lemma FinishedKeeps(s: System, j: int, r': JobRow, a': AttemptRow, e: ResultRow, s': System)
    requires Inv(s) && j in s.db.jobs && s.clock <= s'.clock
    requires Key(j, r'.attempt) in s.db.attempts
    requires Publishes(s.db, j, s.db.jobs[j], r', s.db.attempts[Key(j, r'.attempt)], a', e)
    requires AttemptOk(a', s'.clock) && s'.db == Finished(s.db, j, r', a', e) && s'.granted == s.granted
    ensures Inv(s') && Evolves(s, s')
  {
    FinishedAlone(s, j, r', a', e, s');
    OneJobKeeps(s, s', j);
  }

  lemma PublishKeeps(s: System, hold: Hold, outcome: Outcome, body: Body, at: Time, commit: Time)
    requires Inv(s) && s.clock <= commit && at <= commit && hold in s.granted && hold.since <= at
    ensures var s' := System(PublishTx(s.db, hold.key, hold.worker, outcome, body, at).0, commit, s.granted);
            Inv(s') && Evolves(s, s')
  {
    var k := hold.key;
    var db' := PublishTx(s.db, k, hold.worker, outcome, body, at).0;
    assert JobOk(s.db, s.clock, k.job);
    if s.db.jobs[k.job].attempt == k.attempt && Leased(s.db.jobs[k.job].state) && s.db.jobs[k.job].cancelAt.Some? {
      FinishCancelledKeeps(s, k, at, commit);
    } else if Live(s.db, k, at) {
      assert Key(k.job, k.attempt) in s.db.attempts;
      FinishedKeeps(s, k.job, db'.jobs[k.job], db'.attempts[k], db'.results[s.db.nextResult], System(db', commit, s.granted));
    } else {
      TimePasses(s, commit);
    }
  }

  // ---- ending attempts without a result ----

  /** What the statements that end attempts check before they choose a job. */
  predicate MayEnd(db: DB, j: int, how: Ending, at: Time) {
    && j in db.jobs && Leased(db.jobs[j].state) && db.jobs[j].lease.Some?
    && (how.ByLeaseExpiry? || how.ByRelease?)
    && (how.ByLeaseExpiry? <==> db.jobs[j].lease.value <= at)
    && (Key(j, db.jobs[j].attempt) in db.attempts ==> db.attempts[Key(j, db.jobs[j].attempt)].claimedAt <= at)
  }

  /** EndAttempts, row by row. */
  ghost predicate EndsThem(db: DB, db': DB, chosen: set<int>, how: Ending, error: string, retry: RetryPolicy, at: Time) {
    && db' == DB(db.batches, db'.jobs, db'.attempts, db.results, db.nextBatch, db.nextJob, db.nextResult)
    && db'.jobs.Keys == db.jobs.Keys && db'.attempts.Keys == db.attempts.Keys
    && (forall j :: j in db.jobs && j in chosen ==> db'.jobs[j] == EndedJob(db.jobs[j], error, retry, at))
    && (forall j :: j in db.jobs && j !in chosen ==> db'.jobs[j] == db.jobs[j])
    && (forall k :: k in db.attempts && LatestOfChosen(db, chosen, k) ==>
                      db'.attempts[k] == EndedAttempt(db.attempts[k], how, Some(error), at))
    && (forall k :: k in db.attempts && !LatestOfChosen(db, chosen, k) ==> db'.attempts[k] == db.attempts[k])
  }

  /** This attempt is the latest of a chosen job. */
  predicate LatestOfChosen(db: DB, chosen: set<int>, k: Key) {
    k.job in chosen && k.job in db.jobs && db.jobs[k.job].attempt == k.attempt
  }

  /** The job a chosen job's row and latest attempt become. */
  lemma EndedAlone(db: DB, clock: Time, j: int, how: Ending, error: string, retry: RetryPolicy, at: Time, commit: Time)
    requires j in db.jobs && JobOk(db, clock, j) && clock <= commit && at <= commit && MayEnd(db, j, how, at)
    ensures Key(j, db.jobs[j].attempt) in db.attempts
    ensures var r, a := db.jobs[j], db.attempts[Key(j, db.jobs[j].attempt)];
            JobOk(Replaced(db, j, EndedJob(r, error, retry, at), EndedAttempt(a, how, Some(error), at)), commit, j)
  {
    var r := db.jobs[j];
    assert Key(j, r.attempt) in db.attempts;
    var a := db.attempts[Key(j, r.attempt)];
    ReplacedJobOk(db, clock, j, EndedJob(r, error, retry, at), EndedAttempt(a, how, Some(error), at), commit);
  }

  lemma EndedJobOk(db: DB, clock: Time, db': DB, chosen: set<int>, how: Ending, error: string, retry: RetryPolicy, at: Time, commit: Time, j: int)
    requires j in db.jobs && JobOk(db, clock, j) && clock <= commit && at <= commit && j in chosen
    requires EndsThem(db, db', chosen, how, error, retry, at) && MayEnd(db, j, how, at)
    ensures JobOk(db', commit, j)
  {
    EndedAlone(db, clock, j, how, error, retry, at, commit);
    var k := Key(j, db.jobs[j].attempt);
    assert LatestOfChosen(db, chosen, k);
    var one := Replaced(db, j, db'.jobs[j], db'.attempts[k]);
    forall a | Key(j, a) in db.attempts
      ensures one.attempts[Key(j, a)] == db'.attempts[Key(j, a)]
    {
      assert a != k.attempt ==> !LatestOfChosen(db, chosen, Key(j, a));
    }
    JobOkFrame(one, commit, db', commit, j);
  }

  lemma EndedRowEvolves(db: DB, clock: Time, j: int, how: Ending, error: string, retry: RetryPolicy, at: Time)
    requires j in db.jobs && JobOk(db, clock, j) && MayEnd(db, j, how, at)
    ensures JobEvolves(db.jobs[j], EndedJob(db.jobs[j], error, retry, at))
    ensures !Leased(EndedJob(db.jobs[j], error, retry, at).state)
    ensures forall a :: Key(j, a) in db.attempts && a == db.jobs[j].attempt ==> db.attempts[Key(j, a)].endedBy.None?
  {}

  lemma EndAttemptsEvolves(s: System, db': DB, chosen: set<int>, how: Ending, error: string, retry: RetryPolicy, at: Time, commit: Time)
    requires Inv(s) && s.clock <= commit && chosen <= s.db.jobs.Keys
    requires EndsThem(s.db, db', chosen, how, error, retry, at)
    requires forall j :: j in chosen ==> MayEnd(s.db, j, how, at)
    ensures Evolves(s, System(db', commit, s.granted))
  {
    hide IdsOk, GrantsOk;
    forall j | j in s.db.jobs
      ensures JobEvolves(s.db.jobs[j], db'.jobs[j])
    {
      if j in chosen { EndedRowEvolves(s.db, s.clock, j, how, error, retry, at); }
    }
    forall k | k in s.db.attempts
      ensures AttemptEvolves(s.db.attempts[k], db'.attempts[k])
    {
      assert Key(k.job, k.attempt) in s.db.attempts;
      if k.job in chosen { EndedRowEvolves(s.db, s.clock, k.job, how, error, retry, at); }
    }
  }

  lemma EndedJobsOk(s: System, db': DB, chosen: set<int>, how: Ending, error: string, retry: RetryPolicy, at: Time, commit: Time)
    requires Inv(s) && s.clock <= commit && at <= commit && chosen <= s.db.jobs.Keys
    requires EndsThem(s.db, db', chosen, how, error, retry, at)
    requires forall j :: j in chosen ==> MayEnd(s.db, j, how, at)
    ensures forall j :: j in db'.jobs ==> JobOk(db', commit, j)
  {
    forall j | j in db'.jobs
      ensures JobOk(db', commit, j)
    {
      if j in chosen {
        EndedJobOk(s.db, s.clock, db', chosen, how, error, retry, at, commit, j);
      } else {
        forall a | Key(j, a) in s.db.attempts
          ensures db'.attempts[Key(j, a)] == s.db.attempts[Key(j, a)]
        {
          assert !LatestOfChosen(s.db, chosen, Key(j, a));
        }
        JobOkFrame(s.db, s.clock, db', commit, j);
      }
    }
  }

  /** Results, identities and claims survive any step that keeps every job's identity and result. */
  lemma RestKeeps(s: System, s': System)
    requires IdsOk(s.db) && GrantsOk(s) && Evolves(s, s') && s'.granted == s.granted
    requires s'.db.jobs.Keys == s.db.jobs.Keys && s'.db.attempts.Keys == s.db.attempts.Keys
    requires s'.db.results == s.db.results && s'.db.batches == s.db.batches
    requires s'.db.nextBatch == s.db.nextBatch && s'.db.nextJob == s.db.nextJob && s'.db.nextResult == s.db.nextResult
    requires forall j :: j in s.db.jobs ==> s'.db.jobs[j].resultId == s.db.jobs[j].resultId
    ensures IdsOk(s'.db) && GrantsOk(s')
  {
    forall h | h in s'.granted
      ensures GrantOk(s'.db, h)
    {
      assert AttemptEvolves(s.db.attempts[h.key], s'.db.attempts[h.key]);
    }
    forall i, j | i in s'.db.jobs && j in s'.db.jobs && SamePlace(s'.db.jobs[i], s'.db.jobs[j])
      ensures i == j
    {
      assert JobEvolves(s.db.jobs[i], s'.db.jobs[i]) && JobEvolves(s.db.jobs[j], s'.db.jobs[j]);
      assert SamePlace(s.db.jobs[i], s.db.jobs[j]);
    }
    forall j | j in s'.db.jobs
      ensures s'.db.jobs[j].batch in s'.db.batches
    {
      assert JobEvolves(s.db.jobs[j], s'.db.jobs[j]);
    }
  }

  lemma EndAttemptsKeeps(s: System, db': DB, chosen: set<int>, how: Ending, error: string, retry: RetryPolicy, at: Time, commit: Time)
    requires Inv(s) && s.clock <= commit && at <= commit && chosen <= s.db.jobs.Keys
    requires EndsThem(s.db, db', chosen, how, error, retry, at)
    requires forall j :: j in chosen ==> MayEnd(s.db, j, how, at)
    ensures var s' := System(db', commit, s.granted); Inv(s') && Evolves(s, s')
  {
    var s' := System(db', commit, s.granted);
    EndedJobsOk(s, db', chosen, how, error, retry, at, commit);
    EndAttemptsEvolves(s, db', chosen, how, error, retry, at, commit);
    RestKeeps(s, s');
  }

  lemma ReleaseEnds(db: DB, k: Key, error: string, retry: RetryPolicy, at: Time)
    ensures EndsThem(db, ReleaseTx(db, k, error, retry, at).0, if Live(db, k, at) then {k.job} else {}, ByRelease, error, retry, at)
  {}

  lemma ReleaseKeeps(s: System, hold: Hold, error: string, retry: RetryPolicy, at: Time, commit: Time)
    requires Inv(s) && s.clock <= commit && at <= commit && hold in s.granted && hold.since <= at
    ensures var s' := System(ReleaseTx(s.db, hold.key, error, retry, at).0, commit, s.granted); Inv(s') && Evolves(s, s')
  {
    var chosen := if Live(s.db, hold.key, at) then {hold.key.job} else {};
    var db' := ReleaseTx(s.db, hold.key, error, retry, at).0;
    ReleaseEnds(s.db, hold.key, error, retry, at);
    EndAttemptsKeeps(s, db', chosen, ByRelease, error, retry, at, commit);
  }

  lemma ReapEnds(db: DB, retry: RetryPolicy, locked: set<int>, at: Time)
    ensures EndsThem(db, ReapTx(db, retry, locked, at).0, Lapsed(db, locked, at), ByLeaseExpiry, LEASE_EXPIRED, retry, at)
  {}

  lemma LapsedMayEnd(s: System, locked: set<int>, at: Time, j: int)
    requires Inv(s) && j in Lapsed(s.db, locked, at)
    ensures MayEnd(s.db, j, ByLeaseExpiry, at)
  {
    hide IdsOk, GrantsOk;
    assert JobOk(s.db, s.clock, j);
  }

  lemma ReapKeeps(s: System, retry: RetryPolicy, locked: set<int>, at: Time, commit: Time)
    requires Inv(s) && s.clock <= commit && at <= commit
    ensures var s' := System(ReapTx(s.db, retry, locked, at).0, commit, s.granted); Inv(s') && Evolves(s, s')
  {
    hide JobOk, MayEnd, EndsThem;
    var db' := ReapTx(s.db, retry, locked, at).0;
    ReapEnds(s.db, retry, locked, at);
    forall j | j in Lapsed(s.db, locked, at)
      ensures MayEnd(s.db, j, ByLeaseExpiry, at)
    {
      LapsedMayEnd(s, locked, at, j);
    }
    EndAttemptsKeeps(s, db', Lapsed(s.db, locked, at), ByLeaseExpiry, LEASE_EXPIRED, retry, at, commit);
  }

  // ---- submitting ----

  /** A batch inserted under a key no batch has. */
  ghost predicate Inserts(db: DB, db': DB, request: Request, key: Option<string>, at: Time) {
    && WithKey(db, key) == {} && request.jobs != [] && request.maxAttempts >= 1
    && db' == db.(batches := db.batches[db.nextBatch := BatchRow(key, request)], jobs := db'.jobs,
    nextBatch := db.nextBatch + 1, nextJob := db.nextJob + |request.jobs|)
    && (forall j :: j in db'.jobs <==> j in db.jobs || db.nextJob <= j < db.nextJob + |request.jobs|)
    && (forall j :: j in db'.jobs ==> db'.jobs[j] ==
                                      if db.nextJob <= j < db.nextJob + |request.jobs|
                                      then NewRow(db.nextBatch, db.nextJob, j, request, at) else db.jobs[j])
  }

  lemma InsertedJobsOk(s: System, db': DB, request: Request, key: Option<string>, at: Time, commit: Time)
    requires Inv(s) && s.clock <= commit && Inserts(s.db, db', request, key, at)
    ensures forall j :: j in db'.jobs ==> JobOk(db', commit, j)
  {
    forall j | j in db'.jobs
      ensures JobOk(db', commit, j)
    {
      if j in s.db.jobs {
        JobOkFrame(s.db, s.clock, db', commit, j);
      } else {
        assert forall a :: Key(j, a) !in db'.attempts;
      }
    }
  }

  lemma InsertedIds(db: DB, db': DB, request: Request, key: Option<string>, at: Time)
    requires IdsOk(db) && Inserts(db, db', request, key, at)
    ensures IdsOk(db')
  {
    forall b, c | b in db'.batches && c in db'.batches && SameKey(db'.batches[b], db'.batches[c])
      ensures b == c
    {
      assert b !in WithKey(db, key) && c !in WithKey(db, key);
    }
    forall i, j | i in db'.jobs && j in db'.jobs && SamePlace(db'.jobs[i], db'.jobs[j])
      ensures i == j
    {
      if i in db.jobs && j in db.jobs { assert SamePlace(db.jobs[i], db.jobs[j]); }
    }
  }

  lemma InsertedEvolves(s: System, db': DB, request: Request, key: Option<string>, at: Time, commit: Time)
    requires Inv(s) && s.clock <= commit && Inserts(s.db, db', request, key, at)
    ensures Evolves(s, System(db', commit, s.granted))
  {}

  lemma SubmitInserts(db: DB, request: Request, key: Option<string>, at: Time)
    requires IdsOk(db)
    ensures var db' := SubmitTx(db, request, key, at).0; db' == db || Inserts(db, db', request, key, at)
  {}

  lemma SubmitKeeps(s: System, request: Request, key: Option<string>, at: Time, commit: Time)
    requires Inv(s) && s.clock <= commit
    ensures var s' := System(SubmitTx(s.db, request, key, at).0, commit, s.granted); Inv(s') && Evolves(s, s')
  {
    var db' := SubmitTx(s.db, request, key, at).0;
    SubmitInserts(s.db, request, key, at);
    if db' == s.db {
      TimePasses(s, commit);
    } else {
      InsertedJobsOk(s, db', request, key, at, commit);
      InsertedIds(s.db, db', request, key, at);
      InsertedEvolves(s, db', request, key, at, commit);
    }
  }

  // ---- every step, every run ----

  lemma StepKeeps(s: System, step: Step)
    requires Inv(s)
    ensures Inv(Apply(s, step)) && Evolves(s, Apply(s, step))
  {
    if !Enabled(s, step) {
      TimePasses(s, s.clock);
    } else {
      match step
      case Tick(at) => TimePasses(s, at);
      case Look(_, at) => TimePasses(s, at);
      case ReadLive(at) => TimePasses(s, at);
      case Submit(request, key, at, commit) => SubmitKeeps(s, request, key, at, commit);
      case Claim(_, _, _, _, _) => ClaimKeeps(s, step);
      case Start(hold, at, commit) => StartKeeps(s, hold.key, at, commit);
      case Heartbeat(hold, lease, at, commit) => HeartbeatKeeps(s, hold.key, lease, at, commit);
      case Cancel(job, at, commit) => CancelKeeps(s, job, at, commit);
      case FinishCancel(hold, at, commit) => FinishCancelledKeeps(s, hold.key, at, commit);
      case Publish(hold, outcome, body, at, commit) => PublishKeeps(s, hold, outcome, body, at, commit);
      case Release(hold, error, retry, at, commit) => ReleaseKeeps(s, hold, error, retry, at, commit);
      case Reap(retry, locked, at, commit) => ReapKeeps(s, retry, locked, at, commit);
    }
  }

  lemma EvolvesThrough(a: System, b: System, c: System)
    requires Evolves(a, b) && Evolves(b, c)
    ensures Evolves(a, c)
  {
    forall j | j in a.db.jobs
      ensures j in c.db.jobs && JobEvolves(a.db.jobs[j], c.db.jobs[j])
    {
      assert JobEvolves(a.db.jobs[j], b.db.jobs[j]) && JobEvolves(b.db.jobs[j], c.db.jobs[j]);
    }
    forall j | j in c.db.jobs && j !in a.db.jobs
      ensures c.db.jobs[j].batch >= a.db.nextBatch
    {
      if j in b.db.jobs { assert JobEvolves(b.db.jobs[j], c.db.jobs[j]); }
    }
    forall k | k in a.db.attempts
      ensures k in c.db.attempts && AttemptEvolves(a.db.attempts[k], c.db.attempts[k])
    {
      assert AttemptEvolves(a.db.attempts[k], b.db.attempts[k]) && AttemptEvolves(b.db.attempts[k], c.db.attempts[k]);
    }
  }

  lemma {:induction false} RunKeeps(s: System, steps: seq<Step>)
    requires Inv(s)
    ensures Inv(Run(s, steps)) && Evolves(s, Run(s, steps))
    decreases |steps|
  {
    hide Inv, Evolves;
    if steps == [] {
      TimePasses(s, s.clock);
    } else {
      StepKeeps(s, steps[0]);
      RunKeeps(Apply(s, steps[0]), steps[1..]);
      EvolvesThrough(s, Apply(s, steps[0]), Run(s, steps));
    }
  }

  lemma InitialOk(clock: Time)
    ensures Inv(Initial(clock)) && Initial(clock).db.results == map[]
  {}

  /** Every state any interleaving reaches is good. */
  lemma ReachableOk(clock: Time, steps: seq<Step>)
    ensures Inv(Run(Initial(clock), steps))
  {
    RunKeeps(Initial(clock), steps);
  }
}
