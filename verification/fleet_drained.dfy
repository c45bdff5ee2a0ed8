/** The checker against the protocol: every drained state any interleaving reaches is clean, and what a
    clean answer says of any snapshot, whoever wrote it. */
module FleetDrained {
  import opened Wrappers
  import opened FleetRows
  import opened FleetTransactions
  import opened FleetProtocol
  import opened FleetCheck
  import opened FleetSafety

  // ---- the snapshot the checker reads ----

  function JobView(db: DB, j: int): CheckedJob
    requires j in db.jobs
  {
    var r := db.jobs[j];
    CheckedJob(j, r.state, r.attempt, r.maxAttempts, r.resultId, r.cancelAt)
  }

  function AttemptView(db: DB, k: Key): CheckedAttempt
    requires k in db.attempts
  {
    var a := db.attempts[k];
    CheckedAttempt(k.job, k.attempt, a.worker, a.claimedAt, a.lease, a.endedAt, a.endedBy)
  }

  function ResultView(db: DB, n: int): CheckedResult
    requires n in db.results
  {
    var e := db.results[n];
    CheckedResult(n, e.job, e.attempt, e.worker, e.publishedAt, e.outcome, e.body.resultKey)
  }

  function KeyOf(a: CheckedAttempt): Key { Key(a.job, a.attempt) }

  predicate DistinctKeys(rows: seq<CheckedAttempt>) {
    forall i, j :: 0 <= i < j < |rows| ==> KeyOf(rows[i]) != KeyOf(rows[j])
  }

  /** One consistent read of these jobs, their attempts and their results; the database returns each
      row once, in any order. */
  ghost predicate SnapshotOf(db: DB, ids: seq<int>, run: Snapshot) {
    && (forall row :: row in run.jobs <==> row.id in ids && row.id in db.jobs && row == JobView(db, row.id))
    && (forall row :: row in run.attempts <==> row.job in ids && KeyOf(row) in db.attempts && row == AttemptView(db, KeyOf(row)))
    && DistinctKeys(run.attempts)
    && (forall row :: row in run.results <==> row.job in ids && row.id in db.results && row == ResultView(db, row.id))
    && (forall i, j :: 0 <= i < j < |run.results| ==> run.results[i].id != run.results[j].id)
  }

  predicate Distinct(ids: seq<int>) { forall i, j :: 0 <= i < j < |ids| ==> ids[i] != ids[j] }

  /** Every submitted job is in the store and final. */
  predicate Drained(db: DB, ids: seq<int>) {
    forall i :: 0 <= i < |ids| ==> ids[i] in db.jobs && Final(db.jobs[ids[i]].state)
  }

  // ---- the log of a job, in order ----

  predicate Strict(log: seq<CheckedAttempt>) { forall i, j :: 0 <= i < j < |log| ==> log[i].attempt < log[j].attempt }

  lemma {:induction false} InsertKeepsDistinct(row: CheckedAttempt, s: seq<CheckedAttempt>)
    requires Ascending(s) && DistinctKeys(s) && forall x :: x in s ==> KeyOf(x) != KeyOf(row)
    ensures DistinctKeys(InsertByAttempt(row, s))
  {
    if s != [] && s[0].attempt < row.attempt {
      InsertKeepsDistinct(row, s[1..]);
      var rest := InsertByAttempt(row, s[1..]);
      forall i | 0 <= i < |rest|
        ensures KeyOf(rest[i]) != KeyOf(s[0])
      {
        assert rest[i] in rest;
      }
    }
  }

  lemma {:induction false} SortKeepsDistinct(rows: seq<CheckedAttempt>)
    requires DistinctKeys(rows)
    ensures DistinctKeys(SortedByAttempt(rows))
  {
    if rows != [] {
      SortKeepsDistinct(rows[1..]);
      InsertKeepsDistinct(rows[0], SortedByAttempt(rows[1..]));
    }
  }

  lemma InLaterRows(rows: seq<CheckedAttempt>, id: int, x: CheckedAttempt)
    requires rows != [] && Ascending(rows) && DistinctKeys(rows) && rows[0].job == id && x in JobLog(rows[1..], id)
    ensures rows[0].attempt < x.attempt
  {
    JobLogHas(rows[1..], id);
    var n :| 0 <= n < |rows[1..]| && rows[1..][n] == x;
    assert rows[n + 1] == x && KeyOf(rows[0]) != KeyOf(rows[n + 1]);
  }

  lemma {:induction false} LogStrict(rows: seq<CheckedAttempt>, id: int)
    requires Ascending(rows) && DistinctKeys(rows)
    ensures Strict(JobLog(rows, id))
  {
    if rows != [] {
      var rest := JobLog(rows[1..], id);
      LogStrict(rows[1..], id);
      assert JobLog(rows, id) == if rows[0].job == id then [rows[0]] + rest else rest;
      hide JobLog;
      if rows[0].job == id {
        forall i | 0 <= i < |rest|
          ensures rows[0].attempt < rest[i].attempt
        {
          InLaterRows(rows, id, rest[i]);
        }
      }
    }
  }

  /** An ascending log that holds exactly the numbers 1 to n is numbered in order. */
  lemma {:induction false} NumberedInOrder(log: seq<CheckedAttempt>, n: nat)
    requires Strict(log)
    requires forall i :: 0 <= i < |log| ==> 1 <= log[i].attempt <= n
    requires forall a :: 1 <= a <= n ==> HasNumber(log, a)
    ensures |log| == n && forall i :: 0 <= i < n ==> log[i].attempt == i + 1
  {
    if log == [] {
      assert 1 <= n ==> HasNumber(log, n);
    } else {
      assert 1 <= log[0].attempt <= n;
      assert HasNumber(log, n);
      var i :| 0 <= i < |log| && log[i].attempt == n;
      var last := |log| - 1;
      assert log[last].attempt <= n;
      assert i == last;
      var init := log[..last];
      forall a | 1 <= a <= n - 1
        ensures HasNumber(init, a)
      {
        assert HasNumber(log, a);
        var m :| 0 <= m < |log| && log[m].attempt == a;
        assert init[m].attempt == a;
      }
      NumberedInOrder(init, n - 1);
      forall m | 0 <= m < n
        ensures log[m].attempt == m + 1
      {
        if m < last { assert init[m] == log[m]; }
      }
    }
  }

  predicate HasNumber(log: seq<CheckedAttempt>, a: int) { exists i :: 0 <= i < |log| && log[i].attempt == a }

  /** A job's log, as the state has it: its attempts, from 1 to its row's attempt. */
  ghost predicate IsLog(db: DB, j: int, log: seq<CheckedAttempt>)
    requires j in db.jobs
  {
    |log| == db.jobs[j].attempt && forall i :: 0 <= i < |log| ==>
                                                 Key(j, i + 1) in db.attempts && log[i] == AttemptView(db, Key(j, i + 1))
  }

  /** A job's sorted log in the snapshot is its log. */
  lemma LogInOrder(s: System, ids: seq<int>, run: Snapshot, j: int)
    requires Inv(s) && SnapshotOf(s.db, ids, run) && j in ids && j in s.db.jobs
    ensures IsLog(s.db, j, LogOf(run, j))
  {
    var log, n := LogOf(run, j), s.db.jobs[j].attempt;
    assert JobOk(s.db, s.clock, j);
    SortKeepsDistinct(run.attempts);
    LogStrict(SortedByAttempt(run.attempts), j);
    JobLogHas(SortedByAttempt(run.attempts), j);
    forall i | 0 <= i < |log|
      ensures 1 <= log[i].attempt <= n && log[i] == AttemptView(s.db, Key(j, log[i].attempt))
    {
      assert log[i] in log;
      assert log[i] in run.attempts;
      assert KeyOf(log[i]) == Key(j, log[i].attempt);
    }
    forall a | 1 <= a <= n
      ensures HasNumber(log, a)
    {
      assert Key(j, a) in s.db.attempts;
      var row := AttemptView(s.db, Key(j, a));
      assert KeyOf(row) == Key(j, a);
      assert row in run.attempts;
      assert row in log;
      var i :| 0 <= i < |log| && log[i] == row;
      assert log[i].attempt == a;
    }
    NumberedInOrder(log, n);
  }

  // ---- each part of the check, on a reachable state ----

  lemma RowsById(db: DB, ids: seq<int>, run: Snapshot)
    requires SnapshotOf(db, ids, run)
    ensures var jobs := ById(run.jobs);
            forall j :: (j in jobs <==> j in ids && j in db.jobs) && (j in jobs ==> jobs[j] == JobView(db, j))
  {
    forall j | j in ids && j in db.jobs
      ensures j in ById(run.jobs)
    {
      assert JobView(db, j) in run.jobs;
    }
  }

  lemma {:induction false} NumbersIndex(log: seq<CheckedAttempt>)
    requires forall i :: 0 <= i < |log| ==> log[i].attempt == i + 1
    ensures forall a :: a in ByNumber(log) <==> 1 <= a <= |log|
    ensures forall a :: a in ByNumber(log) ==> ByNumber(log)[a] == log[a - 1]
  {
    if log != [] { NumbersIndex(log[..|log| - 1]); }
  }

  lemma LogAddsUp(s: System, j: int, log: seq<CheckedAttempt>)
    requires j in s.db.jobs && JobOk(s.db, s.clock, j) && IsLog(s.db, j, log) && Final(s.db.jobs[j].state)
    ensures AddsUp(JobView(s.db, j), log)
    ensures forall i :: 0 < i < |log| ==> InTurn(log, i)
  {
    forall i | 0 <= i < |log|
      ensures EndedInTime(log[i]) && (i < |log| - 1 ==> Retried(log[i].endedBy))
    {
      assert Key(j, i + 1) in s.db.attempts;
    }
    forall i | 0 < i < |log|
      ensures InTurn(log, i)
    {
      assert Key(j, i) in s.db.attempts && log[i - 1] == AttemptView(s.db, Key(j, i));
      assert Key(j, i + 1) in s.db.attempts;
    }
  }

  /** A final job's own result, if it has one, is its last attempt's. */
  lemma ResultFits(s: System, j: int, log: seq<CheckedAttempt>, own: seq<CheckedResult>)
    requires j in s.db.jobs && JobOk(s.db, s.clock, j) && IsLog(s.db, j, log) && Final(s.db.jobs[j].state)
    requires var r := s.db.jobs[j];
             own == if r.resultId.Some? && r.resultId.value in s.db.results then [ResultView(s.db, r.resultId.value)] else []
    ensures HasOneResult(JobView(s.db, j), own)
    ensures forall i :: 0 <= i < |own| ==> FreshResult(JobView(s.db, j), log, own[i])
  {
    hide ByNumber;
    NumbersIndex(log);
  }

  lemma OwnResult(s: System, ids: seq<int>, run: Snapshot, j: int)
    requires Inv(s) && SnapshotOf(s.db, ids, run) && j in ids && j in s.db.jobs && Final(s.db.jobs[j].state)
    ensures var r, own := s.db.jobs[j], ResultsOf(run, j);
            own == if r.resultId.Some? && r.resultId.value in s.db.results then [ResultView(s.db, r.resultId.value)] else []
  {
    var r, own := s.db.jobs[j], ResultsOf(run, j);
    JobResultsHas(run.results, j);
    assert JobOk(s.db, s.clock, j);
    forall i | 0 <= i < |own|
      ensures r.resultId == Some(own[i].id) && own[i].id in s.db.results && own[i] == ResultView(s.db, own[i].id)
    {
      assert own[i] in own;
      assert own[i] in run.results;
    }
    OwnDistinct(run.results, j);
    if r.resultId.Some? {
      var row := ResultView(s.db, r.resultId.value);
      assert row in run.results;
      assert row in own;
    }
    if own != [] { assert own[0].id == own[|own| - 1].id; }
    assert own == if |own| == 0 then [] else [own[0]];
  }

  lemma {:induction false} OwnDistinct(rows: seq<CheckedResult>, j: int)
    requires forall i, n :: 0 <= i < n < |rows| ==> rows[i].id != rows[n].id
    ensures var own := JobResults(rows, j); forall i, n :: 0 <= i < n < |own| ==> own[i].id != own[n].id
  {
    if rows != [] {
      var rest := JobResults(rows[1..], j);
      OwnDistinct(rows[1..], j);
      JobResultsHas(rows[1..], j);
      if rows[0].job == j {
        forall i | 0 <= i < |rest|
          ensures rest[i].id != rows[0].id
        {
          assert rest[i] in rest;
          var n :| 0 <= n < |rows[1..]| && rows[1..][n] == rest[i];
          assert rows[n + 1] == rest[i];
        }
      }
    }
  }

  lemma RecordsAre(s: System, j: int, log: seq<CheckedAttempt>, own: seq<CheckedResult>)
    requires j in s.db.jobs && JobOk(s.db, s.clock, j) && IsLog(s.db, j, log) && Final(s.db.jobs[j].state)
    requires var r := s.db.jobs[j];
             own == if r.resultId.Some? && r.resultId.value in s.db.results then [ResultView(s.db, r.resultId.value)] else []
    ensures var job := JobView(s.db, j); HasOneResult(job, own) && Unstale(job, log, own) && AddsUp(job, log)
  {
    hide JobOk, IsLog, InTurn, AddsUp, FreshResult, HasOneResult;
    LogAddsUp(s, j, log);
    ResultFits(s, j, log, own);
  }

  /** A final job's records pass every check made of them. */
  lemma RecordsOk(s: System, ids: seq<int>, run: Snapshot, j: int)
    requires Inv(s) && SnapshotOf(s.db, ids, run) && j in ids && j in s.db.jobs && Final(s.db.jobs[j].state)
    ensures RecordsClean(run, JobView(s.db, j))
  {
    assert JobOk(s.db, s.clock, j);
    hide Inv, JobOk, IsLog, SnapshotOf, LogOf, ResultsOf, Unstale, AddsUp, HasOneResult;
    LogInOrder(s, ids, run, j);
    OwnResult(s, ids, run, j);
    RecordsAre(s, j, LogOf(run, j), ResultsOf(run, j));
  }

  // ---- the headline ----

  lemma {:induction false} DistinctCount(ids: seq<int>)
    requires Distinct(ids)
    ensures |set id | id in ids| == |ids|
  {
    if ids != [] {
      var init, last := ids[..|ids| - 1], ids[|ids| - 1];
      DistinctCount(init);
      assert ids == init + [last];
      assert (set id | id in ids) == (set id | id in init) + {last};
      assert last !in init;
    }
  }

  lemma DrainedRows(db: DB, ids: seq<int>, run: Snapshot)
    requires SnapshotOf(db, ids, run) && Distinct(ids) && Drained(db, ids)
    ensures var jobs := ById(run.jobs);
            && (forall id :: id in ids <==> id in jobs)
            && (forall id :: id in jobs ==> id in db.jobs && jobs[id] == JobView(db, id) && Final(jobs[id].state))
            && |FinalJobs(jobs)| == |ids| == |jobs|
  {
    var jobs := ById(run.jobs);
    RowsById(db, ids, run);
    forall id | id in ids
      ensures id in db.jobs && Final(db.jobs[id].state)
    {
      var i :| 0 <= i < |ids| && ids[i] == id;
    }
    DistinctCount(ids);
    assert jobs.Keys == set id | id in ids;
    assert FinalJobs(jobs) == jobs.Keys;
    assert |jobs| == |jobs.Keys|;
  }

  /** A drained store that keeps the protocol's invariant passes the whole check, whatever order its
      rows are read in. */
  lemma DrainedIsClean(s: System, ids: seq<int>, run: Snapshot)
    requires Inv(s) && SnapshotOf(s.db, ids, run) && Distinct(ids) && Drained(s.db, ids)
    ensures Clean(run, ids, None)
  {
    var jobs := ById(run.jobs);
    DrainedRows(s.db, ids, run);
    forall id | id in jobs
      ensures IdClean(run, jobs, id)
    {
      RecordsOk(s, ids, run, id);
    }
  }

  /** The headline: from an empty store, after any interleaving of submitters, workers, cancellers and
      reapers, once every submitted job is final the repository's own checker finds nothing. */
  lemma EveryDrainedRunIsClean(clock: Time, steps: seq<Step>, ids: seq<int>, run: Snapshot)
    requires var s := Run(Initial(clock), steps);
             SnapshotOf(s.db, ids, run) && Distinct(ids) && Drained(s.db, ids)
    ensures Clean(run, ids, None)
  {
    ReachableOk(clock, steps);
    DrainedIsClean(Run(Initial(clock), steps), ids, run);
  }

  /** End to end: when each worker puts its job's own key in the result, and no two jobs share one, the
      keys are clean too. */
  lemma DrainedKeysAreClean(s: System, ids: seq<int>, run: Snapshot, keys: map<int, string>)
    requires Inv(s) && SnapshotOf(s.db, ids, run) && Distinct(ids) && Drained(s.db, ids)
    requires forall n :: n in s.db.results && s.db.results[n].job in ids ==>
                           s.db.results[n].job in keys && s.db.results[n].body.resultKey == Some(keys[s.db.results[n].job])
    requires forall i, j :: i in keys && j in keys && keys[i] == keys[j] ==> i == j
    ensures Clean(run, ids, Some(keys))
  {
    DrainedIsClean(s, ids, run);
    KeysDiffer(s, ids, run, keys);
  }

  lemma KeysDiffer(s: System, ids: seq<int>, run: Snapshot, keys: map<int, string>)
    requires Inv(s) && SnapshotOf(s.db, ids, run)
    requires forall n :: n in s.db.results && s.db.results[n].job in ids ==>
                           s.db.results[n].job in keys && s.db.results[n].body.resultKey == Some(keys[s.db.results[n].job])
    requires forall i, j :: i in keys && j in keys && keys[i] == keys[j] ==> i == j
    ensures KeysClean(run.results, keys)
  {
    hide JobOk, GrantsOk;
    forall i, j | 0 <= i < j < |run.results|
      ensures run.results[i].key != run.results[j].key
    {
      var a, b := run.results[i], run.results[j];
      assert a in run.results && b in run.results;
      assert s.db.jobs[a.job].resultId == Some(a.id) && s.db.jobs[b.job].resultId == Some(b.id);
    }
  }

  // ---- the schema ----

  /** The tables' check, unique and foreign key constraints. */
  predicate SchemaHolds(db: DB) {
    && (forall j :: j in db.jobs ==>
                      var r := db.jobs[j];
                      && (Leased(r.state) <==> r.lease.Some?) && (HasResult(r.state) <==> r.resultId.Some?)
                      && 0 <= r.attempt <= r.maxAttempts && 1 <= r.maxAttempts
                      && r.batch in db.batches && (r.resultId.Some? ==> r.resultId.value in db.results))
    && (forall i, j :: i in db.jobs && j in db.jobs && SamePlace(db.jobs[i], db.jobs[j]) ==> i == j)
    && (forall k :: k in db.attempts ==>
                      k.job in db.jobs && (db.attempts[k].endedAt.None? <==> db.attempts[k].endedBy.None?))
    && (forall n :: n in db.results ==> db.results[n].job in db.jobs)
    && (forall m, n :: m in db.results && n in db.results && db.results[m].job == db.results[n].job ==> m == n)
    && (forall b, c :: b in db.batches && c in db.batches && SameKey(db.batches[b], db.batches[c]) ==> b == c)
  }

  /** Every reachable state satisfies the schema: no call is ever refused by a constraint. */
  lemma ReachableSchema(clock: Time, steps: seq<Step>)
    ensures SchemaHolds(Run(Initial(clock), steps).db)
  {
    var s := Run(Initial(clock), steps);
    ReachableOk(clock, steps);
    forall j | j in s.db.jobs
      ensures var r := s.db.jobs[j];
              && RowOk(r) && r.batch in s.db.batches && (r.resultId.Some? ==> r.resultId.value in s.db.results)
    {
      assert JobOk(s.db, s.clock, j);
    }
    forall k | k in s.db.attempts
      ensures s.db.attempts[k].endedAt.None? <==> s.db.attempts[k].endedBy.None?
    {
      assert JobOk(s.db, s.clock, k.job) && Key(k.job, k.attempt) in s.db.attempts;
    }
  }

  // ---- what a clean answer says of any snapshot ----

  /** A result of the job's state, written by its last attempt's worker before that attempt's lease ran out and before any
      cancel; by that publish the attempt ended. */
  predicate IsLastOnes(job: CheckedJob, log: seq<CheckedAttempt>, e: CheckedResult) {
    && job.resultId == Some(e.id) && e.outcome == job.state && e.attempt == job.attempt && 1 <= e.attempt <= |log|
    && var last := log[e.attempt - 1];
    && last.attempt == e.attempt && last.worker == e.worker && e.publishedAt < last.lease
    && last.endedBy == Some(ByPublish) && last.endedAt == Some(e.publishedAt)
    && (job.cancelAt.Some? ==> e.publishedAt < job.cancelAt.value)
  }

  lemma FreshIsLastOnes(job: CheckedJob, log: seq<CheckedAttempt>, e: CheckedResult)
    requires HasOneResult(job, [e]) && FreshResult(job, log, e) && forall i :: 0 <= i < |log| ==> log[i].attempt == i + 1
    ensures IsLastOnes(job, log, e)
  {
    hide ByNumber;
    NumbersIndex(log);
  }

  /** Every result a clean snapshot has of a job is the job's only one, and its last attempt's. */
  lemma CleanMeansFresh(run: Snapshot, submitted: seq<int>, keys: Option<map<int, string>>, e: CheckedResult)
    requires Clean(run, submitted, keys) && e in run.results && e.job in ById(run.jobs)
    ensures IsLastOnes(ById(run.jobs)[e.job], LogOf(run, e.job), e)
    ensures forall f :: f in run.results && f.job == e.job ==> f == e
  {
    hide IsLastOnes, FreshResult, LogOf, EndingsOk, FinalAgrees;
    var job, log, own := ById(run.jobs)[e.job], LogOf(run, e.job), ResultsOf(run, e.job);
    assert IdClean(run, ById(run.jobs), e.job);
    JobResultsHas(run.results, e.job);
    assert |own| == 1 && e in own;
    assert own == [e] && FreshResult(job, log, own[0]);
    FreshIsLastOnes(job, log, e);
  }

  /** An attempt ended, as late as its ending says, and after the one before. */
  predicate Ends(log: seq<CheckedAttempt>, i: nat)
    requires i < |log|
  {
    var a := log[i];
    && a.endedAt.Some?
    && (a.endedBy == Some(ByLeaseExpiry) ==> a.lease <= a.endedAt.value)
    && (a.endedBy == Some(ByRelease) || a.endedBy == Some(ByCancel) ==> a.endedAt.value < a.lease)
    && (i > 0 ==> log[i - 1].endedAt.Some? && log[i - 1].endedAt.value <= a.claimedAt)
  }

  /** The last attempt ended as the job did; a job without any was cancelled. */
  predicate EndsAlike(job: CheckedJob, log: seq<CheckedAttempt>) {
    if log == [] then job.state.Cancelled? && job.cancelAt.Some?
    else
      var last := log[|log| - 1].endedBy;
      var retried := last == Some(ByRelease) || last == Some(ByLeaseExpiry);
      && (HasResult(job.state) ==> last == Some(ByPublish))
      && (job.state.DeadLettered? ==> retried && job.attempt >= job.maxAttempts && job.cancelAt.None?)
      && (job.state.Cancelled? ==> (retried || last == Some(ByCancel)) && job.cancelAt.Some?)
      && (last == Some(ByCancel) ==> job.state.Cancelled?)
  }

  lemma AccountedFor(job: CheckedJob, log: seq<CheckedAttempt>)
    requires AddsUp(job, log) && Final(job.state) && forall i :: 0 < i < |log| ==> InTurn(log, i)
    ensures EndsAlike(job, log) && forall i :: 0 <= i < |log| ==> Ends(log, i)
  {
    forall i | 0 <= i < |log|
      ensures Ends(log, i)
    {
      assert EndedInTime(log[i]);
      if i > 0 { assert InTurn(log, i); }
    }
  }

  /** And every job of one is final and was submitted; its attempts are within its budget, each ended as its ending says, and
      the last as the job did. */
  lemma CleanMeansAccounted(run: Snapshot, submitted: seq<int>, keys: Option<map<int, string>>, id: int)
    requires Clean(run, submitted, keys) && id in ById(run.jobs)
    ensures var job, log := ById(run.jobs)[id], LogOf(run, id);
            && Final(job.state) && job.attempt <= job.maxAttempts && |log| == (if job.attempt < 0 then 0 else job.attempt)
            && EndsAlike(job, log) && forall i :: 0 <= i < |log| ==> Ends(log, i)
    ensures |submitted| == |ById(run.jobs)| && forall j :: j in submitted ==> j in ById(run.jobs)
  {
    hide LogOf, ResultsOf, HasOneResult, Ends, EndsAlike, FreshResult, EndingsOk, FinalAgrees;
    assert IdClean(run, ById(run.jobs), id);
    AccountedFor(ById(run.jobs)[id], LogOf(run, id));
  }

  lemma CleanMeansOwnKeys(run: Snapshot, submitted: seq<int>, keys: map<int, string>, e: CheckedResult, f: CheckedResult)
    requires Clean(run, submitted, Some(keys)) && e in run.results && f in run.results
    ensures e.key == (if e.job in keys then Some(keys[e.job]) else None) && (e != f && e.key.Some? ==> e.key != f.key)
  {
    assert OwnKey(e, keys);
    var i :| 0 <= i < |run.results| && run.results[i] == e;
    var j :| 0 <= j < |run.results| && run.results[j] == f;
    if i < j { assert e.key.Some? ==> run.results[i].key != run.results[j].key; }
    if j < i { assert f.key.Some? ==> run.results[j].key != run.results[i].key; }
  }

  /** Every earlier attempt ended before any later one was claimed. */
  predicate Exclusive(log: seq<CheckedAttempt>) { forall i, j :: 0 <= i < j < |log| ==> HandedOver(log[i], log[j]) }

  /** The attempt ended before its own claim. */
  predicate Backward(a: CheckedAttempt) { a.endedAt.Some? && a.endedAt.value < a.claimedAt }

  predicate OnlyBackward(log: seq<CheckedAttempt>, i: int, j: int) {
    forall n :: i < n < j && 0 <= n < |log| ==> Backward(log[n])
  }

  /** Neighbours, and any two with nothing but backward attempts between them, were handed over. */
  predicate ExclusiveAcross(log: seq<CheckedAttempt>) {
    forall i, j :: 0 <= i < j < |log| && OnlyBackward(log, i, j) ==> HandedOver(log[i], log[j])
  }

  lemma {:induction false} HandedOverApart(log: seq<CheckedAttempt>, i: int, j: int)
    requires 0 <= i < j < |log| && ExclusiveAcross(log)
    requires forall n :: 0 <= n < |log| ==> log[n].endedAt.Some?
    ensures HandedOver(log[i], log[j])
    decreases j - i
  {
    if !OnlyBackward(log, i, j) {
      var n :| i < n < j && !Backward(log[n]);
      HandedOverApart(log, i, n);
      HandedOverApart(log, n, j);
    }
  }

  /** The checker compares only neighbours. Yet a clean answer about any snapshot, reachable or not, means that all of
      a job's attempts but the last ended in a retry, that exactly the jobs in a result state have a result, and that
      no two attempts ever held the job at once exactly if none did with only backward attempts between them. */
  lemma CleanMeansExclusive(run: Snapshot, submitted: seq<int>, keys: Option<map<int, string>>, id: int)
    requires Clean(run, submitted, keys) && id in ById(run.jobs)
    ensures var job, log := ById(run.jobs)[id], LogOf(run, id);
            && (forall i :: 0 <= i < |log| ==> log[i].attempt == i + 1)
            && (Exclusive(log) <==> ExclusiveAcross(log))
            && (forall i :: 0 <= i < |log| - 1 ==> Retried(log[i].endedBy))
            && (HasResult(job.state) <==> ResultsOf(run, id) != [])
  {
    assert IdClean(run, ById(run.jobs), id);
    var log := LogOf(run, id);
    forall i | 0 <= i < |log|
      ensures log[i].endedAt.Some?
    {
      assert EndedInTime(log[i]);
    }
    if ExclusiveAcross(log) {
      forall i, j | 0 <= i < j < |log|
        ensures HandedOver(log[i], log[j])
      {
        HandedOverApart(log, i, j);
      }
    }
  }

  /** No attempt between the first and the last is backward. */
  predicate ForwardBetween(log: seq<CheckedAttempt>) { forall n :: 0 < n < |log| - 1 ==> !Backward(log[n]) }

  lemma ForwardIsAcross(log: seq<CheckedAttempt>)
    requires ForwardBetween(log) && forall j :: 0 < j < |log| ==> InTurn(log, j)
    ensures ExclusiveAcross(log)
  {
    forall i, j | 0 <= i < j < |log|
      ensures OnlyBackward(log, i, j) ==> HandedOver(log[i], log[j])
    {
      if i + 1 < j { assert !Backward(log[i + 1]); } else { assert InTurn(log, j); }
    }
  }

  /** Which is enough: the checker's comparison of neighbours is then all there is to compare. */
  lemma ForwardIsExclusive(run: Snapshot, submitted: seq<int>, keys: Option<map<int, string>>, id: int)
    requires Clean(run, submitted, keys) && id in ById(run.jobs) && ForwardBetween(LogOf(run, id))
    ensures Exclusive(LogOf(run, id))
  {
    assert IdClean(run, ById(run.jobs), id);
    CleanMeansExclusive(run, submitted, keys, id);
    ForwardIsAcross(LogOf(run, id));
  }

  // a job whose middle attempt is recorded as ended before it was claimed
  const OVERLAPPED := CheckedJob(1, DeadLettered, 3, 3, None, None)
  const FIRST := CheckedAttempt(1, 1, "a", 0, 9, Some(9), Some(ByLeaseExpiry))
  const MIDDLE := CheckedAttempt(1, 2, "b", 9, 2, Some(2), Some(ByLeaseExpiry))
  const LAST := CheckedAttempt(1, 3, "c", 2, 8, Some(8), Some(ByLeaseExpiry))
  const OVERLAP := Snapshot([OVERLAPPED], [FIRST, MIDDLE, LAST], [])

  lemma OverlapRows()
    ensures LogOf(OVERLAP, 1) == [FIRST, MIDDLE, LAST] && ResultsOf(OVERLAP, 1) == []
    ensures ById(OVERLAP.jobs) == map[1 := OVERLAPPED]
  {
    var rows := [FIRST, MIDDLE, LAST];
    assert rows[1..] == [MIDDLE, LAST] && [MIDDLE, LAST][1..] == [LAST];
    assert SortedByAttempt([LAST]) == [LAST];
    assert SortedByAttempt([MIDDLE, LAST]) == [MIDDLE, LAST];
    assert SortedByAttempt(rows) == rows;
    var none: seq<CheckedAttempt> := [LAST][1..];
    assert none == [] && JobLog(none, 1) == [];
    assert JobLog([LAST], 1) == [LAST] + JobLog(none, 1);
    assert JobLog([MIDDLE, LAST], 1) == [MIDDLE, LAST];
    assert ById(OVERLAP.jobs[..0]) == map[];
  }

  /** Neighbours alone are not enough: a snapshot the checker calls clean, in which the first and the third attempt
      held the job together across a backward one. */
  lemma CleanAloneIsNotExclusive()
    ensures Clean(OVERLAP, [1], None)
    ensures LogOf(OVERLAP, 1) == [FIRST, MIDDLE, LAST] && !HandedOver(FIRST, LAST)
  {
    OverlapRows();
    var log := [FIRST, MIDDLE, LAST];
    assert InTurn(log, 1) && InTurn(log, 2);
    assert EndingsOk(log);
    assert AddsUp(OVERLAPPED, log);
    assert IdClean(OVERLAP, ById(OVERLAP.jobs), 1);
    assert FinalJobs(ById(OVERLAP.jobs)) == {1};
  }

  // one whose third attempt was claimed after both others ended
  const HARMLESS := [
    CheckedAttempt(1, 1, "a", 0, 3, Some(3), Some(ByLeaseExpiry)),
    CheckedAttempt(1, 2, "b", 9, 5, Some(5), Some(ByLeaseExpiry)),
    CheckedAttempt(1, 3, "c", 6, 8, Some(8), Some(ByLeaseExpiry))]

  /** Nor does a backward attempt always do harm: here one stands between two that were handed over all the same. */
  lemma BackwardMayBeHarmless()
    ensures AddsUp(OVERLAPPED, HARMLESS) && forall i :: 0 < i < |HARMLESS| ==> InTurn(HARMLESS, i)
    ensures Exclusive(HARMLESS) && !ForwardBetween(HARMLESS)
  {
    assert Backward(HARMLESS[1]);
  }
}
