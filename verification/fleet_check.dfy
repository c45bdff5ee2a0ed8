/** The checker the repository ships (fleet/invariants.py): every broken invariant of a drained run,
    from nothing but the rows the database recorded. The checker is methods and comprehensions over
    lists, as in the source; Clean says what an empty answer means. */
module FleetCheck {
  import opened Wrappers
  import opened FleetRows

  datatype CheckedJob = CheckedJob(
    id: int, state: JobState, attempt: int, maxAttempts: int, resultId: Option<int>, cancelAt: Option<Time>)

  datatype CheckedAttempt = CheckedAttempt(
    job: int, attempt: int, worker: string, claimedAt: Time, lease: Time, endedAt: Option<Time>, endedBy: Option<Ending>)

  datatype CheckedResult = CheckedResult(
    id: int, job: int, attempt: int, worker: string, publishedAt: Time, outcome: JobState, key: Option<string>)

  datatype Snapshot = Snapshot(jobs: seq<CheckedJob>, attempts: seq<CheckedAttempt>, results: seq<CheckedResult>)

  datatype Invariant = NothingLost | OneResult | NoStaleWrite | Accounting

  datatype Violation = Violation(broken: Invariant, job: Option<int>, detail: string)

  // ---- list comprehensions ----

  /** [v for x in xs for v in f(x)] */
  function Collect<T>(xs: seq<T>, f: T -> seq<Violation>): (found: seq<Violation>)
    ensures found == [] <==> forall x :: x in xs ==> f(x) == []
  {
    if xs == [] then [] else f(xs[0]) + Collect(xs[1..], f)
  }

  /** [x for x in xs if p(x)] */
  function Where<T>(xs: seq<T>, p: T -> bool): seq<T> {
    if xs == [] then [] else (if p(xs[0]) then [xs[0]] else []) + Where(xs[1..], p)
  }

  lemma {:induction false} WhereHas<T>(xs: seq<T>, p: T -> bool, x: T)
    ensures x in Where(xs, p) <==> x in xs && p(x)
  {
    if xs != [] {
      WhereHas(xs[1..], p, x);
      assert x in xs <==> x == xs[0] || x in xs[1..];
    }
  }

  lemma {:induction false} WhereSnoc<T>(xs: seq<T>, x: T, p: T -> bool)
    ensures Where(xs + [x], p) == Where(xs, p) + if p(x) then [x] else []
  {
    if xs == [] {
      assert [x][1..] == [];
    } else {
      WhereSnoc(xs[1..], x, p);
      assert (xs + [x])[1..] == xs[1..] + [x];
    }
  }

  predicate Ascending(s: seq<CheckedAttempt>) {
    forall i, j :: 0 <= i < j < |s| ==> s[i].attempt <= s[j].attempt
  }

  /** sorted(rows, key=lambda row: row.attempt), by insertion: each row before those after it in the list. */
  function SortedByAttempt(rows: seq<CheckedAttempt>): (s: seq<CheckedAttempt>)
    ensures Ascending(s) && forall x :: x in s <==> x in rows
  {
    if rows == [] then [] else InsertByAttempt(rows[0], SortedByAttempt(rows[1..]))
  }

  lemma InFront(row: CheckedAttempt, s: seq<CheckedAttempt>, head: CheckedAttempt, tail: seq<CheckedAttempt>, rest: seq<CheckedAttempt>)
    requires s == [head] + tail && Ascending(s) && Ascending(rest) && head.attempt <= row.attempt
    requires forall x :: x in rest <==> x == row || x in tail
    ensures Ascending([head] + rest) && forall x :: x in [head] + rest <==> x == row || x in s
  {
    assert s[0] == head;
    forall i | 0 <= i < |rest|
      ensures head.attempt <= rest[i].attempt
    {
      assert rest[i] in rest;
      if rest[i] != row {
        var k :| 0 <= k < |tail| && tail[k] == rest[i];
        assert s[k + 1] == rest[i] && s[0].attempt <= s[k + 1].attempt;
      }
    }
  }

  /** Before every row numbered no lower: an earlier row of the list stays ahead of its equals. */
  function InsertByAttempt(row: CheckedAttempt, s: seq<CheckedAttempt>): (r: seq<CheckedAttempt>)
    requires Ascending(s)
    ensures Ascending(r) && forall x :: x in r <==> x == row || x in s
  {
    if s == [] || row.attempt <= s[0].attempt then [row] + s
    else
      var rest := InsertByAttempt(row, s[1..]);
      InFront(row, s, s[0], s[1..], rest);
      [s[0]] + rest
  }

  lemma {:induction false} InsertKeepsEvery(row: CheckedAttempt, s: seq<CheckedAttempt>)
    requires Ascending(s)
    ensures multiset(InsertByAttempt(row, s)) == multiset{row} + multiset(s)
  {
    if s != [] && s[0].attempt < row.attempt {
      InsertKeepsEvery(row, s[1..]);
      assert s == [s[0]] + s[1..];
    }
  }

  /** Sorting keeps every row, as often as it came. */
  lemma {:induction false} SortKeepsEvery(rows: seq<CheckedAttempt>)
    ensures multiset(SortedByAttempt(rows)) == multiset(rows)
  {
    if rows != [] {
      SortKeepsEvery(rows[1..]);
      InsertKeepsEvery(rows[0], SortedByAttempt(rows[1..]));
      assert rows == [rows[0]] + rows[1..];
    }
  }

  /** The rows with this number, in order. */
  function Numbered(rows: seq<CheckedAttempt>, number: int): seq<CheckedAttempt> {
    if rows == [] then []
    else (if rows[0].attempt == number then [rows[0]] else []) + Numbered(rows[1..], number)
  }

  lemma {:induction false} InsertIsStable(row: CheckedAttempt, s: seq<CheckedAttempt>, number: int)
    requires Ascending(s)
    ensures Numbered(InsertByAttempt(row, s), number) == Numbered([row] + s, number)
  {
    assert ([row] + s)[1..] == s;
    if s != [] && s[0].attempt < row.attempt {
      var rest := InsertByAttempt(row, s[1..]);
      InsertIsStable(row, s[1..], number);
      assert ([row] + s[1..])[1..] == s[1..] && ([s[0]] + rest)[1..] == rest;
    }
  }

  /** Sorting is stable: rows with the same number stay in the order they came in. */
  lemma {:induction false} SortIsStable(rows: seq<CheckedAttempt>, number: int)
    ensures Numbered(SortedByAttempt(rows), number) == Numbered(rows, number)
  {
    if rows != [] {
      var rest := SortedByAttempt(rows[1..]);
      SortIsStable(rows[1..], number);
      InsertIsStable(rows[0], rest, number);
      assert ([rows[0]] + rest)[1..] == rest;
    }
  }

  // ---- what the checker looks for ----

  /** {row.attempt: row for row in log} */
  function ByNumber(log: seq<CheckedAttempt>): map<int, CheckedAttempt> {
    if log == [] then map[] else ByNumber(log[..|log| - 1])[log[|log| - 1].attempt := log[|log| - 1]]
  }

  /** {row.id: row for row in rows} */
  function ById(rows: seq<CheckedJob>): (m: map<int, CheckedJob>)
    ensures forall id :: id in m ==> m[id].id == id && m[id] in rows
    ensures forall row :: row in rows ==> row.id in m
  {
    if rows == [] then map[]
    else
      assert rows == rows[..|rows| - 1] + [rows[|rows| - 1]];
      ById(rows[..|rows| - 1])[rows[|rows| - 1].id := rows[|rows| - 1]]
  }

  /** Of rows with the same id the last one counts. */
  lemma {:induction false} LastRowWins(rows: seq<CheckedJob>, k: nat)
    requires k < |rows| && forall n :: k < n < |rows| ==> rows[n].id != rows[k].id
    ensures rows[k].id in ById(rows) && ById(rows)[rows[k].id] == rows[k]
  {
    if k < |rows| - 1 { LastRowWins(rows[..|rows| - 1], k); }
  }

  /** A job in a result state has one result, its own, with its outcome; no other job has any. */
  predicate HasOneResult(job: CheckedJob, results: seq<CheckedResult>) {
    if !HasResult(job.state) then results == []
    else |results| == 1 && job.resultId == Some(results[0].id) && results[0].outcome == job.state
  }

  /** A result was published by the job's last attempt, under that attempt's worker, before its lease
      ran out and before any cancel; and that publish is what ended the attempt. */
  predicate FreshResult(job: CheckedJob, log: seq<CheckedAttempt>, result: CheckedResult) {
    && result.attempt == job.attempt && result.attempt in ByNumber(log)
    && var owner := ByNumber(log)[result.attempt];
    && result.worker == owner.worker && result.publishedAt < owner.lease
    && owner.endedBy == Some(ByPublish) && owner.endedAt == Some(result.publishedAt)
    && (job.cancelAt.Some? ==> result.publishedAt < job.cancelAt.value)
  }

  /** The next attempt was claimed only after this one ended. */
  predicate HandedOver(earlier: CheckedAttempt, later: CheckedAttempt) {
    earlier.endedAt.Some? && earlier.endedAt.value <= later.claimedAt
  }

  predicate InTurn(log: seq<CheckedAttempt>, i: int) {
    0 < i < |log| && HandedOver(log[i - 1], log[i])
  }

  predicate Unstale(job: CheckedJob, log: seq<CheckedAttempt>, results: seq<CheckedResult>) {
    && (forall i :: 0 <= i < |results| ==> FreshResult(job, log, results[i]))
    && (forall i :: 0 < i < |log| ==> InTurn(log, i))
  }

  predicate EndedInTime(a: CheckedAttempt) {
    && a.endedAt.Some?
    && (a.endedBy == Some(ByLeaseExpiry) ==> a.lease <= a.endedAt.value)
    && (a.endedBy.Some? && WrittenLive(a.endedBy.value) ==> a.endedAt.value < a.lease)
  }

  predicate Retried(how: Option<Ending>) { how.Some? && Retryable(how.value) }

  predicate EndingsOk(log: seq<CheckedAttempt>) {
    && (forall i :: 0 <= i < |log| ==> EndedInTime(log[i]))
    && (forall i :: 0 <= i < |log| - 1 ==> Retried(log[i].endedBy))
  }

  predicate FinalAgrees(job: CheckedJob, any: bool, last: Option<Ending>) {
    && (HasResult(job.state) ==> last == Some(ByPublish))
    && (job.state.DeadLettered? ==> job.maxAttempts <= job.attempt && Retried(last) && job.cancelAt.None?)
    && (job.state.Cancelled? ==> job.cancelAt.Some? && (any ==> Retried(last) || last == Some(ByCancel)))
    && (!job.state.Cancelled? ==> last != Some(ByCancel))
  }

  predicate AddsUp(job: CheckedJob, log: seq<CheckedAttempt>) {
    && |log| == (if job.attempt < 0 then 0 else job.attempt) && (forall i :: 0 <= i < |log| ==> log[i].attempt == i + 1)
    && job.attempt <= job.maxAttempts
    && EndingsOk(log)
    && FinalAgrees(job, log != [], if log == [] then None else log[|log| - 1].endedBy)
  }

  function JobLog(rows: seq<CheckedAttempt>, id: int): seq<CheckedAttempt> {
    Where(rows, (a: CheckedAttempt) => a.job == id)
  }

  lemma JobLogHas(rows: seq<CheckedAttempt>, id: int)
    ensures forall a :: a in JobLog(rows, id) <==> a in rows && a.job == id
  {
    forall a ensures a in JobLog(rows, id) <==> a in rows && a.job == id {
      WhereHas(rows, (a: CheckedAttempt) => a.job == id, a);
    }
  }

  function JobResults(rows: seq<CheckedResult>, id: int): seq<CheckedResult> {
    Where(rows, (r: CheckedResult) => r.job == id)
  }

  lemma JobResultsHas(rows: seq<CheckedResult>, id: int)
    ensures forall r :: r in JobResults(rows, id) <==> r in rows && r.job == id
  {
    forall r ensures r in JobResults(rows, id) <==> r in rows && r.job == id {
      WhereHas(rows, (r: CheckedResult) => r.job == id, r);
    }
  }

  function LogOf(run: Snapshot, id: int): seq<CheckedAttempt> { JobLog(SortedByAttempt(run.attempts), id) }

  function ResultsOf(run: Snapshot, id: int): seq<CheckedResult> { JobResults(run.results, id) }

  predicate RecordsClean(run: Snapshot, job: CheckedJob) {
    && HasOneResult(job, ResultsOf(run, job.id))
    && Unstale(job, LogOf(run, job.id), ResultsOf(run, job.id)) && AddsUp(job, LogOf(run, job.id))
  }

  predicate IdClean(run: Snapshot, jobs: map<int, CheckedJob>, id: int) {
    id in jobs && RecordsClean(run, jobs[id])
  }

  /** Each result carries its own job's key, and no key is carried twice. */
  predicate KeysClean(results: seq<CheckedResult>, keys: map<int, string>) {
    && (forall r :: r in results ==> OwnKey(r, keys))
    && (forall i, j :: 0 <= i < j < |results| ==> results[i].key.Some? ==> results[i].key != results[j].key)
  }

  function FinalJobs(jobs: map<int, CheckedJob>): set<int> {
    set id | id in jobs && Final(jobs[id].state)
  }

  /** What an empty answer means. */
  predicate Clean(run: Snapshot, submitted: seq<int>, keys: Option<map<int, string>>) {
    var jobs := ById(run.jobs);
    && (forall id :: id in submitted ==> id in jobs)
    && (forall id :: id in jobs ==> Final(jobs[id].state))
    && (forall id :: id in jobs ==> IdClean(run, jobs, id))
    && |FinalJobs(jobs)| == |submitted| == |jobs|
    && (keys.Some? ==> KeysClean(run.results, keys.value))
  }

  // ---- the checker ----

  function MissingJobs(jobs: map<int, CheckedJob>, submitted: seq<int>): seq<Violation> {
    Collect(submitted, (id: int) =>
      if id in jobs then [] else [Violation(NothingLost, Some(id), "submitted but not in the store")])
  }

  function UnfinishedJobs(jobs: map<int, CheckedJob>, order: seq<int>): seq<Violation> {
    Collect(order, (id: int) =>
      if id in jobs && !Final(jobs[id].state) then [Violation(NothingLost, Some(id), "left unfinished")] else [])
  }

  function CheckOneResult(job: CheckedJob, results: seq<CheckedResult>): (found: seq<Violation>)
    ensures found == [] <==> HasOneResult(job, results)
    ensures forall v :: v in found ==> v.broken == OneResult && v.job == Some(job.id)
  {
    var bad := (detail: string) => [Violation(OneResult, Some(job.id), detail)];
    if !HasResult(job.state) then if results != [] then bad("without a result state, yet it has a result") else []
    else if |results| != 1 then bad("not exactly one result")
    else if Some(results[0].id) != job.resultId then bad("points at a result not its own")
    else if results[0].outcome != job.state then bad("its result says otherwise")
    else []
  }

  method CheckNoStaleWrite(job: CheckedJob, log: seq<CheckedAttempt>, results: seq<CheckedResult>)
    returns (found: seq<Violation>)
    ensures found == [] <==> Unstale(job, log, results)
    ensures forall v :: v in found ==> v.broken == NoStaleWrite && v.job == Some(job.id)
  {
    var details: seq<string> := [];
    var attempts := ByNumber(log);
    for i := 0 to |results|
      invariant details == [] <==> forall n :: 0 <= n < i ==> FreshResult(job, log, results[n])
    {
      var result := results[i];
      if result.attempt != job.attempt { details := details + ["published by an attempt that is not the last"]; }
      if result.attempt !in attempts {
        details := details + ["published by an attempt with no record"];
        continue;
      }
      var owner := attempts[result.attempt];
      if result.worker != owner.worker { details := details + ["published by a worker that did not hold it"]; }
      if result.publishedAt >= owner.lease { details := details + ["published after its lease ran out"]; }
      if (owner.endedBy, owner.endedAt) != (Some(ByPublish), Some(result.publishedAt)) {
        details := details + ["its attempt was not ended by its own publish"];
      }
      if job.cancelAt.Some? && result.publishedAt >= job.cancelAt.value {
        details := details + ["published after its cancel was requested"];
      }
    }
    ghost var unstale := details == [];
    for i := 1 to if log == [] then 1 else |log|
      invariant details == [] <==> unstale && forall n :: 0 < n < i ==> InTurn(log, n)
    {
      assert InTurn(log, i) <==> HandedOver(log[i - 1], log[i]);
      if log[i - 1].endedAt.None? || log[i].claimedAt < log[i - 1].endedAt.value {
        details := details + ["claimed while the attempt before still held it"];
      }
    }
    found := Collect(details, (detail: string) => [Violation(NoStaleWrite, Some(job.id), detail)]);
    CollectTags(details, NoStaleWrite, job.id);
    assert details != [] ==> details[0] in details;
  }

  lemma {:induction false} CollectTags(details: seq<string>, broken: Invariant, id: int)
    ensures forall v :: v in Collect(details, (detail: string) => [Violation(broken, Some(id), detail)]) ==>
                          v.broken == broken && v.job == Some(id)
  {
    if details != [] { CollectTags(details[1..], broken, id); }
  }

  /** The two loops over the log: how each attempt ended, and that all but the last let the job run again. */
  method CheckEndings(log: seq<CheckedAttempt>) returns (details: seq<string>)
    ensures details == [] <==> EndingsOk(log)
  {
    details := [];
    for i := 0 to |log|
      invariant details == [] <==> forall n :: 0 <= n < i ==> EndedInTime(log[n])
    {
      var a := log[i];
      if a.endedAt.None? {
        details := details + ["an attempt never ended"];
      } else if a.endedBy == Some(ByLeaseExpiry) && a.endedAt.value < a.lease {
        details := details + ["reaped before its lease ran out"];
      } else if a.endedBy.Some? && WrittenLive(a.endedBy.value) && a.endedAt.value >= a.lease {
        details := details + ["ended by its worker after its lease ran out"];
      }
    }
    ghost var before := details == [];
    for i := 0 to if log == [] then 0 else |log| - 1
      invariant details == [] <==> before && forall n :: 0 <= n < i ==> Retried(log[n].endedBy)
    {
      if !Retried(log[i].endedBy) { details := details + ["ended for good, yet the job ran again"]; }
    }
  }

  /** The job's final state against how its last attempt ended. */
  method CheckFinal(job: CheckedJob, any: bool, last: Option<Ending>) returns (details: seq<string>)
    ensures details == [] <==> FinalAgrees(job, any, last)
  {
    details := [];
    if HasResult(job.state) && last != Some(ByPublish) { details := details + ["its last attempt did not publish"]; }
    if job.state.DeadLettered? {
      if job.attempt < job.maxAttempts { details := details + ["dead-lettered within its budget"]; }
      if !Retried(last) { details := details + ["dead-lettered after no failure"]; }
      if job.cancelAt.Some? { details := details + ["dead-lettered though its cancel was requested"]; }
    }
    if job.state.Cancelled? {
      if job.cancelAt.None? { details := details + ["cancelled without a cancel request"]; }
      if any && !Retried(last) && last != Some(ByCancel) { details := details + ["cancelled after a result"]; }
    } else if last == Some(ByCancel) {
      details := details + ["its last attempt ended cancelled"];
    }
  }

  method CheckAccounting(job: CheckedJob, log: seq<CheckedAttempt>) returns (found: seq<Violation>)
    ensures found == [] <==> AddsUp(job, log)
    ensures forall v :: v in found ==> v.broken == Accounting && v.job == Some(job.id)
  {
    hide EndingsOk, FinalAgrees, Retried;
    var details: seq<string> := [];
    var numbers := seq(|log|, i requires 0 <= i < |log| => log[i].attempt);
    var expected := seq(if job.attempt < 0 then 0 else job.attempt, i => i + 1);
    SameNumbers(log, numbers, expected);
    if numbers != expected { details := details + ["the attempt log is not numbered from 1 to the job's attempt"]; }
    if job.attempt > job.maxAttempts { details := details + ["over its budget"]; }
    var endings := CheckEndings(log);
    var final := CheckFinal(job, log != [], if log == [] then None else log[|log| - 1].endedBy);
    details := details + endings + final;
    found := Collect(details, (detail: string) => [Violation(Accounting, Some(job.id), detail)]);
    CollectTags(details, Accounting, job.id);
    assert details != [] ==> details[0] in details;
  }

  lemma SameNumbers(log: seq<CheckedAttempt>, numbers: seq<int>, expected: seq<int>)
    requires |numbers| == |log| && (forall i :: 0 <= i < |log| ==> numbers[i] == log[i].attempt)
    requires forall i :: 0 <= i < |expected| ==> expected[i] == i + 1
    ensures numbers == expected <==> |log| == |expected| && forall i :: 0 <= i < |log| ==> log[i].attempt == i + 1
  {
    if |log| == |expected| && forall i :: 0 <= i < |log| ==> log[i].attempt == i + 1 {
      forall i | 0 <= i < |log|
        ensures numbers[i] == expected[i]
      {
        assert log[i].attempt == i + 1;
      }
    }
    if numbers == expected {
      forall i | 0 <= i < |log|
        ensures log[i].attempt == i + 1
      {
        assert numbers[i] == expected[i];
      }
    }
  }

  predicate OwnKey(r: CheckedResult, keys: map<int, string>) {
    r.key == if r.job in keys then Some(keys[r.job]) else None
  }

  function CheckResultKeys(results: seq<CheckedResult>, keys: map<int, string>): (found: seq<Violation>)
    ensures found == [] <==> KeysClean(results, keys)
  {
    var wrong := Collect(results, (r: CheckedResult) =>
      if OwnKey(r, keys) then [] else [Violation(OneResult, Some(r.job), "carries a key not its own")]);
    var twice := Collect(results, (r: CheckedResult) =>
      if r.key.None? || Times(results, r.key) <= 1 then [] else [Violation(OneResult, None, "a key was published twice")]);
    TimesPairwise(results);
    assert wrong == [] <==> forall r :: r in results ==> OwnKey(r, keys);
    assert twice == [] <==> forall r :: r in results ==> r.key.None? || Times(results, r.key) <= 1;
    wrong + twice
  }

  /** How often a key was published. */
  function Times(results: seq<CheckedResult>, key: Option<string>): nat {
    if results == [] then 0 else (if results[0].key == key then 1 else 0) + Times(results[1..], key)
  }

  lemma {:induction false} TimesAt(results: seq<CheckedResult>, key: Option<string>)
    ensures Times(results, key) == 0 <==> forall i :: 0 <= i < |results| ==> results[i].key != key
    ensures Times(results, key) <= 1 <==> forall i, j :: 0 <= i < j < |results| ==> !(results[i].key == key == results[j].key)
  {
    if results != [] {
      var rest := results[1..];
      TimesAt(rest, key);
      assert forall i :: 0 < i < |results| ==> results[i] == rest[i - 1];
      assert forall i :: 0 <= i < |rest| ==> rest[i] == results[i + 1];
      if results[0].key == key && Times(rest, key) > 0 {
        var j :| 0 <= j < |rest| && rest[j].key == key;
        assert 0 < j + 1 < |results| && results[0].key == key == results[j + 1].key;
      }
    }
  }

  lemma TimesPairwise(results: seq<CheckedResult>)
    ensures (forall r :: r in results ==> r.key.None? || Times(results, r.key) <= 1) <==>
            (forall i, j :: 0 <= i < j < |results| ==> results[i].key.Some? ==> results[i].key != results[j].key)
  {
    forall r | r in results
      ensures Times(results, r.key) <= 1 <==> forall i, j :: 0 <= i < j < |results| ==> !(results[i].key == r.key == results[j].key)
    {
      TimesAt(results, r.key);
    }
    if forall r :: r in results ==> r.key.None? || Times(results, r.key) <= 1 {
      forall i, j | 0 <= i < j < |results| && results[i].key.Some?
        ensures results[i].key != results[j].key
      {
        assert results[i] in results;
      }
    }
  }

  function CheckTotals(jobs: map<int, CheckedJob>, submitted: seq<int>): seq<Violation> {
    if |FinalJobs(jobs)| == |submitted| == |jobs| then [] else [Violation(Accounting, None, "submitted and final jobs differ")]
  }

  lemma JobLogGrows(rows: seq<CheckedAttempt>, i: nat)
    requires i < |rows|
    ensures forall id :: JobLog(rows[..i + 1], id) == JobLog(rows[..i], id) + if rows[i].job == id then [rows[i]] else []
  {
    assert rows[..i + 1] == rows[..i] + [rows[i]];
    forall id ensures JobLog(rows[..i + 1], id) == JobLog(rows[..i], id) + if rows[i].job == id then [rows[i]] else [] {
      WhereSnoc(rows[..i], rows[i], (a: CheckedAttempt) => a.job == id);
    }
  }

  lemma JobResultsGrow(rows: seq<CheckedResult>, i: nat)
    requires i < |rows|
    ensures forall id :: JobResults(rows[..i + 1], id) == JobResults(rows[..i], id) + if rows[i].job == id then [rows[i]] else []
  {
    assert rows[..i + 1] == rows[..i] + [rows[i]];
    forall id ensures JobResults(rows[..i + 1], id) == JobResults(rows[..i], id) + if rows[i].job == id then [rows[i]] else [] {
      WhereSnoc(rows[..i], rows[i], (r: CheckedResult) => r.job == id);
    }
  }

  predicate AllIn(order: seq<int>, ids: set<int>) { forall i :: 0 <= i < |order| ==> order[i] in ids }

  /** The sequence holds exactly these ids. */
  predicate Lists(order: seq<int>, ids: set<int>) { AllIn(order, ids) && forall id :: id in ids ==> id in order }

  lemma ListsOne(order: seq<int>, ids: set<int>, id: int)
    requires Lists(order, ids)
    ensures Lists(order + [id], ids + {id})
  {
    assert (order + [id])[|order|] == id;
  }

  method IndexJobs(rows: seq<CheckedJob>) returns (jobs: map<int, CheckedJob>, order: seq<int>)
    ensures jobs == ById(rows) && Lists(order, jobs.Keys)
  {
    jobs, order := map[], [];
    for i := 0 to |rows|
      invariant jobs == ById(rows[..i])
      invariant Lists(order, jobs.Keys)
    {
      assert rows[..i + 1][..i] == rows[..i];
      if rows[i].id !in jobs {
        ListsOne(order, jobs.Keys, rows[i].id);
        order := order + [rows[i].id];
      }
      jobs := jobs[rows[i].id := rows[i]];
    }
    assert rows[..|rows|] == rows;
  }

  method GroupLogs(rows: seq<CheckedAttempt>) returns (logs: map<int, seq<CheckedAttempt>>)
    ensures forall id :: JobLog(rows, id) == if id in logs then logs[id] else []
  {
    logs := map[];
    for i := 0 to |rows|
      invariant forall id :: JobLog(rows[..i], id) == if id in logs then logs[id] else []
    {
      var id := rows[i].job;
      JobLogGrows(rows, i);
      logs := logs[id := (if id in logs then logs[id] else []) + [rows[i]]];
    }
    assert rows[..|rows|] == rows;
  }

  method GroupResults(rows: seq<CheckedResult>) returns (results: map<int, seq<CheckedResult>>)
    ensures forall id :: JobResults(rows, id) == if id in results then results[id] else []
  {
    results := map[];
    for i := 0 to |rows|
      invariant forall id :: JobResults(rows[..i], id) == if id in results then results[id] else []
    {
      var id := rows[i].job;
      JobResultsGrow(rows, i);
      results := results[id := (if id in results then results[id] else []) + [rows[i]]];
    }
    assert rows[..|rows|] == rows;
  }

  predicate Grouped(run: Snapshot, logs: map<int, seq<CheckedAttempt>>, results: map<int, seq<CheckedResult>>, id: int) {
    && LogOf(run, id) == (if id in logs then logs[id] else [])
    && ResultsOf(run, id) == (if id in results then results[id] else [])
  }

  ghost predicate AllGrouped(run: Snapshot, logs: map<int, seq<CheckedAttempt>>, results: map<int, seq<CheckedResult>>) {
    forall id :: Grouped(run, logs, results, id)
  }

  method CheckJob(run: Snapshot, job: CheckedJob, logs: map<int, seq<CheckedAttempt>>, results: map<int, seq<CheckedResult>>)
    returns (found: seq<Violation>)
    requires Grouped(run, logs, results, job.id)
    ensures found == [] <==> RecordsClean(run, job)
  {
    var log := if job.id in logs then logs[job.id] else [];
    var own := if job.id in results then results[job.id] else [];
    var one := CheckOneResult(job, own);
    var stale := CheckNoStaleWrite(job, log, own);
    var sums := CheckAccounting(job, log);
    found := one + stale + sums;
  }

  method Group(run: Snapshot) returns (logs: map<int, seq<CheckedAttempt>>, results: map<int, seq<CheckedResult>>)
    ensures AllGrouped(run, logs, results)
  {
    logs := GroupLogs(SortedByAttempt(run.attempts));
    results := GroupResults(run.results);
  }

  /** The checks of one job, added to what was found before it. */
  method CheckMore(run: Snapshot, jobs: map<int, CheckedJob>, id: int, sofar: seq<Violation>,
                   logs: map<int, seq<CheckedAttempt>>, results: map<int, seq<CheckedResult>>)
    returns (found: seq<Violation>)
    requires id in jobs && AllGrouped(run, logs, results)
    ensures found == [] <==> sofar == [] && IdClean(run, jobs, id)
  {
    assert Grouped(run, logs, results, jobs[id].id);
    found := CheckJob(run, jobs[id], logs, results);
    found := sofar + found;
  }

  /** The first so many of these jobs are clean. */
  predicate CleanUpto(run: Snapshot, jobs: map<int, CheckedJob>, order: seq<int>, count: nat)
    requires AllIn(order, jobs.Keys) && count <= |order|
  {
    count == 0 || (CleanUpto(run, jobs, order, count - 1) && IdClean(run, jobs, order[count - 1]))
  }

  /** The checks of each job against its own attempts and results. */
  method CheckRecords(run: Snapshot, jobs: map<int, CheckedJob>, order: seq<int>) returns (found: seq<Violation>)
    requires AllIn(order, jobs.Keys)
    ensures found == [] <==> CleanUpto(run, jobs, order, |order|)
  {
    var logs, results := Group(run);
    found := [];
    for i := 0 to |order|
      invariant found == [] <==> CleanUpto(run, jobs, order, i)
    {
      found := CheckMore(run, jobs, order[i], found, logs, results);
    }
  }

  lemma {:induction false} CleanOneByOne(run: Snapshot, jobs: map<int, CheckedJob>, order: seq<int>, count: nat)
    requires AllIn(order, jobs.Keys) && count <= |order|
    ensures CleanUpto(run, jobs, order, count) <==> forall n :: 0 <= n < count ==> IdClean(run, jobs, order[n])
  {
    if count > 0 { CleanOneByOne(run, jobs, order, count - 1); }
  }

  lemma EveryListed(run: Snapshot, jobs: map<int, CheckedJob>, order: seq<int>)
    requires Lists(order, jobs.Keys)
    ensures (forall n :: 0 <= n < |order| ==> IdClean(run, jobs, order[n])) <==>
            (forall id :: id in jobs ==> IdClean(run, jobs, id))
  {
    if forall n :: 0 <= n < |order| ==> IdClean(run, jobs, order[n]) {
      forall id | id in jobs
        ensures IdClean(run, jobs, id)
      {
        var n :| 0 <= n < |order| && order[n] == id;
      }
    }
    if forall id :: id in jobs ==> IdClean(run, jobs, id) {
      forall n | 0 <= n < |order|
        ensures IdClean(run, jobs, order[n])
      {
        assert order[n] in jobs.Keys;
      }
    }
  }

  lemma NoneUnfinished(jobs: map<int, CheckedJob>, order: seq<int>)
    requires Lists(order, jobs.Keys)
    ensures UnfinishedJobs(jobs, order) == [] <==> forall id :: id in jobs ==> Final(jobs[id].state)
  {
    var f := (id: int) =>
      if id in jobs && !Final(jobs[id].state) then [Violation(NothingLost, Some(id), "left unfinished")] else [];
    assert UnfinishedJobs(jobs, order) == Collect(order, f);
    if UnfinishedJobs(jobs, order) == [] {
      forall id | id in jobs
        ensures Final(jobs[id].state)
      {
        assert id in order && f(id) == [];
      }
    }
    if forall id :: id in jobs ==> Final(jobs[id].state) {
      forall id | id in order
        ensures f(id) == []
      {}
    }
  }

  /** Every broken invariant, and nothing exactly when the run is clean. */
  method Check(run: Snapshot, submitted: seq<int>, keys: Option<map<int, string>>) returns (found: seq<Violation>)
    ensures found == [] <==> Clean(run, submitted, keys)
  {
    var jobs, order := IndexJobs(run.jobs);
    var records := CheckRecords(run, jobs, order);
    CleanOneByOne(run, jobs, order, |order|);
    EveryListed(run, jobs, order);
    NoneUnfinished(jobs, order);
    NoneMissing(jobs, submitted);
    found := MissingJobs(jobs, submitted) + UnfinishedJobs(jobs, order) + records + CheckTotals(jobs, submitted);
    if keys.Some? { found := found + CheckResultKeys(run.results, keys.value); }
  }

  lemma NoneMissing(jobs: map<int, CheckedJob>, submitted: seq<int>)
    ensures MissingJobs(jobs, submitted) == [] <==> forall id :: id in submitted ==> id in jobs
  {
    var f := (id: int) =>
      if id in jobs then [] else [Violation(NothingLost, Some(id), "submitted but not in the store")];
    assert MissingJobs(jobs, submitted) == Collect(submitted, f);
    if forall id :: id in submitted ==> id in jobs {
      forall id | id in submitted
        ensures f(id) == []
      {}
    }
    if MissingJobs(jobs, submitted) == [] {
      forall id | id in submitted
        ensures id in jobs
      {
        assert f(id) == [];
      }
    }
  }
}
