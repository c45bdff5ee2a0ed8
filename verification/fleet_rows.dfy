/** The fleet's tables: one datatype per row, one map per table (fleet/models.py and the migrations). */
module FleetRows {
  import opened Wrappers

  /** A reading of the database's clock, in microseconds. */
  type Time = int

  datatype JobState =
    | Queued | Claimed | Running
    | Succeeded | Failed | Escalated
    | DeadLettered | Cancelled

  /** The states a published result can put its job in. */
  type Outcome = s: JobState | HasResult(s) witness Succeeded

  /** How an attempt ended, the column ended_by. */
  datatype Ending = ByPublish | ByLeaseExpiry | ByRelease | ByCancel

  predicate Leased(s: JobState) { s.Claimed? || s.Running? }

  predicate HasResult(s: JobState) { s.Succeeded? || s.Failed? || s.Escalated? }

  predicate Final(s: JobState) { HasResult(s) || s.DeadLettered? || s.Cancelled? }

  /** Endings after which the job may run again. */
  predicate Retryable(e: Ending) { e.ByLeaseExpiry? || e.ByRelease? }

  /** Endings a worker writes itself, while its lease is live. */
  predicate WrittenLive(e: Ending) { e.ByRelease? || e.ByCancel? }

  datatype NewJob = NewJob(name: string, payload: string)

  /** A result's json body; result_key is the only part anything reads. */
  datatype Body = Body(resultKey: Option<string>, content: string)

  /** Everything the request digest covers; digests are taken as injective. */
  datatype Request = Request(name: string, jobs: seq<NewJob>, maxAttempts: int, policy: string)

  datatype RetryPolicy = RetryPolicy(backoff: nat, cap: nat)

  datatype BatchRow = BatchRow(key: Option<string>, request: Request)

  datatype JobRow = JobRow(
    batch: int, position: nat, what: NewJob, policy: string,
    state: JobState, attempt: int, maxAttempts: int,
    worker: Option<string>, lease: Option<Time>, resultId: Option<int>,
    availableAt: Time, claimedAt: Option<Time>, startedAt: Option<Time>, finishedAt: Option<Time>,
    lastError: Option<string>, cancelAt: Option<Time>)

  datatype AttemptRow = AttemptRow(
    worker: string, claimedAt: Time, lease: Time,
    endedAt: Option<Time>, endedBy: Option<Ending>, error: Option<string>)

  datatype ResultRow = ResultRow(
    job: int, attempt: int, worker: string, publishedAt: Time, outcome: Outcome, body: Body)

  /** The primary key of fleet_attempts. */
  datatype Key = Key(job: int, attempt: int)

  /** The four tables and their identity sequences. */
  datatype DB = DB(
    batches: map<int, BatchRow>, jobs: map<int, JobRow>,
    attempts: map<Key, AttemptRow>, results: map<int, ResultRow>,
    nextBatch: int, nextJob: int, nextResult: int)

  const EMPTY: DB := DB(map[], map[], map[], map[], 1, 1, 1)

  /** A lease that has not run out at the given reading. */
  predicate LiveRow(r: JobRow, at: Time) {
    Leased(r.state) && r.lease.Some? && r.lease.value > at
  }

  /** This attempt holds its job's live lease. */
  predicate Live(db: DB, k: Key, at: Time) {
    k.job in db.jobs && db.jobs[k.job].attempt == k.attempt && LiveRow(db.jobs[k.job], at)
  }

  predicate EndedBy(db: DB, k: Key, e: Ending) {
    k in db.attempts && db.attempts[k].endedBy == Some(e)
  }

  lemma MinimumExists(s: set<int>)
    requires s != {}
    ensures exists m :: m in s && forall x :: x in s ==> m <= x
  {
    var x := MemberOf(s);
    if s == {x} {
      assert x in s && forall y :: y in s ==> x <= y;
    } else {
      var rest := s - {x};
      MinimumExists(rest);
      var m :| m in rest && forall y :: y in rest ==> m <= y;
      var low := if x <= m then x else m;
      assert low in s;
      assert forall y :: y in s ==> y == x || y in rest;
    }
  }

  /** "order by id limit 1". */
  function Least(s: set<int>): (m: Option<int>)
    ensures s == {} <==> m.None?
    ensures m.Some? ==> m.value in s && forall x :: x in s ==> m.value <= x
  {
    if s == {} then None
    else
      MinimumExists(s);
      var m :| m in s && forall x :: x in s ==> m <= x;
      Some(m)
  }

  predicate Rising(order: seq<int>) { forall i, j :: 0 <= i < j < |order| ==> order[i] < order[j] }

  /** sorted(...), of ids that differ. */
  function InOrder(ids: set<int>): (order: seq<int>)
    ensures Rising(order) && |order| == |ids|
    ensures forall i :: 0 <= i < |order| ==> order[i] in ids
    ensures forall id :: id in ids ==> id in order
  {
    if ids == {} then []
    else
      var first := Least(ids).value;
      var rest := InOrder(ids - {first});
      assert forall i :: 0 <= i < |rest| ==> rest[i] in ids && rest[i] != first;
      assert ([first] + rest)[0] == first;
      assert forall id :: id in ids ==> id == first || id in rest;
      [first] + rest
  }
}
