/** Every job gets somewhere: a measure that every effective call lowers, a bound on how often a job's
    state can change, and a way to drain the queue from any reachable state. */
module FleetProgress {
  import opened Wrappers
  import opened FleetRows
  import opened FleetTransactions
  import opened FleetProtocol
  import opened FleetSafety

  /** How many calls can still change the job's state or start another attempt. */
  function Rank(r: JobRow): int {
    if Final(r.state) then 0
    else 3 * (r.maxAttempts - r.attempt) + (if r.state.Queued? then 1 else if r.state.Running? then 2 else 3)
  }

  predicate ChangedPlace(r: JobRow, r': JobRow) { r'.state != r.state || r'.attempt != r.attempt }

  /** A row either stays where it is or moves down the measure. */
  predicate Descends(r: JobRow, r': JobRow) {
    0 <= Rank(r') && if ChangedPlace(r, r') then Rank(r') < Rank(r) else Rank(r') == Rank(r)
  }

  lemma StaysDescends(r: JobRow)
    requires RowOk(r)
    ensures Descends(r, r)
  {}

  lemma EndedDescends(db: DB, chosen: set<int>, how: Ending, error: string, retry: RetryPolicy, at: Time, j: int)
    requires chosen <= db.jobs.Keys && j in db.jobs && RowOk(db.jobs[j]) && (j in chosen ==> Leased(db.jobs[j].state))
    ensures Descends(db.jobs[j], EndAttempts(db, chosen, how, error, retry, at).jobs[j])
  {}

  lemma PublishDescends(db: DB, k: Key, worker: string, outcome: Outcome, body: Body, at: Time, j: int)
    requires j in db.jobs && RowOk(db.jobs[j])
    ensures Descends(db.jobs[j], PublishTx(db, k, worker, outcome, body, at).0.jobs[j])
  {}

  lemma ClaimDescends(db: DB, worker: string, lease: nat, locked: set<int>, at: Time, j: int)
    requires j in db.jobs && RowOk(db.jobs[j])
    ensures Descends(db.jobs[j], ClaimTx(db, worker, lease, locked, at).0.jobs[j])
    ensures Claimable(db, locked, at) != {} ==>
              exists i :: i in Claimable(db, locked, at) && ChangedPlace(db.jobs[i], ClaimTx(db, worker, lease, locked, at).0.jobs[i])
  {}

  lemma StartDescends(db: DB, k: Key, at: Time, j: int)
    requires j in db.jobs && RowOk(db.jobs[j])
    ensures Descends(db.jobs[j], StartTx(db, k, at).0.jobs[j])
  {}

  lemma HeartbeatDescends(db: DB, k: Key, lease: nat, at: Time, j: int)
    requires j in db.jobs && RowOk(db.jobs[j])
    ensures Descends(db.jobs[j], HeartbeatTx(db, k, lease, at).0.jobs[j])
  {}

  lemma CancelDescends(db: DB, job: int, at: Time, j: int)
    requires j in db.jobs && RowOk(db.jobs[j])
    ensures Descends(db.jobs[j], CancelTx(db, job, at).0.jobs[j])
  {}

  lemma FinishDescends(db: DB, k: Key, at: Time, j: int)
    requires j in db.jobs && RowOk(db.jobs[j])
    ensures Descends(db.jobs[j], FinishCancelledTx(db, k, at).0.jobs[j])
  {}

  lemma SubmitDescends(db: DB, request: Request, key: Option<string>, at: Time, j: int)
    requires IdsOk(db) && j in db.jobs && RowOk(db.jobs[j])
    ensures Descends(db.jobs[j], SubmitTx(db, request, key, at).0.jobs[j])
  {
    SubmitInserts(db, request, key, at);
  }

  lemma CallDescends(db: DB, step: Step, j: int)
    requires IdsOk(db) && j in db.jobs && RowOk(db.jobs[j])
    ensures j in DbAfter(db, step).jobs && Descends(db.jobs[j], DbAfter(db, step).jobs[j])
  {
    hide IdsOk, Descends;
    match step
    case Tick(_) => StaysDescends(db.jobs[j]);
    case Look(_, _) => StaysDescends(db.jobs[j]);
    case ReadLive(_) => StaysDescends(db.jobs[j]);
    case Submit(request, key, at, _) => SubmitDescends(db, request, key, at, j);
    case Claim(worker, lease, locked, at, _) => ClaimDescends(db, worker, lease, locked, at, j);
    case Start(hold, at, _) => StartDescends(db, hold.key, at, j);
    case Heartbeat(hold, lease, at, _) => HeartbeatDescends(db, hold.key, lease, at, j);
    case Cancel(job, at, _) => CancelDescends(db, job, at, j);
    case FinishCancel(hold, at, _) => FinishDescends(db, hold.key, at, j);
    case Publish(hold, outcome, body, at, _) => PublishDescends(db, hold.key, hold.worker, outcome, body, at, j);
    case Release(hold, error, retry, at, _) => ReleaseDescends(db, hold.key, error, retry, at, j);
    case Reap(retry, locked, at, _) =>
      EndedDescends(db, Lapsed(db, locked, at), ByLeaseExpiry, LEASE_EXPIRED, retry, at, j);
  }

  lemma ReleaseDescends(db: DB, k: Key, error: string, retry: RetryPolicy, at: Time, j: int)
    requires j in db.jobs && RowOk(db.jobs[j])
    ensures j in ReleaseTx(db, k, error, retry, at).0.jobs && Descends(db.jobs[j], ReleaseTx(db, k, error, retry, at).0.jobs[j])
  {
    EndedDescends(db, if Live(db, k, at) then {k.job} else {}, ByRelease, error, retry, at, j);
  }

  /** No step ever raises a job's measure, and every step that changes its state or its attempt lowers it.
      The steps that leave it are heartbeats, cancels asked of a running job, and repeats. */
  lemma StepDescends(s: System, step: Step, j: int)
    requires Inv(s) && j in s.db.jobs
    ensures j in Apply(s, step).db.jobs && Descends(s.db.jobs[j], Apply(s, step).db.jobs[j])
  {
    assert JobOk(s.db, s.clock, j);
    CallDescends(s.db, step, j);
  }

  // ---- how often a job can move ----

  /** The number of steps of a run that changed the job's state or attempt. */
  function Moves(s: System, steps: seq<Step>, j: int): nat
    decreases |steps|
  {
    if steps == [] then 0
    else
      var s' := Apply(s, steps[0]);
      (if j in s.db.jobs && j in s'.db.jobs && ChangedPlace(s.db.jobs[j], s'.db.jobs[j]) then 1 else 0) + Moves(s', steps[1..], j)
  }

  /** Over any run a job moves at most as often as its measure says: at most 3 * max_attempts + 1 times
      after it was submitted. */
  lemma {:induction false} MovesBounded(s: System, steps: seq<Step>, j: int)
    requires Inv(s) && j in s.db.jobs
    ensures j in Run(s, steps).db.jobs && Moves(s, steps, j) + Rank(Run(s, steps).db.jobs[j]) <= Rank(s.db.jobs[j])
    ensures 0 <= Rank(Run(s, steps).db.jobs[j])
    decreases |steps|
  {
    if steps == [] {
      assert JobOk(s.db, s.clock, j);
    } else {
      StepKeeps(s, steps[0]);
      StepDescends(s, steps[0], j);
      MovesBounded(Apply(s, steps[0]), steps[1..], j);
    }
  }

  // ---- draining ----

  /** The measure of a set of jobs. */
  function Total(db: DB, ids: set<int>): int
    requires ids <= db.jobs.Keys
  {
    if ids == {} then 0
    else
      var j := Least(ids).value;
      Rank(db.jobs[j]) + Total(db, ids - {j})
  }

  lemma {:induction false} TotalDescends(db: DB, db': DB, ids: set<int>, j: int)
    requires ids <= db.jobs.Keys && ids <= db'.jobs.Keys
    requires forall i :: i in ids ==> Descends(db.jobs[i], db'.jobs[i])
    ensures 0 <= Total(db', ids) <= Total(db, ids)
    ensures j in ids && ChangedPlace(db.jobs[j], db'.jobs[j]) ==> Total(db', ids) < Total(db, ids)
  {
    if ids != {} {
      var i := Least(ids).value;
      TotalDescends(db, db', ids - {i}, j);
    }
  }

  lemma StepTotal(s: System, step: Step, j: int)
    requires Inv(s) && !step.Submit? && j in s.db.jobs
    requires j in Apply(s, step).db.jobs && ChangedPlace(s.db.jobs[j], Apply(s, step).db.jobs[j])
    ensures var s' := Apply(s, step);
            s'.db.jobs.Keys == s.db.jobs.Keys && 0 <= Total(s'.db, s'.db.jobs.Keys) < Total(s.db, s.db.jobs.Keys)
  {
    var s' := Apply(s, step);
    forall i | i in s.db.jobs
      ensures i in s'.db.jobs && Descends(s.db.jobs[i], s'.db.jobs[i])
    {
      StepDescends(s, step, i);
    }
    SameJobs(s, step);
    TotalDescends(s.db, s'.db, s.db.jobs.Keys, j);
  }

  lemma EndersKeepJobs(db: DB, chosen: set<int>, how: Ending, error: string, retry: RetryPolicy, at: Time)
    requires chosen <= db.jobs.Keys
    ensures EndAttempts(db, chosen, how, error, retry, at).jobs.Keys == db.jobs.Keys
  {}

  lemma CallKeepsJobs(db: DB, step: Step)
    requires !step.Submit?
    ensures DbAfter(db, step).jobs.Keys == db.jobs.Keys
  {
    hide EndAttempts, EndedJob, EndedAttempt;
    if step.Release? {
      var chosen := if Live(db, step.hold.key, step.at) then {step.hold.key.job} else {};
      EndersKeepJobs(db, chosen, ByRelease, step.error, step.retry, step.at);
    } else if step.Reap? {
      EndersKeepJobs(db, Lapsed(db, step.locked, step.at), ByLeaseExpiry, LEASE_EXPIRED, step.retry, step.at);
    }
  }

  lemma SameJobs(s: System, step: Step)
    requires !step.Submit?
    ensures Apply(s, step).db.jobs.Keys == s.db.jobs.Keys
  {
    CallKeepsJobs(s.db, step);
  }

  lemma LapsedMoves(s: System, j: int, retry: RetryPolicy, at: Time)
    requires j in s.db.jobs && Leased(s.db.jobs[j].state) && s.clock <= at
    requires s.db.jobs[j].lease.Some? && s.db.jobs[j].lease.value <= at
    ensures j in ReapTx(s.db, retry, {}, at).0.jobs && ChangedPlace(s.db.jobs[j], ReapTx(s.db, retry, {}, at).0.jobs[j])
  {
    assert j in Lapsed(s.db, {}, at);
  }

  function Latest(a: Time, b: Time): Time { if a <= b then b else a }

  lemma ReapMoves(s: System, j: int, retry: RetryPolicy) returns (step: Step)
    requires j in s.db.jobs && RowOk(s.db.jobs[j]) && Leased(s.db.jobs[j].state)
    ensures step.Reap? && j in Apply(s, step).db.jobs && ChangedPlace(s.db.jobs[j], Apply(s, step).db.jobs[j])
  {
    var at := Latest(s.clock, s.db.jobs[j].lease.value);
    step := Reap(retry, {}, at, at);
    LapsedMoves(s, j, retry, at);
  }

  lemma ClaimMoves(s: System, j: int, worker: string, lease: nat) returns (step: Step, i: int)
    requires j in s.db.jobs && RowOk(s.db.jobs[j]) && s.db.jobs[j].state.Queued?
    ensures step.Claim? && i in s.db.jobs && i in Apply(s, step).db.jobs && ChangedPlace(s.db.jobs[i], Apply(s, step).db.jobs[i])
  {
    var at := Latest(s.clock, s.db.jobs[j].availableAt);
    step := Claim(worker, lease, {}, at, at);
    assert j in Claimable(s.db, {}, at);
    ClaimDescends(s.db, worker, lease, {}, at, j);
    i :| i in Claimable(s.db, {}, at) && ChangedPlace(s.db.jobs[i], ClaimTx(s.db, worker, lease, {}, at).0.jobs[i]);
  }

  /** The call that moves an unfinished job, once the clock gets there: reap for a leased one, claim for a
      queued one (or for an older one that is queued too). */
  lemma SomethingMoves(s: System, j: int, worker: string, lease: nat, retry: RetryPolicy) returns (step: Step, i: int)
    requires Inv(s) && j in s.db.jobs && !Final(s.db.jobs[j].state)
    ensures step.Claim? || step.Reap?
    ensures i in s.db.jobs && i in Apply(s, step).db.jobs && ChangedPlace(s.db.jobs[i], Apply(s, step).db.jobs[i])
  {
    assert JobOk(s.db, s.clock, j);
    if Leased(s.db.jobs[j].state) {
      step := ReapMoves(s, j, retry);
      i := j;
    } else {
      step, i := ClaimMoves(s, j, worker, lease);
    }
  }

  /** From any reachable state, with no help but the clock, a reaper and a worker that claims and then
      dies, every job ends: some run of reap and claim alone drains the store. */
  lemma {:induction false} Drain(s: System, worker: string, lease: nat, retry: RetryPolicy) returns (steps: seq<Step>)
    requires Inv(s)
    ensures forall step :: step in steps ==> step.Claim? || step.Reap?
    ensures var s' := Run(s, steps);
            s'.db.jobs.Keys == s.db.jobs.Keys && forall j :: j in s'.db.jobs ==> Final(s'.db.jobs[j].state)
    decreases Total(s.db, s.db.jobs.Keys)
  {
    steps := [];
    if exists j :: j in s.db.jobs && !Final(s.db.jobs[j].state) {
      var j :| j in s.db.jobs && !Final(s.db.jobs[j].state);
      var step, i := SomethingMoves(s, j, worker, lease, retry);
      StepTotal(s, step, i);
      StepKeeps(s, step);
      var rest := Drain(Apply(s, step), worker, lease, retry);
      steps := [step] + rest;
      assert steps[1..] == rest;
    }
  }

  // ---- how long a job waits between attempts ----

  /** The waits double from the first one on, until doubling passes the cap; from then on they are the cap. */
  lemma BackoffDoubles(retry: RetryPolicy, n: nat)
    requires n >= 1
    ensures Backoff(retry, 1) == Min(retry.backoff, retry.cap)
    ensures Backoff(retry, n + 1) == Min(2 * Backoff(retry, n), retry.cap)
    ensures Backoff(retry, n) == if retry.backoff * Pow2(n - 1) > retry.cap then retry.cap else retry.backoff * Pow2(n - 1)
  {
    var b, p := retry.backoff, Pow2(n - 1);
    assert Pow2(0) == 1 && b * (2 * p) == 2 * (b * p);
  }

  /** The backoff waits after attempts 1 to n. */
  function Waits(retry: RetryPolicy, n: nat): nat {
    if n == 0 then 0 else Waits(retry, n - 1) + Backoff(retry, n)
  }

  lemma Doubling(b: nat, p: nat)
    ensures b * (2 * p - 1) == b * (p - 1) + b * p
  {}

  /** Before a job that keeps failing is dead-lettered by its m-th attempt it waits m - 1 times, in all at
      most both bounds; the first is exact while the cap is never reached. */
  lemma {:induction false} WaitsBounded(retry: RetryPolicy, n: nat)
    ensures Waits(retry, n) <= retry.backoff * (Pow2(n) - 1)
    ensures Waits(retry, n) <= n * retry.cap
    ensures n >= 1 && retry.backoff * Pow2(n - 1) <= retry.cap ==> Waits(retry, n) == retry.backoff * (Pow2(n) - 1)
  {
    if n >= 1 {
      var b, p := retry.backoff, Pow2(n - 1);
      WaitsBounded(retry, n - 1);
      Doubling(b, p);
      CapStep(n, retry.cap);
      if n >= 2 && b * p <= retry.cap { Halving(b, n); }
    }
  }

  lemma CapStep(n: nat, cap: nat)
    requires n >= 1
    ensures n * cap == (n - 1) * cap + cap
  {}

  lemma Halving(b: nat, n: nat)
    requires n >= 2
    ensures b * Pow2(n - 2) <= b * Pow2(n - 1)
  {
    var q := Pow2(n - 2);
    assert Pow2(n - 1) == 2 * q;
    assert b * (2 * q) == b * q + b * q;
  }

  // ---- how long a job waits over a run ----

  /** The step ends an attempt and puts its job back in the queue. */
  predicate Requeues(s: System, step: Step, j: int) {
    && j in s.db.jobs && Leased(s.db.jobs[j].state)
    && j in Apply(s, step).db.jobs && Apply(s, step).db.jobs[j].state.Queued?
  }

  function Requeued(s: System, steps: seq<Step>, j: int): nat
    decreases |steps|
  {
    if steps == [] then 0 else (if Requeues(s, steps[0], j) then 1 else 0) + Requeued(Apply(s, steps[0]), steps[1..], j)
  }

  /** How long the run makes the job wait: from the reading of each step that requeues it to when it is available. */
  function Waited(s: System, steps: seq<Step>, j: int): int
    decreases |steps|
  {
    if steps == [] then 0
    else
      var s' := Apply(s, steps[0]);
      (if Requeues(s, steps[0], j) then s'.db.jobs[j].availableAt - steps[0].at else 0) + Waited(s', steps[1..], j)
  }

  /** Whoever requeues the job does so by this policy. */
  predicate RequeuedBy(s: System, steps: seq<Step>, j: int, retry: RetryPolicy)
    decreases |steps|
  {
    steps == [] ||
    ((Requeues(s, steps[0], j) ==> (steps[0].Release? || steps[0].Reap?) && steps[0].retry == retry) &&
     RequeuedBy(Apply(s, steps[0]), steps[1..], j, retry))
  }

  /** The attempts an unfinished job was requeued after. */
  function Spent(r: JobRow): int { if r.state.Queued? then r.attempt else r.attempt - 1 }

  lemma EndedWaits(db: DB, chosen: set<int>, how: Ending, error: string, retry: RetryPolicy, at: Time, j: int)
    requires chosen <= db.jobs.Keys && j in db.jobs && (j in chosen ==> Leased(db.jobs[j].state))
    ensures var r, r' := db.jobs[j], EndAttempts(db, chosen, how, error, retry, at).jobs[j];
            && (Leased(r.state) && r'.state.Queued? ==> r'.attempt == r.attempt && r'.availableAt == at + Backoff(retry, r.attempt))
            && (!(Leased(r.state) && r'.state.Queued?) && !Final(r'.state) ==> r' == r)
            && (r'.state.DeadLettered? && !Final(r.state) ==> Leased(r.state) && r.attempt >= r.maxAttempts)
  {}

  /** What one step does to an unfinished job's waits. */
  predicate WaitsBy(step: Step, r: JobRow, r': JobRow) {
    && (Leased(r.state) && r'.state.Queued? ==>
          && (step.Release? || step.Reap?) && r'.attempt == r.attempt
          && r'.availableAt == step.at + Backoff(step.retry, r.attempt))
    && (!(Leased(r.state) && r'.state.Queued?) && !Final(r'.state) ==> Spent(r') == Spent(r))
    && (r'.state.DeadLettered? ==> Leased(r.state) && r.attempt >= r.maxAttempts)
  }

  lemma RowStays(step: Step, r: JobRow)
    requires !Final(r.state)
    ensures WaitsBy(step, r, r)
  {}

  lemma ClaimWaits(db: DB, step: Step, j: int)
    requires j in db.jobs && !Final(db.jobs[j].state) && step.Claim?
    ensures WaitsBy(step, db.jobs[j], DbAfter(db, step).jobs[j])
  {}

  lemma HolderWaits(db: DB, step: Step, j: int)
    requires j in db.jobs && !Final(db.jobs[j].state)
    requires step.Start? || step.Heartbeat? || step.Cancel?
    ensures WaitsBy(step, db.jobs[j], DbAfter(db, step).jobs[j])
  {}

  lemma EnderWaits(db: DB, step: Step, j: int)
    requires j in db.jobs && !Final(db.jobs[j].state) && (step.FinishCancel? || step.Publish?)
    ensures WaitsBy(step, db.jobs[j], DbAfter(db, step).jobs[j])
  {}

  lemma EndingWaits(db: DB, step: Step, j: int)
    requires j in db.jobs && !Final(db.jobs[j].state) && (step.Release? || step.Reap?)
    ensures j in DbAfter(db, step).jobs && WaitsBy(step, db.jobs[j], DbAfter(db, step).jobs[j])
  {
    if step.Release? {
      EndedWaits(db, if Live(db, step.hold.key, step.at) then {step.hold.key.job} else {}, ByRelease, step.error, step.retry, step.at, j);
    } else {
      EndedWaits(db, Lapsed(db, step.locked, step.at), ByLeaseExpiry, LEASE_EXPIRED, step.retry, step.at, j);
    }
  }

  lemma StepWaits(db: DB, step: Step, j: int)
    requires IdsOk(db) && j in db.jobs && RowOk(db.jobs[j]) && !Final(db.jobs[j].state) && j in DbAfter(db, step).jobs
    ensures WaitsBy(step, db.jobs[j], DbAfter(db, step).jobs[j])
  {
    hide IdsOk, RowOk, WaitsBy;
    match step
    case Tick(_) => RowStays(step, db.jobs[j]);
    case Look(_, _) => RowStays(step, db.jobs[j]);
    case ReadLive(_) => RowStays(step, db.jobs[j]);
    case Submit(request, key, at, _) =>
      SubmittedStays(db, request, key, at, j);
      RowStays(step, db.jobs[j]);
    case Claim(_, _, _, _, _) => ClaimWaits(db, step, j);
    case FinishCancel(_, _, _) => EnderWaits(db, step, j);
    case Publish(_, _, _, _, _) => EnderWaits(db, step, j);
    case Release(_, _, _, _, _) => EndingWaits(db, step, j);
    case Reap(_, _, _, _) => EndingWaits(db, step, j);
    case _ => HolderWaits(db, step, j);
  }

  lemma SubmittedStays(db: DB, request: Request, key: Option<string>, at: Time, j: int)
    requires IdsOk(db) && j in db.jobs && j in SubmitTx(db, request, key, at).0.jobs
    ensures SubmitTx(db, request, key, at).0.jobs[j] == db.jobs[j]
  {
    SubmitInserts(db, request, key, at);
  }

  // what a run makes of an unfinished job's waits
  predicate WaitsExactly(r: JobRow, r': JobRow, retry: RetryPolicy, waited: int, requeued: nat) {
    && 0 <= Spent(r) && Spent(r) + requeued <= r.maxAttempts - 1
    && waited == Waits(retry, Spent(r) + requeued) - Waits(retry, Spent(r))
    && (r'.state.DeadLettered? ==> Spent(r) + requeued == r.maxAttempts - 1)
  }

  lemma {:induction false} FinishedWaitsNoMore(s: System, steps: seq<Step>, j: int)
    requires Inv(s) && j in s.db.jobs && Final(s.db.jobs[j].state)
    ensures Requeued(s, steps, j) == Waited(s, steps, j) == 0
    ensures j in Run(s, steps).db.jobs && Run(s, steps).db.jobs[j] == s.db.jobs[j]
    decreases |steps|
  {
    hide Inv, Apply;
    if steps != [] {
      StepKeeps(s, steps[0]);
      FinishedWaitsNoMore(Apply(s, steps[0]), steps[1..], j);
    }
  }

  /** The row after a step, against the one before it. */
  lemma OneStepWaits(s: System, step: Step, j: int, retry: RetryPolicy)
    requires Inv(s) && j in s.db.jobs && !Final(s.db.jobs[j].state)
    requires Requeues(s, step, j) ==> (step.Release? || step.Reap?) && step.retry == retry
    ensures Inv(Apply(s, step)) && j in Apply(s, step).db.jobs
    ensures var r, r' := s.db.jobs[j], Apply(s, step).db.jobs[j];
            && 0 <= Spent(r) <= r.maxAttempts - 1 && r'.maxAttempts == r.maxAttempts
            && (Requeues(s, step, j) ==>
                  Spent(r') == Spent(r) + 1 <= r.maxAttempts - 1 && r'.availableAt - step.at == Backoff(retry, Spent(r) + 1))
            && (!Requeues(s, step, j) && !Final(r'.state) ==> Spent(r') == Spent(r))
            && (r'.state.DeadLettered? ==> Spent(r) == r.maxAttempts - 1)
  {
    hide GrantsOk, LogOk, LastOk, ResultOk;
    StepKeeps(s, step);
    assert JobOk(s.db, s.clock, j) && JobOk(Apply(s, step).db, Apply(s, step).clock, j);
    if Enabled(s, step) { StepWaits(s.db, step, j); }
  }

  /** Over any run whose requeues are all by one policy, an unfinished job's waits are the next ones of that policy:
      as many as its requeues, which stay under its budget, and one under it when it is dead-lettered. */
  lemma {:induction false} RunWaits(s: System, steps: seq<Step>, j: int, retry: RetryPolicy)
    requires Inv(s) && j in s.db.jobs && !Final(s.db.jobs[j].state) && RequeuedBy(s, steps, j, retry)
    ensures j in Run(s, steps).db.jobs
    ensures WaitsExactly(s.db.jobs[j], Run(s, steps).db.jobs[j], retry, Waited(s, steps, j), Requeued(s, steps, j))
    decreases |steps|
  {
    hide Inv, Apply, Requeues, Final;
    if steps == [] {
      SpentInBudget(s, j);
    } else {
      var s' := Apply(s, steps[0]);
      OneStepWaits(s, steps[0], j, retry);
      if Final(s'.db.jobs[j].state) {
        NotQueued(s, steps[0], j);
        FinishedWaitsNoMore(s', steps[1..], j);
      } else {
        RunWaits(s', steps[1..], j, retry);
      }
    }
  }

  lemma SpentInBudget(s: System, j: int)
    requires Inv(s) && j in s.db.jobs && !Final(s.db.jobs[j].state)
    ensures 0 <= Spent(s.db.jobs[j]) <= s.db.jobs[j].maxAttempts - 1 && !s.db.jobs[j].state.DeadLettered?
  {
    hide LogOk, LastOk, ResultOk, IdsOk, GrantsOk;
    assert JobOk(s.db, s.clock, j);
  }

  lemma NotQueued(s: System, step: Step, j: int)
    requires j in Apply(s, step).db.jobs && Final(Apply(s, step).db.jobs[j].state)
    ensures !Requeues(s, step, j)
  {}

  /** So a job that was never claimed yet waits, over any run by one policy, at most both bounds for its budget. */
  lemma NewJobWaits(s: System, steps: seq<Step>, j: int, retry: RetryPolicy)
    requires Inv(s) && j in s.db.jobs && s.db.jobs[j].state.Queued? && s.db.jobs[j].attempt == 0
    requires RequeuedBy(s, steps, j, retry)
    ensures var m, n := s.db.jobs[j].maxAttempts, Requeued(s, steps, j);
            && m >= 1 && n <= m - 1 && Waited(s, steps, j) == Waits(retry, n)
            && Waited(s, steps, j) <= retry.backoff * (Pow2(m - 1) - 1) && Waited(s, steps, j) <= (m - 1) * retry.cap
            && j in Run(s, steps).db.jobs && (Run(s, steps).db.jobs[j].state.DeadLettered? ==> n == m - 1)
  {
    hide Inv, Apply, Requeues;
    RunWaits(s, steps, j, retry);
    var m, n := s.db.jobs[j].maxAttempts, Requeued(s, steps, j);
    WaitsGrow(retry, n, m - 1);
    WaitsBounded(retry, m - 1);
  }

  lemma {:induction false} WaitsGrow(retry: RetryPolicy, n: nat, m: nat)
    requires n <= m
    ensures Waits(retry, n) <= Waits(retry, m)
  {
    if n < m { WaitsGrow(retry, n, m - 1); }
  }
}
