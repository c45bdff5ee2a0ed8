/** The store as the source has it: calls that update the tables' rows in place (fleet/store.py). Each
    method is proved to do what its transaction function says, so every theorem about runs of
    transactions is about these methods. */
module FleetStore {
  import opened Wrappers
  import opened FleetRows
  import opened FleetTransactions

  class Store {
    var batches: map<int, BatchRow>
    var jobs: map<int, JobRow>
    var attempts: map<Key, AttemptRow>
    var results: map<int, ResultRow>
    var nextBatch: int
    var nextJob: int
    var nextResult: int

    function Db(): DB
      reads this
    {
      DB(batches, jobs, attempts, results, nextBatch, nextJob, nextResult)
    }

    constructor ()
      ensures Db() == EMPTY
    {
      batches, jobs, attempts, results := map[], map[], map[], map[];
      nextBatch, nextJob, nextResult := 1, 1, 1;
    }

    method SubmitBatch(request: Request, key: Option<string>, at: Time) returns (sub: Submission)
      modifies this
      ensures (Db(), sub) == SubmitTx(old(Db()), request, key, at)
    {
      if request.jobs == [] || request.maxAttempts < 1 { return Refused; }
      var existing := Least(WithKey(Db(), key));
      if existing.Some? {
        if batches[existing.value].request != request { return Conflict; }
        return Submitted(existing.value, ByPosition(jobs, JobsOf(Db(), existing.value)), false);
      }
      var rows := NewRows(Db(), request, at);
      var first, n := nextJob, |request.jobs|;
      sub := Submitted(nextBatch, seq(n, i requires 0 <= i < n => first + i), true);
      batches := batches[nextBatch := BatchRow(key, request)];
      jobs := jobs + rows;
      nextBatch, nextJob := nextBatch + 1, nextJob + n;
    }

    method Claim(worker: string, lease: nat, locked: set<int>, at: Time) returns (got: Option<Key>)
      modifies this
      ensures (Db(), got) == ClaimTx(old(Db()), worker, lease, locked, at)
    {
      var found := Least(Claimable(Db(), locked, at));
      if found.None? { return None; }
      var j := found.value;
      var n := jobs[j].attempt + 1;
      jobs := jobs[j := jobs[j].(state := Claimed, attempt := n, worker := Some(worker), claimedAt := Some(at),
      startedAt := None, lease := Some(at + lease))];
      attempts := attempts[Key(j, n) := AttemptRow(worker, at, at + lease, None, None, None)];
      got := Some(Key(j, n));
    }

    method Start(k: Key, at: Time) returns (started: bool)
      modifies this
      ensures (Db(), started) == StartTx(old(Db()), k, at)
    {
      started := Live(Db(), k, at) && jobs[k.job].state.Claimed? && jobs[k.job].cancelAt.None?;
      if started {
        jobs := jobs[k.job := jobs[k.job].(state := Running, startedAt := Some(at))];
      } else {
        started := IsRunning(Db(), k, at);
      }
    }

    method Heartbeat(k: Key, lease: nat, at: Time) returns (beat: Option<Beat>)
      modifies this
      ensures (Db(), beat) == HeartbeatTx(old(Db()), k, lease, at)
    {
      if !Live(Db(), k, at) { return None; }
      jobs := jobs[k.job := jobs[k.job].(lease := Some(at + lease))];
      if k !in attempts { return None; }
      attempts := attempts[k := attempts[k].(lease := at + lease)];
      beat := Some(Beat(at + lease, jobs[k.job].cancelAt.Some?));
    }

    method Cancel(job: int, at: Time) returns (state: Option<JobState>)
      modifies this
      ensures (Db(), state) == CancelTx(old(Db()), job, at)
    {
      if job !in jobs { return None; }
      if jobs[job].state.Queued? {
        jobs := jobs[job := jobs[job].(state := Cancelled, finishedAt := Some(at),
        cancelAt := if jobs[job].cancelAt.None? then Some(at) else jobs[job].cancelAt)];
      } else if Leased(jobs[job].state) {
        jobs := jobs[job := jobs[job].(cancelAt := if jobs[job].cancelAt.None? then Some(at) else jobs[job].cancelAt)];
      }
      state := Some(jobs[job].state);
    }

    /** The statement finish_cancelled and publish share. */
    method EndCancelled(k: Key, at: Time) returns (ended: bool)
      modifies this`jobs, this`attempts
      ensures (Db(), ended) == FinishCancelled(old(Db()), k, at)
    {
      if !Live(Db(), k, at) || jobs[k.job].cancelAt.None? { return false; }
      jobs := jobs[k.job := jobs[k.job].(state := Cancelled, lease := None, finishedAt := Some(at))];
      ended := k in attempts;
      if ended { attempts := attempts[k := EndedAttempt(attempts[k], ByCancel, Some("cancelled"), at)]; }
    }

    method FinishCancelledCall(k: Key, at: Time) returns (ended: bool)
      modifies this
      ensures (Db(), ended) == FinishCancelledTx(old(Db()), k, at)
    {
      ended := EndCancelled(k, at);
      if !ended { ended := EndedBy(Db(), k, ByCancel); }
    }

    method Publish(k: Key, worker: string, outcome: Outcome, body: Body, at: Time) returns (ok: bool)
      modifies this
      ensures (Db(), ok) == PublishTx(old(Db()), k, worker, outcome, body, at)
    {
      if k.job !in jobs || jobs[k.job].attempt != k.attempt || !Leased(jobs[k.job].state) {
        return Stored(Db(), k, worker, outcome, body);
      }
      if jobs[k.job].cancelAt.Some? {
        var _ := EndCancelled(k, at);
        return false;
      }
      if !Live(Db(), k, at) { return false; }
      var n := nextResult;
      results := results[n := ResultRow(k.job, k.attempt, worker, at, outcome, body)];
      nextResult := n + 1;
      jobs := jobs[k.job := jobs[k.job].(state := outcome, resultId := Some(n), lease := None, finishedAt := Some(at))];
      if k in attempts { attempts := attempts[k := EndedAttempt(attempts[k], ByPublish, None, at)]; }
      ok := true;
    }

    /** The statement release and reap share, and the jobs of the rows it returns. */
    method EndWithoutResult(chosen: set<int>, how: Ending, error: string, retry: RetryPolicy, at: Time) returns (moved: set<int>)
      requires chosen <= jobs.Keys
      modifies this`jobs, this`attempts
      ensures Db() == EndAttempts(old(Db()), chosen, how, error, retry, at) && moved == Moved(old(Db()), chosen)
    {
      moved := set j | j in chosen && Key(j, jobs[j].attempt) in attempts;
      attempts := map k | k in attempts ::
        if k.job in chosen && jobs[k.job].attempt == k.attempt
        then EndedAttempt(attempts[k], how, Some(error), at) else attempts[k];
      jobs := map j | j in jobs :: if j in chosen then EndedJob(jobs[j], error, retry, at) else jobs[j];
    }

    method Release(k: Key, error: string, retry: RetryPolicy, at: Time) returns (state: Option<JobState>)
      modifies this
      ensures (Db(), state) == ReleaseTx(old(Db()), k, error, retry, at)
    {
      var moved := EndWithoutResult(if Live(Db(), k, at) then {k.job} else {}, ByRelease, error, retry, at);
      if k.job in moved { return Some(jobs[k.job].state); }
      if !EndedBy(Db(), k, ByRelease) { return None; }
      state := if k.job in jobs then Some(jobs[k.job].state) else None;
    }

    method Reap(retry: RetryPolicy, locked: set<int>, at: Time) returns (ended: seq<int>)
      modifies this
      ensures (Db(), ended) == ReapTx(old(Db()), retry, locked, at)
    {
      var moved := EndWithoutResult(Lapsed(Db(), locked, at), ByLeaseExpiry, LEASE_EXPIRED, retry, at);
      ended := InOrder(moved);
    }

    function LiveNow(at: Time): set<Key>
      reads this
    {
      set j | j in jobs && LiveRow(jobs[j], at) :: Key(j, jobs[j].attempt)
    }
  }
}
