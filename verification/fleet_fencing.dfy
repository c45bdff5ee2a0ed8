/** What an attempt can still do once its lease ran out: nothing by a call that reads the clock from then on, and
    exactly what is stated here by one already under way, which read the clock before and commits after.
    A run's n-th state is At(s, steps, n). */
module FleetFencing {
  import opened Wrappers
  import opened FleetRows
  import opened FleetTransactions
  import opened FleetProtocol
  import opened FleetSafety

  function At(s: System, steps: seq<Step>, n: nat): System
    requires n <= |steps|
  {
    Run(s, steps[..n])
  }

  lemma {:induction false} RunOneMore(s: System, steps: seq<Step>, step: Step)
    ensures Run(s, steps + [step]) == Apply(Run(s, steps), step)
    decreases |steps|
  {
    if steps == [] {
      assert [step][1..] == [];
    } else {
      assert (steps + [step])[1..] == steps[1..] + [step];
      RunOneMore(Apply(s, steps[0]), steps[1..], step);
    }
  }

  lemma AtNext(s: System, steps: seq<Step>, n: nat)
    requires n < |steps|
    ensures At(s, steps, n + 1) == Apply(At(s, steps, n), steps[n])
  {
    assert steps[..n + 1] == steps[..n] + [steps[n]];
    RunOneMore(s, steps[..n], steps[n]);
  }

  lemma AtKeeps(s: System, steps: seq<Step>, k: Key, n: nat)
    requires Inv(s) && k in s.db.attempts && n <= |steps|
    ensures Inv(At(s, steps, n)) && k in At(s, steps, n).db.attempts && s.clock <= At(s, steps, n).clock
  {
    hide Inv;
    RunKeeps(s, steps[..n]);
  }

  // ---- one call ----

  /** A call by the attempt's holder. */
  predicate About(step: Step, k: Key) { OfHolder(step) && step.hold.key == k }

  /** The attempt has not ended and this reading is before the end of its lease. */
  predicate InTime(db: DB, k: Key, at: Time) {
    k in db.attempts && db.attempts[k].endedBy.None? && at < db.attempts[k].lease
  }

  /** What else each call looks at, in its job's row; a heartbeat that sets the lease it finds writes nothing new. */
  predicate Allows(db: DB, step: Step, k: Key)
    requires About(step, k)
  {
    && k.job in db.jobs && k in db.attempts
    && (step.Start? ==> db.jobs[k.job].state.Claimed? && db.jobs[k.job].cancelAt.None?)
    && (step.Heartbeat? ==> step.at + step.lease != db.attempts[k].lease)
    && (step.FinishCancel? ==> db.jobs[k.job].cancelAt.Some?)
  }

  predicate Lands(db: DB, step: Step, k: Key) { About(step, k) && InTime(db, k, step.at) && Allows(db, step, k) }

  /** An attempt's record and its job's row agree about its lease. */
  lemma InTimeIsLive(s: System, k: Key, at: Time)
    requires Inv(s) && k in s.db.attempts
    ensures k.job in s.db.jobs && (InTime(s.db, k, at) <==> Live(s.db, k, at))
    ensures Live(s.db, k, at) ==> s.db.jobs[k.job].lease == Some(s.db.attempts[k].lease)
  {
    hide GrantsOk, ResultOk;
    assert JobOk(s.db, s.clock, k.job) && Key(k.job, k.attempt) in s.db.attempts;
  }

  lemma CallWrites(db: DB, step: Step, k: Key)
    requires About(step, k) && k in db.attempts && k.job in db.jobs
    requires InTime(db, k, step.at) <==> Live(db, k, step.at)
    requires Live(db, k, step.at) ==> db.jobs[k.job].lease == Some(db.attempts[k].lease)
    ensures DbAfter(db, step) != db <==> Lands(db, step, k)
  {}

  /** A holder's call changes the tables exactly when it lands, however late it commits. */
  lemma WritesExactly(s: System, step: Step, k: Key)
    requires Inv(s) && k in s.db.attempts && Enabled(s, step) && About(step, k)
    ensures Apply(s, step).db != s.db <==> Lands(s.db, step, k)
  {
    hide Inv;
    InTimeIsLive(s, k, step.at);
    CallWrites(s.db, step, k);
  }

  // ---- what becomes of an attempt's record ----

  /** The attempt a claim adds is a new one. */
  predicate ClaimsAnew(db: DB, step: Step) {
    step.Claim? ==> var got := ClaimTx(db, step.worker, step.lease, step.locked, step.at).1; got.Some? ==> got.value !in db.attempts
  }

  lemma ClaimIsNew(s: System, step: Step)
    requires Inv(s)
    ensures ClaimsAnew(s.db, step)
  {
    hide IdsOk, GrantsOk, ResultOk, LastOk;
    if step.Claim? {
      var found := Least(Claimable(s.db, step.locked, step.at));
      if found.Some? { assert JobOk(s.db, s.clock, found.value); }
    }
  }

  lemma EndersLeave(db: DB, chosen: set<int>, how: Ending, error: string, retry: RetryPolicy, at: Time, k: Key)
    requires chosen <= db.jobs.Keys && k in db.attempts
    ensures var after := EndAttempts(db, chosen, how, error, retry, at).attempts;
            k in after && (after[k] == db.attempts[k] || after[k].endedBy.Some?)
  {}

  /** Nobody but its holder touches a record, except to end it. */
  lemma OthersLeave(db: DB, step: Step, k: Key)
    requires k in db.attempts && !About(step, k) && ClaimsAnew(db, step)
    ensures k in DbAfter(db, step).attempts
    ensures DbAfter(db, step).attempts[k] == db.attempts[k] || DbAfter(db, step).attempts[k].endedBy.Some?
  {
    hide EndAttempts;
    if step.Release? {
      var chosen := if Live(db, step.hold.key, step.at) then {step.hold.key.job} else {};
      EndersLeave(db, chosen, ByRelease, step.error, step.retry, step.at, k);
    } else if step.Reap? {
      EndersLeave(db, Lapsed(db, step.locked, step.at), ByLeaseExpiry, LEASE_EXPIRED, step.retry, step.at, k);
    }
  }

  /** Only a heartbeat in time moves a lease, and it moves it to its own. */
  lemma LeaseMoves(db: DB, step: Step, k: Key)
    requires k in db.attempts && k in DbAfter(db, step).attempts && About(step, k)
    ensures DbAfter(db, step).attempts[k].lease ==
            if step.Heartbeat? && Live(db, k, step.at) then step.at + step.lease else db.attempts[k].lease
  {}

  // ---- in flight when the lease was read as lapsed ----

  /** A holder's call that read the clock before `cut`, and lands. */
  predicate InFlight(s: System, step: Step, k: Key, cut: Time) { Enabled(s, step) && Lands(s.db, step, k) && step.at < cut }

  /** A holder's call that changes the tables. */
  predicate Writes(s: System, step: Step, k: Key) { Enabled(s, step) && About(step, k) && Apply(s, step).db != s.db }

  /** No reading from `cut` on is in time. */
  predicate Over(db: DB, k: Key, cut: Time) {
    k in db.attempts && (db.attempts[k].endedBy.Some? || db.attempts[k].lease <= cut)
  }

  lemma NotLiveIsOver(s: System, k: Key, t: Time)
    requires Inv(s) && k in s.db.attempts
    ensures k in LiveAttempts(s.db, t) <==> !Over(s.db, k, t)
  {
    hide Inv;
    InTimeIsLive(s, k, t);
    if Live(s.db, k, t) { assert Key(k.job, s.db.jobs[k.job].attempt) == k; }
  }

  lemma StaysOver(s: System, step: Step, k: Key, cut: Time)
    requires Inv(s) && Over(s.db, k, cut) && !InFlight(s, step, k, cut)
    ensures Over(Apply(s, step).db, k, cut) && !Writes(s, step, k)
  {
    hide Inv;
    if Enabled(s, step) {
      if About(step, k) {
        WritesExactly(s, step, k);
      } else {
        ClaimIsNew(s, step);
        OthersLeave(s.db, step, k);
      }
    }
  }

  ghost predicate NoneInFlight(s: System, steps: seq<Step>, k: Key, cut: Time, n: nat)
    requires n <= |steps|
  {
    forall i :: 0 <= i < n ==> !InFlight(At(s, steps, i), steps[i], k, cut)
  }

  lemma {:induction false} OverTo(s: System, steps: seq<Step>, k: Key, cut: Time, n: nat)
    requires Inv(s) && k in s.db.attempts && Over(s.db, k, cut) && n <= |steps| && NoneInFlight(s, steps, k, cut, n)
    ensures Over(At(s, steps, n).db, k, cut)
    ensures forall i :: 0 <= i < n ==> !Writes(At(s, steps, i), steps[i], k)
  {
    hide Inv, InFlight, Writes, Over, Apply;
    if n == 0 {
      assert At(s, steps, 0) == s;
    } else {
      OverTo(s, steps, k, cut, n - 1);
      AtKeeps(s, steps, k, n - 1);
      AtNext(s, steps, n - 1);
      StaysOver(At(s, steps, n - 1), steps[n - 1], k, cut);
    }
  }

  /** Once an attempt's lease was read as lapsed, its holder changes the tables exactly if one of its calls was in
      flight then: had read the clock before, and lands. Without one, the attempt is never live again either. */
  lemma WritesOnlyInFlight(s: System, k: Key, steps: seq<Step>)
    requires Inv(s) && k in s.db.attempts && k !in LiveAttempts(s.db, s.clock)
    ensures (exists i :: 0 <= i < |steps| && Writes(At(s, steps, i), steps[i], k)) <==>
            (exists i :: 0 <= i < |steps| && InFlight(At(s, steps, i), steps[i], k, s.clock))
    ensures NoneInFlight(s, steps, k, s.clock, |steps|) ==>
              forall n :: 0 <= n <= |steps| ==> k !in LiveAttempts(At(s, steps, n).db, At(s, steps, n).clock)
  {
    hide Inv, Apply, Over;
    NotLiveIsOver(s, k, s.clock);
    if NoneInFlight(s, steps, k, s.clock, |steps|) {
      OverTo(s, steps, k, s.clock, |steps|);
      forall n | 0 <= n <= |steps|
        ensures k !in LiveAttempts(At(s, steps, n).db, At(s, steps, n).clock)
      {
        NeverLive(s, steps, k, n);
      }
    } else {
      var i :| 0 <= i < |steps| && InFlight(At(s, steps, i), steps[i], k, s.clock);
      LandsInRun(s, steps, k, i);
    }
  }

  lemma NeverLive(s: System, steps: seq<Step>, k: Key, n: nat)
    requires Inv(s) && k in s.db.attempts && Over(s.db, k, s.clock) && n <= |steps|
    requires NoneInFlight(s, steps, k, s.clock, |steps|)
    ensures k !in LiveAttempts(At(s, steps, n).db, At(s, steps, n).clock)
  {
    hide Inv, Apply, InFlight;
    OverTo(s, steps, k, s.clock, n);
    AtKeeps(s, steps, k, n);
    NotLiveIsOver(At(s, steps, n), k, At(s, steps, n).clock);
  }

  lemma LandsInRun(s: System, steps: seq<Step>, k: Key, i: nat)
    requires Inv(s) && k in s.db.attempts && i < |steps| && InFlight(At(s, steps, i), steps[i], k, s.clock)
    ensures Writes(At(s, steps, i), steps[i], k)
  {
    hide Inv, Apply;
    AtKeeps(s, steps, k, i);
    WritesExactly(At(s, steps, i), steps[i], k);
  }

  // ---- which attempts live again ----

  /** A heartbeat that extends a lease which has run out by the time it commits, to one that has not. */
  predicate Revives(s: System, step: Step, k: Key) {
    && Enabled(s, step) && step.Heartbeat? && About(step, k) && InTime(s.db, k, step.at)
    && s.db.attempts[k].lease <= step.commit < step.at + step.lease
  }

  /** A step after a moment at which the attempt was not live leaves it live exactly if it revives it. */
  lemma RevivesExactly(s: System, step: Step, k: Key, t: Time)
    requires Inv(s) && Inv(Apply(s, step)) && k in s.db.attempts && k in Apply(s, step).db.attempts
    requires s.clock <= t <= Apply(s, step).clock && Over(s.db, k, t)
    requires AttemptEvolves(s.db.attempts[k], Apply(s, step).db.attempts[k])
    ensures k in LiveAttempts(Apply(s, step).db, Apply(s, step).clock) <==> Revives(s, step, k)
  {
    hide Inv;
    var s' := Apply(s, step);
    NotLiveIsOver(s', k, s'.clock);
    InTimeIsLive(s, k, step.at);
    if Enabled(s, step) {
      if About(step, k) {
        LeaseMoves(s.db, step, k);
        if step.Heartbeat? && Live(s.db, k, step.at) { HeartbeatEndsNothing(s.db, step.hold.key, step.lease, step.at); }
      } else {
        ClaimIsNew(s, step);
        OthersLeave(s.db, step, k);
      }
    }
  }

  lemma HeartbeatEndsNothing(db: DB, k: Key, lease: nat, at: Time)
    requires k in db.attempts
    ensures k in HeartbeatTx(db, k, lease, at).0.attempts
    ensures HeartbeatTx(db, k, lease, at).0.attempts[k].endedBy == db.attempts[k].endedBy
  {}

  /** A reader of the live attempts between the run's i-th commit and the next does not find this one. */
  ghost predicate ReadAbsent(s: System, steps: seq<Step>, k: Key, i: nat, t: Time)
    requires i < |steps|
  {
    && At(s, steps, i).clock <= t <= At(s, steps, i + 1).clock
    && k in At(s, steps, i).db.attempts && k !in LiveAttempts(At(s, steps, i).db, t)
  }

  /** It is live after none of the commits from the n-th on. */
  ghost predicate NeverLiveFrom(s: System, steps: seq<Step>, k: Key, n: nat) {
    forall m :: n <= m <= |steps| ==> k !in LiveAttempts(At(s, steps, m).db, At(s, steps, m).clock)
  }

  ghost predicate NoneRevived(s: System, steps: seq<Step>, k: Key) {
    forall i :: 0 <= i < |steps| ==> !Revives(At(s, steps, i), steps[i], k)
  }

  lemma StepFrom(s: System, steps: seq<Step>, k: Key, i: nat, t: Time)
    requires Inv(s) && i < |steps| && k in At(s, steps, i).db.attempts
    requires At(s, steps, i).clock <= t <= At(s, steps, i + 1).clock && Over(At(s, steps, i).db, k, t)
    ensures Inv(At(s, steps, i + 1)) && k in At(s, steps, i + 1).db.attempts
    ensures Over(At(s, steps, i + 1).db, k, At(s, steps, i + 1).clock) <==> !Revives(At(s, steps, i), steps[i], k)
    ensures k in LiveAttempts(At(s, steps, i + 1).db, At(s, steps, i + 1).clock) <==> Revives(At(s, steps, i), steps[i], k)
  {
    hide Inv, Revives, Over, Apply;
    RunKeeps(s, steps[..i]);
    AtNext(s, steps, i);
    StepKeeps(At(s, steps, i), steps[i]);
    RevivesExactly(At(s, steps, i), steps[i], k, t);
    NotLiveIsOver(At(s, steps, i + 1), k, At(s, steps, i + 1).clock);
  }

  lemma {:induction false} FencedFrom(s: System, steps: seq<Step>, k: Key, i: nat, t: Time, n: nat)
    requires Inv(s) && i < n <= |steps| && ReadAbsent(s, steps, k, i, t) && NoneRevived(s, steps, k)
    ensures k in At(s, steps, n).db.attempts && Over(At(s, steps, n).db, k, At(s, steps, n).clock)
  {
    hide Inv, Revives, Over, Apply, Run;
    RunKeeps(s, steps[..n - 1]);
    if n == i + 1 {
      NotLiveIsOver(At(s, steps, i), k, t);
      StepFrom(s, steps, k, i, t);
    } else {
      FencedFrom(s, steps, k, i, t, n - 1);
      ClockMoves(s, steps, n - 1);
      StepFrom(s, steps, k, n - 1, At(s, steps, n - 1).clock);
    }
  }

  lemma ClockMoves(s: System, steps: seq<Step>, i: nat)
    requires i < |steps|
    ensures At(s, steps, i).clock <= At(s, steps, i + 1).clock
  {
    AtNext(s, steps, i);
  }

  /** Over every run: an attempt once read as no longer live stays so, whenever it is read, if and only if each of
      its heartbeats that takes effect commits before the lease it extends runs out (or so late that the lease it
      sets has run out as well). */
  lemma FencedForever(s: System, k: Key, steps: seq<Step>)
    requires Inv(s)
    ensures (forall i: nat, t :: i < |steps| && ReadAbsent(s, steps, k, i, t) ==> NeverLiveFrom(s, steps, k, i + 1)) <==>
            NoneRevived(s, steps, k)
  {
    hide Inv, Revives, Over, Apply;
    if NoneRevived(s, steps, k) {
      forall i: nat, t | i < |steps| && ReadAbsent(s, steps, k, i, t)
        ensures NeverLiveFrom(s, steps, k, i + 1)
      {
        forall n | i + 1 <= n <= |steps|
          ensures k !in LiveAttempts(At(s, steps, n).db, At(s, steps, n).clock)
        {
          FencedFrom(s, steps, k, i, t, n);
          RunKeeps(s, steps[..n]);
          NotLiveIsOver(At(s, steps, n), k, At(s, steps, n).clock);
        }
      }
    } else {
      var i: nat :| i < |steps| && Revives(At(s, steps, i), steps[i], k);
      ReadAtItsCommit(s, steps, k, i);
      assert !NeverLiveFrom(s, steps, k, i + 1);
    }
  }

  lemma ReadAtItsCommit(s: System, steps: seq<Step>, k: Key, i: nat)
    requires Inv(s) && i < |steps| && Revives(At(s, steps, i), steps[i], k)
    ensures ReadAbsent(s, steps, k, i, steps[i].commit)
    ensures k in LiveAttempts(At(s, steps, i + 1).db, At(s, steps, i + 1).clock)
  {
    hide Inv;
    RunKeeps(s, steps[..i]);
    AtNext(s, steps, i);
    NotLiveIsOver(At(s, steps, i), k, steps[i].commit);
    StepFrom(s, steps, k, i, steps[i].commit);
  }

  // ---- orphaned containers ----

  /** A container or a network, by the labels the worker gave it. */
  datatype Item = Item(id: string, key: Key)

  function Orphans(items: seq<Item>, alive: set<Key>): (stopped: seq<string>)
    ensures |stopped| <= |items|
  {
    if items == [] then []
    else
      var init, last := items[..|items| - 1], items[|items| - 1];
      Orphans(init, alive) + if last.key in alive then [] else [last.id]
  }

  /** What asking Docker to remove something comes to: done, refused by the daemon, or no answer from it. */
  datatype Removal = Gone | Refused | Unreachable

  /** What is removed, one after the other, and whether a removal is raised; a lenient sweep passes a refusal over. */
  function Swept(items: seq<Item>, alive: set<Key>, removal: string -> Removal, lenient: bool): (seq<string>, bool) {
    if items == [] then ([], false)
    else
      var init, last := items[..|items| - 1], items[|items| - 1];
      var (removed, raised) := Swept(init, alive, removal, lenient);
      if raised then (removed, true)
      else if last.key in alive then (removed, false)
      else
        match removal(last.id)
        case Gone => (removed + [last.id], false)
        case Refused => (removed, !lenient)
        case Unreachable => (removed, true)
  }

  /** The loop over one kind of item. */
  method SweepItems(items: seq<Item>, alive: set<Key>, removal: string -> Removal, lenient: bool)
    returns (removed: seq<string>, raised: bool)
    ensures (removed, raised) == Swept(items, alive, removal, lenient)
  {
    removed, raised := [], false;
    for i := 0 to |items|
      invariant Swept(items[..i], alive, removal, lenient) == (removed, false) && !raised
    {
      assert items[..i + 1][..i] == items[..i];
      if items[i].key !in alive {
        match removal(items[i].id)
        case Gone => removed := removed + [items[i].id];
        case Refused => raised := !lenient;
        case Unreachable => raised := true;
      }
      if raised {
        SweptStops(items, i + 1, alive, removal, lenient);
        return;
      }
    }
    assert items[..|items|] == items;
  }

  lemma {:induction false} SweptStops(items: seq<Item>, n: nat, alive: set<Key>, removal: string -> Removal, lenient: bool)
    requires n <= |items| && Swept(items[..n], alive, removal, lenient).1
    ensures Swept(items, alive, removal, lenient) == Swept(items[..n], alive, removal, lenient)
  {
    if n < |items| {
      assert items[..|items| - 1][..n] == items[..n];
      SweptStops(items[..|items| - 1], n, alive, removal, lenient);
    } else {
      assert items[..n] == items;
    }
  }

  /** What a sweep removes is orphaned, and one that raises nothing and refuses nothing removes all that is. */
  lemma {:induction false} SweptAreOrphans(items: seq<Item>, alive: set<Key>, removal: string -> Removal, lenient: bool)
    ensures forall id :: id in Swept(items, alive, removal, lenient).0 ==> id in Orphans(items, alive)
    ensures !Swept(items, alive, removal, lenient).1 && !lenient ==> Swept(items, alive, removal, lenient).0 == Orphans(items, alive)
  {
    if items != [] { SweptAreOrphans(items[..|items| - 1], alive, removal, lenient); }
  }

  predicate IsOrphan(item: Item, alive: set<Key>) { item.key !in alive }

  /** The removal of this item is raised: nobody answers, or the daemon refuses and the sweep is not lenient. */
  predicate Stops(item: Item, alive: set<Key>, removal: string -> Removal, lenient: bool) {
    IsOrphan(item, alive) && (removal(item.id).Unreachable? || (removal(item.id).Refused? && !lenient))
  }

  /** This item is removed: none before it stopped the sweep. */
  predicate Removed(items: seq<Item>, i: int, alive: set<Key>, removal: string -> Removal, lenient: bool) {
    && 0 <= i < |items| && IsOrphan(items[i], alive) && removal(items[i].id).Gone?
    && forall j :: 0 <= j < i ==> !Stops(items[j], alive, removal, lenient)
  }

  /** A sweep removes, up to the first removal that is raised, every orphan Docker lets go. */
  lemma {:induction false} SweptExactly(items: seq<Item>, alive: set<Key>, removal: string -> Removal, lenient: bool)
    ensures Swept(items, alive, removal, lenient).1 <==> exists i :: 0 <= i < |items| && Stops(items[i], alive, removal, lenient)
    ensures forall id :: id in Swept(items, alive, removal, lenient).0 <==>
                         exists i :: Removed(items, i, alive, removal, lenient) && items[i].id == id
  {
    if items != [] {
      var n := |items| - 1;
      var init := items[..n];
      SweptExactly(init, alive, removal, lenient);
      StopsBefore(items, alive, removal, lenient);
      forall id
        ensures id in Swept(items, alive, removal, lenient).0 <==> exists i :: Removed(items, i, alive, removal, lenient) && items[i].id == id
      {
        if id in Swept(init, alive, removal, lenient).0 {
          var i :| Removed(init, i, alive, removal, lenient) && init[i].id == id;
          RemovedStill(items, i, alive, removal, lenient);
        } else if id in Swept(items, alive, removal, lenient).0 {
          assert Removed(items, n, alive, removal, lenient);
        }
        if exists i :: Removed(items, i, alive, removal, lenient) && items[i].id == id {
          var i :| Removed(items, i, alive, removal, lenient) && items[i].id == id;
          if i < n { RemovedStill(items, i, alive, removal, lenient); assert init[i].id == id; }
        }
      }
    }
  }

  lemma StopsBefore(items: seq<Item>, alive: set<Key>, removal: string -> Removal, lenient: bool)
    requires items != []
    ensures var n := |items| - 1;
            && ((exists i :: 0 <= i < |items| && Stops(items[i], alive, removal, lenient)) <==>
                (exists i :: 0 <= i < n && Stops(items[..n][i], alive, removal, lenient)) || Stops(items[n], alive, removal, lenient))
            && ((exists i :: 0 <= i < n && Stops(items[..n][i], alive, removal, lenient)) <==>
                !(forall j :: 0 <= j < n ==> !Stops(items[j], alive, removal, lenient)))
  {
    var n := |items| - 1;
    forall i | 0 <= i < n
      ensures items[..n][i] == items[i]
    {}
  }

  lemma RemovedStill(items: seq<Item>, i: int, alive: set<Key>, removal: string -> Removal, lenient: bool)
    requires items != [] && i < |items| - 1
    ensures Removed(items[..|items| - 1], i, alive, removal, lenient) <==> Removed(items, i, alive, removal, lenient)
  {
    var init := items[..|items| - 1];
    assert forall j :: 0 <= j < |init| ==> init[j] == items[j];
  }

  /** reap_orphans over the containers and the networks it listed, given the live attempts it read afterwards: it answers
      the containers it stopped, or raises; a network the daemon refuses to remove is passed over. */
  method ReapOrphans(containers: seq<Item>, networks: seq<Item>, alive: set<Key>, removal: string -> Removal)
    returns (stopped: seq<string>, removed: seq<string>, raised: bool)
    ensures stopped == Swept(containers, alive, removal, false).0
    ensures if Swept(containers, alive, removal, false).1 then removed == [] && raised
            else (removed, raised) == Swept(networks, alive, removal, true)
    ensures !raised ==> stopped == Orphans(containers, alive)
  {
    SweptAreOrphans(containers, alive, removal, false);
    removed := [];
    stopped, raised := SweepItems(containers, alive, removal, false);
    if !raised { removed, raised := SweepItems(networks, alive, removal, true); }
  }

  lemma {:induction false} OrphansAreDead(items: seq<Item>, alive: set<Key>, id: string)
    ensures id in Orphans(items, alive) <==> exists c :: c in items && c.id == id && c.key !in alive
  {
    if items != [] {
      var init, last := items[..|items| - 1], items[|items| - 1];
      OrphansAreDead(init, alive, id);
      assert items == init + [last];
      if exists c :: c in items && c.id == id && c.key !in alive {
        var c :| c in items && c.id == id && c.key !in alive;
        assert c in init || c == last;
      }
      if last.id == id && last.key !in alive { assert last in items; }
    }
  }

  /** Containers are listed first and the live attempts read afterwards, however much happens between. A container
      is to be stopped exactly when its attempt is not live in that reading; and the attempt of a stopped container still
      changes the tables exactly if one of its calls was in flight at the reading, and lands. */
  lemma OrphansWriteOnlyInFlight(listed: System, between: seq<Step>, containers: seq<Item>, c: Item, steps: seq<Step>)
    requires Inv(listed) && c in containers && c.key in listed.db.attempts
    requires forall d :: d in containers && d.id == c.id ==> d == c
    ensures var read := Run(listed, between);
            var stopped := c.id in Orphans(containers, LiveAttempts(read.db, read.clock));
            && (stopped <==> c.key !in LiveAttempts(read.db, read.clock))
            && (stopped ==>
                  ((exists i :: 0 <= i < |steps| && Writes(At(read, steps, i), steps[i], c.key)) <==>
                   (exists i :: 0 <= i < |steps| && InFlight(At(read, steps, i), steps[i], c.key, read.clock))))
  {
    hide Inv, Apply, Run, Writes, InFlight;
    var read := Run(listed, between);
    RunKeeps(listed, between);
    OrphansAreDead(containers, LiveAttempts(read.db, read.clock), c.id);
    if c.key !in LiveAttempts(read.db, read.clock) { WritesOnlyInFlight(read, c.key, steps); }
  }

  // ---- such calls do happen ----

  const REQUEST := Request("batch", [NewJob("job", "")], 3, "")
  const KEY := Key(1, 1)
  const HOLD := Hold("worker", KEY, 0)
  const CLAIMED := [Submit(REQUEST, None, 0, 0), Claim("worker", 10, {}, 0, 0), Tick(12)]

  lemma Submitted1() returns (s: System)
    ensures s == Apply(Initial(0), CLAIMED[0]) && s.clock == 0 && s.granted == {} && s.db.attempts == map[]
    ensures s.db.jobs.Keys == {1} && s.db.jobs[1] == NewRow(1, 1, 1, REQUEST, 0)
  {
    assert WithKey(EMPTY, None) == {};
    s := Apply(Initial(0), CLAIMED[0]);
    assert s.db.jobs.Keys == {1};
  }

  /** One job, claimed at 0 for 10; at 12 its attempt is not live. */
  lemma ClaimedAndLapsed() returns (s: System)
    ensures s == Run(Initial(0), CLAIMED) && Inv(s) && s.clock == 12 && s.granted == {HOLD}
    ensures s.db.jobs.Keys == {1} && s.db.attempts == map[KEY := AttemptRow("worker", 0, 10, None, None, None)]
    ensures var r := s.db.jobs[1];
            r.state.Claimed? && r.attempt == 1 && r.maxAttempts == 3 && r.cancelAt.None? && r.lease == Some(10)
    ensures KEY !in LiveAttempts(s.db, s.clock)
  {
    hide Inv, SubmitTx;
    ReachableOk(0, CLAIMED);
    var s1 := Submitted1();
    assert Claimable(s1.db, {}, 0) == {1};
    var s2 := Apply(s1, CLAIMED[1]);
    s := Apply(s2, CLAIMED[2]);
    assert CLAIMED[1..][1..][1..] == [];
    assert Run(Initial(0), CLAIMED) == Run(s1, CLAIMED[1..]) == Run(s2, CLAIMED[1..][1..]) == s;
  }

  /** A release that read the clock at 5 and commits at 13 gives back an attempt read as lapsed at 12. */
  lemma LateRelease(error: string, retry: RetryPolicy)
    ensures var s := Run(Initial(0), CLAIMED);
            var step := Release(HOLD, error, retry, 5, 13);
            && KEY !in LiveAttempts(s.db, s.clock) && InFlight(s, step, KEY, s.clock) && Writes(s, step, KEY)
            && EndedBy(Apply(s, step).db, KEY, ByRelease)
  {
    hide Inv, Run, Initial;
    var s := ClaimedAndLapsed();
    WritesExactly(s, Release(HOLD, error, retry, 5, 13), KEY);
  }

  /** So does a publish store a result. */
  lemma LatePublish(outcome: Outcome, body: Body)
    ensures var s := Run(Initial(0), CLAIMED);
            var step := Publish(HOLD, outcome, body, 5, 13);
            && KEY !in LiveAttempts(s.db, s.clock) && InFlight(s, step, KEY, s.clock) && Writes(s, step, KEY)
            && Stored(Apply(s, step).db, KEY, "worker", outcome, body)
  {
    hide Inv, Run, Initial;
    var s := ClaimedAndLapsed();
    var step := Publish(HOLD, outcome, body, 5, 13);
    WritesExactly(s, step, KEY);
    assert SameResult(Apply(s, step).db.results[s.db.nextResult], KEY, "worker", outcome, body);
  }

  /** And a heartbeat that read the clock at 5 revives it, until 15. */
  lemma LateHeartbeat()
    ensures var s := Run(Initial(0), CLAIMED);
            var step := Heartbeat(HOLD, 10, 5, 13);
            && KEY !in LiveAttempts(s.db, s.clock) && Revives(s, step, KEY)
            && KEY in LiveAttempts(Apply(s, step).db, Apply(s, step).clock)
  {
    hide Inv, Run, Initial;
    var s := ClaimedAndLapsed();
    var s' := Apply(s, Heartbeat(HOLD, 10, 5, 13));
    assert Live(s'.db, KEY, 13);
    assert Key(1, s'.db.jobs[1].attempt) == KEY;
  }
}
