/** Dealing a batch's service times to the first free worker (docs/results/bench/m21/analysis.py), and
    Graham's bounds on how long that takes. Times are reals. */
module Dealt {
  import opened Wrappers

  function Sum(xs: seq<real>): real { if xs == [] then 0.0 else xs[0] + Sum(xs[1..]) }

  predicate AtLeast(xs: seq<real>, low: real) { forall i :: 0 <= i < |xs| ==> low <= xs[i] }

  predicate AtMost(xs: seq<real>, high: real) { forall i :: 0 <= i < |xs| ==> xs[i] <= high }

  /** Where the greatest of some numbers is. */
  function MostAt(xs: seq<real>): (at: nat)
    requires xs != []
    ensures at < |xs| && AtMost(xs, xs[at])
  {
    if |xs| == 1 then 0
    else
      var rest := MostAt(xs[1..]);
      assert forall i :: 0 < i < |xs| ==> xs[i] == xs[1..][i - 1];
      if xs[0] >= xs[rest + 1] then 0 else rest + 1
  }

  function Most(xs: seq<real>): real
    requires xs != []
  {
    xs[MostAt(xs)]
  }

  /** Where the least of the loads is: what heappop takes. */
  function LeastAt(xs: seq<real>): (at: nat)
    requires xs != []
    ensures at < |xs| && AtLeast(xs, xs[at])
  {
    if |xs| == 1 then 0
    else
      var rest := LeastAt(xs[1..]);
      assert forall i :: 0 < i < |xs| ==> xs[i] == xs[1..][i - 1];
      if xs[0] <= xs[rest + 1] then 0 else rest + 1
  }

  /** heappop, then heappush of the load with the next job on top; the heap is kept as an unordered list. */
  function DealOne(free: seq<real>, seconds: real): (after: seq<real>)
    requires free != []
    ensures |after| == |free|
  {
    var at := LeastAt(free);
    free[..at] + free[at + 1..] + [free[at] + seconds]
  }

  function DealAll(free: seq<real>, service: seq<real>): (after: seq<real>)
    requires free != []
    ensures |after| == |free|
  {
    if service == [] then free else DealOne(DealAll(free, service[..|service| - 1]), service[|service| - 1])
  }

  function Idle(workers: nat): (free: seq<real>)
    ensures |free| == workers && AtLeast(free, 0.0) && AtMost(free, 0.0)
  {
    seq(workers, _ => 0.0)
  }

  /** How long the batch takes: when the last worker is free. */
  function Taken(service: seq<real>, workers: nat): real
    requires workers >= 1
  {
    Most(DealAll(Idle(workers), service))
  }

  /** _dealt. None where the source raises, with no worker to deal to. */
  method HowLong(service: seq<real>, workers: int) returns (seconds: Option<real>)
    ensures seconds == if workers < 1 then None else Some(Taken(service, workers))
  {
    if workers < 1 { return None; }
    var free := Idle(workers);
    for i := 0 to |service|
      invariant |free| == workers && free == DealAll(Idle(workers), service[..i])
    {
      assert service[..i + 1][..i] == service[..i];
      free := DealOne(free, service[i]);
    }
    assert service[..|service|] == service;
    seconds := Some(Most(free));
  }

  // ---- Graham's bounds ----

  lemma {:induction false} SumAppend(a: seq<real>, b: seq<real>)
    ensures Sum(a + b) == Sum(a) + Sum(b)
  {
    if a == [] {
      assert a + b == b;
    } else {
      assert (a + b)[1..] == a[1..] + b;
      SumAppend(a[1..], b);
    }
  }

  lemma OneMore(n: nat, x: real)
    requires n >= 1
    ensures n as real * x == (n - 1) as real * x + x
  {
    assert n as real == (n - 1) as real + 1.0;
  }

  lemma LessTimes(a: real, x: real, y: real)
    requires 0.0 <= a && x <= y
    ensures a * x <= a * y
  {}

  lemma {:induction false} LowerTimesCount(xs: seq<real>, low: real)
    requires AtLeast(xs, low)
    ensures |xs| as real * low <= Sum(xs)
  {
    if xs != [] {
      LowerTimesCount(xs[1..], low);
      OneMore(|xs|, low);
    }
  }

  /** m workers, each at it for so long, are enough for the work. */
  predicate Enough(m: real, each: real, work: real) { work <= m * each }

  lemma {:induction false} UpperTimesCount(xs: seq<real>, high: real)
    requires AtMost(xs, high)
    ensures Enough(|xs| as real, high, Sum(xs))
  {
    if xs != [] {
      UpperTimesCount(xs[1..], high);
      OneMore(|xs|, high);
    }
  }

  lemma SumOfOne(x: real)
    ensures Sum([x]) == x
  {
    assert [x][1..] == [];
  }

  /** Dealing loses nothing. */
  lemma DealOneSum(free: seq<real>, seconds: real)
    requires free != []
    ensures Sum(DealOne(free, seconds)) == Sum(free) + seconds
  {
    var at := LeastAt(free);
    var before, least, after := free[..at], free[at], free[at + 1..];
    assert free == before + ([least] + after);
    SumAppend(before, [least] + after);
    SumAppend([least], after);
    SumAppend(before + after, [least + seconds]);
    SumAppend(before, after);
    SumOfOne(least);
    SumOfOne(least + seconds);
  }

  lemma MovedToTheEnd<T>(all: seq<T>, at: nat, last: T, k: nat)
    requires at < |all| && k < |all|
    ensures (all[..at] + all[at + 1..] + [last])[k] == if k < at then all[k] else if k < |all| - 1 then all[k + 1] else last
  {
    var before, rest := all[..at], all[at + 1..];
    if k < at { assert before[k] == all[k]; } else if k < |all| - 1 { assert rest[k - at] == all[k + 1]; }
  }

  /** Each load after a job is dealt is one that was there or the least with the job on top. */
  lemma DealOneAt(free: seq<real>, seconds: real, k: nat)
    requires k < |free|
    ensures
      var at, after := LeastAt(free), DealOne(free, seconds);
      after[k] == if k < at then free[k] else if k < |free| - 1 then free[k + 1] else free[at] + seconds
  {
    hide LeastAt;
    MovedToTheEnd(free, LeastAt(free), free[LeastAt(free)] + seconds, k);
  }

  /** m times a load, against the whole work and the longest job. */
  predicate Fits(x: real, m: real, work: real, longest: real) { m * x <= work + (m - 1.0) * longest }

  predicate Bounded(loads: seq<real>, work: real, longest: real) {
    forall k :: 0 <= k < |loads| ==> Fits(loads[k], |loads| as real, work, longest)
  }

  lemma LeastFits(m: real, least: real, seconds: real, work: real, longest: real)
    requires m >= 1.0 && seconds <= longest && m * least <= work
    ensures Fits(least + seconds, m, work + seconds, longest)
  {
    LessTimes(m - 1.0, seconds, longest);
    assert m * (least + seconds) == m * least + ((m - 1.0) * seconds + seconds);
  }

  lemma DealOneBounded(free: seq<real>, seconds: real, longest: real)
    requires free != [] && 0.0 <= seconds <= longest && Bounded(free, Sum(free), longest)
    ensures Bounded(DealOne(free, seconds), Sum(free) + seconds, longest)
  {
    var at, m := LeastAt(free), |free| as real;
    LowerTimesCount(free, free[at]);
    LeastFits(m, free[at], seconds, Sum(free), longest);
    forall k | 0 <= k < |free|
      ensures Fits(DealOne(free, seconds)[k], m, Sum(free) + seconds, longest)
    {
      DealOneAt(free, seconds, k);
    }
  }

  /** Some load covers the job. */
  predicate Covered(seconds: real, loads: seq<real>) { exists k :: 0 <= k < |loads| && seconds <= loads[k] }

  lemma DealOneKeepsNonNegative(free: seq<real>, seconds: real)
    requires free != [] && 0.0 <= seconds && AtLeast(free, 0.0)
    ensures AtLeast(DealOne(free, seconds), 0.0)
  {
    forall k | 0 <= k < |free|
      ensures 0.0 <= DealOne(free, seconds)[k]
    {
      DealOneAt(free, seconds, k);
    }
  }

  /** No load shrinks: the least moves up, and the others stay. */
  lemma DealOneCovers(free: seq<real>, seconds: real, earlier: real)
    requires free != [] && 0.0 <= seconds && Covered(earlier, free)
    ensures Covered(earlier, DealOne(free, seconds))
  {
    var i :| 0 <= i < |free| && earlier <= free[i];
    var at := LeastAt(free);
    var k := if i < at then i else if i == at then |free| - 1 else i - 1;
    DealOneAt(free, seconds, k);
    assert earlier <= DealOne(free, seconds)[k];
  }

  lemma DealOneCoversIt(free: seq<real>, seconds: real)
    requires free != [] && AtLeast(free, 0.0)
    ensures Covered(seconds, DealOne(free, seconds))
  {
    DealOneAt(free, seconds, |free| - 1);
    assert seconds <= DealOne(free, seconds)[|free| - 1];
  }

  lemma NothingDealt(workers: nat, longest: real)
    requires workers >= 1 && 0.0 <= longest
    ensures Sum(Idle(workers)) == 0.0 && Bounded(Idle(workers), 0.0, longest)
  {
    LowerTimesCount(Idle(workers), 0.0);
    UpperTimesCount(Idle(workers), 0.0);
    LessTimes(workers as real - 1.0, 0.0, longest);
    assert forall k :: 0 <= k < workers ==> Idle(workers)[k] == 0.0;
  }

  lemma {:induction false} Dealing(service: seq<real>, workers: nat, longest: real)
    requires workers >= 1 && 0.0 <= longest && AtLeast(service, 0.0) && AtMost(service, longest)
    ensures
      var loads := DealAll(Idle(workers), service);
      && Sum(loads) == Sum(service) && Bounded(loads, Sum(service), longest) && AtLeast(loads, 0.0)
      && forall i :: 0 <= i < |service| ==> Covered(service[i], loads)
    decreases |service|
  {
    if service == [] {
      NothingDealt(workers, longest);
    } else {
      var init, last := service[..|service| - 1], service[|service| - 1];
      assert service == init + [last];
      Dealing(init, workers, longest);
      var loads := DealAll(Idle(workers), init);
      SumAppend(init, [last]);
      SumOfOne(last);
      DealOneSum(loads, last);
      DealOneBounded(loads, last, longest);
      DealOneKeepsNonNegative(loads, last);
      DealOneCoversIt(loads, last);
      forall i | 0 <= i < |init|
        ensures Covered(service[i], DealOne(loads, last))
      {
        assert service[i] == init[i];
        DealOneCovers(loads, last, init[i]);
      }
    }
  }

  /** The longest job; 0 for an empty batch. */
  function Longest(service: seq<real>): (longest: real)
    requires AtLeast(service, 0.0)
    ensures 0.0 <= longest && AtMost(service, longest)
  {
    if service == [] then 0.0 else Most(service)
  }

  lemma NoLessThanTheWork(service: seq<real>, workers: nat)
    requires workers >= 1 && AtLeast(service, 0.0)
    ensures Enough(workers as real, Taken(service, workers), Sum(service))
  {
    var loads := DealAll(Idle(workers), service);
    Dealing(service, workers, Longest(service));
    UpperTimesCount(loads, Most(loads));
  }

  lemma NoLessThanTheLongest(service: seq<real>, workers: nat)
    requires workers >= 1 && AtLeast(service, 0.0)
    ensures Longest(service) <= Taken(service, workers)
  {
    var loads := DealAll(Idle(workers), service);
    Dealing(service, workers, Longest(service));
    if service == [] {
      assert 0.0 <= loads[MostAt(loads)];
    } else {
      assert Covered(service[MostAt(service)], loads);
      var k :| 0 <= k < |loads| && service[MostAt(service)] <= loads[k];
      assert loads[k] <= Most(loads);
    }
  }

  lemma NoMoreThan(service: seq<real>, workers: nat)
    requires workers >= 1 && AtLeast(service, 0.0)
    ensures Fits(Taken(service, workers), workers as real, Sum(service), Longest(service))
  {
    var loads := DealAll(Idle(workers), service);
    Dealing(service, workers, Longest(service));
    assert Fits(loads[MostAt(loads)], |loads| as real, Sum(service), Longest(service));
  }

  /** What a batch dealt to m workers takes, multiplied by m: no less than the work, no less than m times the
      longest job, and no more than the work plus m - 1 times the longest job. */
  lemma GrahamsBounds(service: seq<real>, workers: nat)
    requires workers >= 1 && AtLeast(service, 0.0)
    ensures Sum(service) <= workers as real * Taken(service, workers)
    ensures Longest(service) <= Taken(service, workers)
    ensures workers as real * Taken(service, workers) <= Sum(service) + (workers as real - 1.0) * Longest(service)
  {
    NoLessThanTheWork(service, workers);
    NoLessThanTheLongest(service, workers);
    NoMoreThan(service, workers);
  }

  // ---- against any other way to deal ----

  /** A worker's load when job i goes to worker to[i]. */
  function Load(service: seq<real>, to: seq<nat>, worker: nat): real
    requires |to| == |service|
  {
    if service == [] then 0.0
    else Load(service[1..], to[1..], worker) + if to[0] == worker then service[0] else 0.0
  }

  function Loads(service: seq<real>, to: seq<nat>, workers: nat): real
    requires |to| == |service|
  {
    if workers == 0 then 0.0 else Loads(service, to, workers - 1) + Load(service, to, workers - 1)
  }

  lemma {:induction false} LoadsUnfold(service: seq<real>, to: seq<nat>, workers: nat)
    requires |to| == |service| >= 1
    ensures Loads(service, to, workers) == Loads(service[1..], to[1..], workers) + if to[0] < workers then service[0] else 0.0
  {
    if workers > 0 { LoadsUnfold(service, to, workers - 1); }
  }

  lemma {:induction false} LoadsNone(to: seq<nat>, workers: nat)
    requires to == []
    ensures Loads([], to, workers) == 0.0
  {
    if workers > 0 { LoadsNone(to, workers - 1); }
  }

  lemma {:induction false} LoadsAreWork(service: seq<real>, to: seq<nat>, workers: nat)
    requires |to| == |service| && forall i :: 0 <= i < |to| ==> to[i] < workers
    ensures Loads(service, to, workers) == Sum(service)
  {
    if service == [] {
      LoadsNone(to, workers);
    } else {
      LoadsUnfold(service, to, workers);
      LoadsAreWork(service[1..], to[1..], workers);
    }
  }

  lemma {:induction false} LoadsWithin(service: seq<real>, to: seq<nat>, workers: nat, most: real)
    requires |to| == |service| && forall w: nat :: w < workers ==> Load(service, to, w) <= most
    ensures Enough(workers as real, most, Loads(service, to, workers))
  {
    if workers > 0 {
      LoadsWithin(service, to, workers - 1, most);
      OneMore(workers, most);
    }
  }

  lemma {:induction false} LoadNonNegative(service: seq<real>, to: seq<nat>, w: nat)
    requires |to| == |service| && AtLeast(service, 0.0)
    ensures 0.0 <= Load(service, to, w)
  {
    if service != [] { LoadNonNegative(service[1..], to[1..], w); }
  }

  lemma {:induction false} JobWithin(service: seq<real>, to: seq<nat>, i: nat)
    requires |to| == |service| && i < |service| && AtLeast(service, 0.0)
    ensures service[i] <= Load(service, to, to[i])
  {
    LoadNonNegative(service[1..], to[1..], to[i]);
    if i > 0 { JobWithin(service[1..], to[1..], i - 1); }
  }

  /** took <= (2 - 1/m) * most, multiplied by m. */
  predicate WithinTwice(m: real, took: real, most: real) { m * took <= (2.0 * m - 1.0) * most }

  lemma TwiceLessOne(m: real, took: real, work: real, longest: real, most: real)
    requires m >= 1.0 && Fits(took, m, work, longest) && Enough(m, most, work) && longest <= most
    ensures WithinTwice(m, took, most)
  {
    LessTimes(m - 1.0, longest, most);
    assert (2.0 * m - 1.0) * most == m * most + (m - 1.0) * most;
  }

  lemma LongestWithin(service: seq<real>, to: seq<nat>, workers: nat, most: real)
    requires workers >= 1 && AtLeast(service, 0.0)
    requires |to| == |service| && forall i :: 0 <= i < |to| ==> to[i] < workers
    requires forall w: nat :: w < workers ==> Load(service, to, w) <= most
    ensures Longest(service) <= most
  {
    if service == [] {
      LoadNonNegative(service, to, 0);
      assert Load(service, to, 0) <= most;
    } else {
      JobWithin(service, to, MostAt(service));
      assert Load(service, to, to[MostAt(service)]) <= most;
    }
  }

  /** However the same jobs are given to the same workers, dealing takes at most 2 - 1/m times as long. */
  lemma WithinTwiceAny(service: seq<real>, workers: nat, to: seq<nat>, most: real)
    requires workers >= 1 && AtLeast(service, 0.0)
    requires |to| == |service| && forall i :: 0 <= i < |to| ==> to[i] < workers
    requires forall w: nat :: w < workers ==> Load(service, to, w) <= most
    ensures WithinTwice(workers as real, Taken(service, workers), most)
  {
    NoMoreThan(service, workers);
    LoadsAreWork(service, to, workers);
    LoadsWithin(service, to, workers, most);
    LongestWithin(service, to, workers, most);
    TwiceLessOne(workers as real, Taken(service, workers), Sum(service), Longest(service), most);
  }

  // ---- worker by worker ----

  function LoadOf(service: seq<real>, to: seq<nat>, workers: nat): (loads: seq<real>)
    requires |to| == |service|
    ensures |loads| == workers && forall w :: 0 <= w < workers ==> loads[w] == Load(service, to, w)
  {
    seq(workers, w requires 0 <= w < workers => Load(service, to, w))
  }

  /** Every job went to a worker no more loaded than any other was by the jobs before it. */
  ghost predicate ToLeastLoaded(service: seq<real>, to: seq<nat>, workers: nat)
    requires |to| == |service|
  {
    forall i :: 0 <= i < |to| ==> to[i] < workers && AtLeast(LoadOf(service[..i], to[..i], workers), Load(service[..i], to[..i], to[i]))
  }

  lemma {:induction false} LoadNext(service: seq<real>, to: seq<nat>, seconds: real, next: nat, w: nat)
    requires |to| == |service|
    ensures Load(service + [seconds], to + [next], w) == Load(service, to, w) + if next == w then seconds else 0.0
  {
    if service == [] {
      assert service + [seconds] == [seconds] && to + [next] == [next];
      assert [seconds][1..] == [] && [next][1..] == [];
    } else {
      assert (service + [seconds])[1..] == service[1..] + [seconds] && (to + [next])[1..] == to[1..] + [next];
      LoadNext(service[1..], to[1..], seconds, next, w);
    }
  }

  lemma LoadsNext(service: seq<real>, to: seq<nat>, seconds: real, next: nat, workers: nat)
    requires |to| == |service| && next < workers
    ensures var loads := LoadOf(service, to, workers);
            LoadOf(service + [seconds], to + [next], workers) == loads[next := loads[next] + seconds]
  {
    forall w | 0 <= w < workers
      ensures Load(service + [seconds], to + [next], w) == Load(service, to, w) + if next == w then seconds else 0.0
    {
      LoadNext(service, to, seconds, next, w);
    }
  }

  lemma DealOneIs(free: seq<real>, seconds: real)
    requires free != []
    ensures var least := free[LeastAt(free)];
            multiset(DealOne(free, seconds)) == multiset(free) - multiset{least} + multiset{least + seconds}
  {
    var at := LeastAt(free);
    assert free == free[..at] + [free[at]] + free[at + 1..];
  }

  lemma SameLeast(free: seq<real>, loads: seq<real>) returns (next: nat)
    requires free != [] && multiset(free) == multiset(loads)
    ensures next < |loads| && loads[next] == free[LeastAt(free)] && AtLeast(loads, loads[next])
  {
    var least := free[LeastAt(free)];
    assert least in multiset(loads);
    next :| 0 <= next < |loads| && loads[next] == least;
    forall w | 0 <= w < |loads|
      ensures least <= loads[w]
    {
      assert loads[w] in multiset(free);
    }
  }

  lemma DealtAlike(free: seq<real>, loads: seq<real>, next: nat, seconds: real)
    requires free != [] && multiset(free) == multiset(loads) && next < |loads| && loads[next] == free[LeastAt(free)]
    ensures multiset(DealOne(free, seconds)) == multiset(loads[next := loads[next] + seconds])
  {
    hide LeastAt, DealOne;
    DealOneIs(free, seconds);
  }

  lemma DealAllNext(free: seq<real>, service: seq<real>, seconds: real)
    requires free != []
    ensures DealAll(free, service + [seconds]) == DealOne(DealAll(free, service), seconds)
  {
    assert (service + [seconds])[..|service|] == service;
  }

  lemma NextToLeast(service: seq<real>, to: seq<nat>, workers: nat)
    requires |to| == |service| >= 1 && to[|to| - 1] < workers
    requires var n := |to| - 1; ToLeastLoaded(service[..n], to[..n], workers)
    requires var n := |to| - 1; AtLeast(LoadOf(service[..n], to[..n], workers), Load(service[..n], to[..n], to[n]))
    ensures ToLeastLoaded(service, to, workers)
  {
    var n := |to| - 1;
    forall i | 0 <= i < |to|
      ensures to[i] < workers && AtLeast(LoadOf(service[..i], to[..i], workers), Load(service[..i], to[..i], to[i]))
    {
      if i < n { assert service[..n][..i] == service[..i] && to[..n][..i] == to[..i] && to[..n][i] == to[i]; }
    }
  }

  /** The loads worker by worker are the dealt ones, in some order. */
  ghost predicate DealtAs(service: seq<real>, to: seq<nat>, workers: nat)
    requires workers >= 1 && |to| == |service|
  {
    multiset(DealAll(Idle(workers), service)) == multiset(LoadOf(service, to, workers))
  }

  lemma DealtNext(service: seq<real>, to: seq<nat>, workers: nat, seconds: real) returns (next: nat)
    requires workers >= 1 && |to| == |service| && DealtAs(service, to, workers)
    ensures next < workers && DealtAs(service + [seconds], to + [next], workers)
    ensures AtLeast(LoadOf(service, to, workers), Load(service, to, next))
  {
    hide DealOne, DealAll, LeastAt, Idle, Load;
    var free, loads := DealAll(Idle(workers), service), LoadOf(service, to, workers);
    next := SameLeast(free, loads);
    LoadsNext(service, to, seconds, next, workers);
    DealAllNext(Idle(workers), service, seconds);
    DealtAlike(free, loads, next, seconds);
  }

  /** The jobs as dealt: each to a worker least loaded by those before it. */
  lemma {:induction false} DealtInTurn(service: seq<real>, workers: nat) returns (to: seq<nat>)
    requires workers >= 1
    ensures |to| == |service| && ToLeastLoaded(service, to, workers) && DealtAs(service, to, workers)
    decreases |service|
  {
    if service == [] {
      to := [];
      assert LoadOf(service, to, workers) == Idle(workers);
    } else {
      hide ToLeastLoaded, DealtAs;
      var n := |service| - 1;
      var before := DealtInTurn(service[..n], workers);
      var next := DealtNext(service[..n], before, workers, service[n]);
      to := before + [next];
      assert service == service[..n] + [service[n]] && to[..n] == before && to[n] == next;
      NextToLeast(service, to, workers);
    }
  }

  /** What a batch takes is the greatest of the workers' loads. */
  lemma TakenIsTheGreatest(service: seq<real>, workers: nat) returns (to: seq<nat>, last: nat)
    requires workers >= 1
    ensures |to| == |service| && ToLeastLoaded(service, to, workers)
    ensures last < workers && Load(service, to, last) == Taken(service, workers)
    ensures forall w :: 0 <= w < workers ==> Load(service, to, w) <= Taken(service, workers)
  {
    to := DealtInTurn(service, workers);
    var loads, dealt := LoadOf(service, to, workers), DealAll(Idle(workers), service);
    assert dealt[MostAt(dealt)] in multiset(dealt);
    last :| 0 <= last < workers && loads[last] == Most(dealt);
    forall w | 0 <= w < workers
      ensures loads[w] <= Most(dealt)
    {
      assert loads[w] in multiset(loads);
    }
  }
}
