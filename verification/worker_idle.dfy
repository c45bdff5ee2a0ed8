/** The workers' idle time: before a first job, between jobs, after a last one (docs/results/bench/m21/analysis.py
    and backend/bench/report.py). Times are counted from the batch's submission. */
module WorkerIdle {
  import opened Wrappers
  import opened WorkerTime

  // ---- jobs by worker, each worker's in the order it claimed them ----

  function JobsOf(jobs: seq<Job>, worker: Worker): seq<Job> {
    if jobs == [] then []
    else
      var init, last := jobs[..|jobs| - 1], jobs[|jobs| - 1];
      JobsOf(init, worker) + if last.worker == worker then [last] else []
  }

  /** The workers that got a job, in the order of their first one. */
  function Workers(jobs: seq<Job>): seq<Worker> {
    if jobs == [] then []
    else
      var init, last := Workers(jobs[..|jobs| - 1]), jobs[|jobs| - 1].worker;
      if last in init then init else init + [last]
  }

  /** Where a stable sort puts one more job. */
  function Insert(sorted: seq<Job>, job: Job): (after: seq<Job>)
    ensures |after| == |sorted| + 1
  {
    if sorted == [] || sorted[|sorted| - 1].claimed <= job.claimed then sorted + [job]
    else Insert(sorted[..|sorted| - 1], job) + [sorted[|sorted| - 1]]
  }

  function InOrder(jobs: seq<Job>): (sorted: seq<Job>)
    ensures |sorted| == |jobs|
  {
    if jobs == [] then [] else Insert(InOrder(jobs[..|jobs| - 1]), jobs[|jobs| - 1])
  }

  lemma {:induction false} WorkersHaveJobs(jobs: seq<Job>, worker: Worker)
    ensures worker in Workers(jobs) <==> JobsOf(jobs, worker) != []
  {
    if jobs != [] { WorkersHaveJobs(jobs[..|jobs| - 1], worker); }
  }

  predicate Distinct(order: seq<Worker>) { forall i, j :: 0 <= i < j < |order| ==> order[i] != order[j] }

  lemma {:induction false} WorkersDistinct(jobs: seq<Job>)
    ensures Distinct(Workers(jobs))
  {
    if jobs != [] { WorkersDistinct(jobs[..|jobs| - 1]); }
  }

  method Grouped(jobs: seq<Job>) returns (order: seq<Worker>, byWorker: map<Worker, seq<Job>>)
    ensures order == Workers(jobs)
    ensures forall i :: 0 <= i < |order| ==> order[i] in byWorker && byWorker[order[i]] == JobsOf(jobs, order[i])
  {
    order, byWorker := [], map[];
    for n := 0 to |jobs|
      invariant order == Workers(jobs[..n])
      invariant forall w :: w in byWorker <==> JobsOf(jobs[..n], w) != []
      invariant forall w :: w in byWorker ==> byWorker[w] == JobsOf(jobs[..n], w)
    {
      var job := jobs[n];
      assert jobs[..n + 1][..n] == jobs[..n];
      WorkersHaveJobs(jobs[..n], job.worker);
      if job.worker !in byWorker {
        byWorker := byWorker[job.worker := []];
        order := order + [job.worker];
      }
      byWorker := byWorker[job.worker := byWorker[job.worker] + [job]];
    }
    assert jobs[..|jobs|] == jobs;
    forall i | 0 <= i < |order|
      ensures order[i] in byWorker
    {
      WorkersHaveJobs(jobs, order[i]);
    }
  }

  // ---- _idle ----

  datatype Part = Before | Between | After

  function Gaps(sorted: seq<Job>): real {
    if |sorted| <= 1 then 0.0
    else
      var last := |sorted| - 1;
      Gaps(sorted[..last]) + (sorted[last].claimed - sorted[last - 1].finished)
  }

  function PartOf(part: Part, sorted: seq<Job>, wall: real): real
    requires sorted != []
  {
    match part
    case Before => sorted[0].claimed
    case Between => Gaps(sorted)
    case After => wall - sorted[|sorted| - 1].finished
  }

  predicate HaveJobs(order: seq<Worker>, jobs: seq<Job>) { forall i :: 0 <= i < |order| ==> JobsOf(jobs, order[i]) != [] }

  function PartSum(part: Part, order: seq<Worker>, jobs: seq<Job>, wall: real): real
    requires HaveJobs(order, jobs)
  {
    if order == [] then 0.0
    else
      var last := |order| - 1;
      PartSum(part, order[..last], jobs, wall) + PartOf(part, InOrder(JobsOf(jobs, order[last])), wall)
  }

  lemma AllHaveJobs(jobs: seq<Job>)
    ensures HaveJobs(Workers(jobs), jobs)
  {
    forall i | 0 <= i < |Workers(jobs)|
      ensures JobsOf(jobs, Workers(jobs)[i]) != []
    {
      WorkersHaveJobs(jobs, Workers(jobs)[i]);
    }
  }

  /** The idle time of one kind, of the workers that got a job. */
  function Idled(part: Part, jobs: seq<Job>, wall: real): real {
    AllHaveJobs(jobs);
    PartSum(part, Workers(jobs), jobs, wall)
  }

  /** The idle time of one kind, in seconds of worker time: a worker without a job is idle after a last one all along. */
  function IdleTime(part: Part, jobs: seq<Job>, workers: int, wall: real): real {
    Idled(part, jobs, wall) + if part == After then Times(workers - |Workers(jobs)|, wall) else 0.0
  }

  datatype Shares = Shares(first: real, between: real, last: real)

  function IdleShares(jobs: seq<Job>, workers: int, wall: real): Shares
    requires Times(workers, wall) != 0.0
  {
    var capacity := Times(workers, wall);
    Shares(IdleTime(Before, jobs, workers, wall) / capacity, IdleTime(Between, jobs, workers, wall) / capacity,
           IdleTime(After, jobs, workers, wall) / capacity)
  }

  method PairwiseGaps(sorted: seq<Job>) returns (gaps: real)
    ensures gaps == Gaps(sorted)
  {
    gaps := 0.0;
    if sorted == [] { return; }
    for i := 1 to |sorted|
      invariant gaps == Gaps(sorted[..i])
    {
      assert sorted[..i + 1][..i] == sorted[..i];
      gaps := gaps + (sorted[i].claimed - sorted[i - 1].finished);
    }
    assert sorted[..|sorted|] == sorted;
  }

  /** One turn of _idle's loop: a worker's three kinds of idle time. */
  method IdleOf(jobs: seq<Job>, wall: real) returns (before: real, between: real, after: real)
    requires jobs != []
    ensures before == PartOf(Before, InOrder(jobs), wall) && between == PartOf(Between, InOrder(jobs), wall)
    ensures after == PartOf(After, InOrder(jobs), wall)
  {
    var sorted := InOrder(jobs);
    before := sorted[0].claimed;
    between := PairwiseGaps(sorted);
    after := wall - sorted[|sorted| - 1].finished;
  }

  /** The loop of _idle: the three kinds of idle time, of the workers that got a job. */
  method IdleTimes(jobs: seq<Job>, wall: real) returns (first: real, between: real, last: real, withJobs: nat)
    ensures first == Idled(Before, jobs, wall) && between == Idled(Between, jobs, wall) && last == Idled(After, jobs, wall)
    ensures withJobs == |Workers(jobs)|
  {
    hide PartOf, InOrder, JobsOf, Workers;
    var order, byWorker := Grouped(jobs);
    withJobs := |order|;
    first, between, last := 0.0, 0.0, 0.0;
    AllHaveJobs(jobs);
    for i := 0 to |order|
      invariant first == PartSum(Before, order[..i], jobs, wall)
      invariant between == PartSum(Between, order[..i], jobs, wall)
      invariant last == PartSum(After, order[..i], jobs, wall)
    {
      assert order[..i + 1][..i] == order[..i];
      var more, gaps, rest := IdleOf(byWorker[order[i]], wall);
      first, between, last := first + more, between + gaps, last + rest;
    }
    assert order[..|order|] == order;
  }

  /** _idle; None where the source divides by zero. */
  method Idle(jobs: seq<Job>, workers: int, wall: real) returns (shares: Option<Shares>)
    ensures shares == if Times(workers, wall) == 0.0 then None else Some(IdleShares(jobs, workers, wall))
  {
    hide Times, Idled, Workers;
    var first, between, last, withJobs := IdleTimes(jobs, wall);
    var idleTime := Multiplied(workers - withJobs, wall);
    var capacity := Multiplied(workers, wall);
    if capacity == 0.0 { return None; }
    shares := Some(Shares(first / capacity, between / capacity, (last + idleTime) / capacity));
  }

  // ---- regrouping and sorting lose nothing ----

  lemma {:induction false} InsertTotal(measure: Measure, sorted: seq<Job>, job: Job)
    ensures Total(measure, Insert(sorted, job)) == Total(measure, sorted) + Amount(measure, job)
  {
    var after := Insert(sorted, job);
    if sorted == [] || sorted[|sorted| - 1].claimed <= job.claimed {
      assert after[..|sorted|] == sorted;
    } else {
      InsertTotal(measure, sorted[..|sorted| - 1], job);
      assert after[..|sorted|] == Insert(sorted[..|sorted| - 1], job);
    }
  }

  lemma {:induction false} InOrderTotal(measure: Measure, jobs: seq<Job>)
    ensures Total(measure, InOrder(jobs)) == Total(measure, jobs)
  {
    if jobs != [] {
      InOrderTotal(measure, jobs[..|jobs| - 1]);
      InsertTotal(measure, InOrder(jobs[..|jobs| - 1]), jobs[|jobs| - 1]);
    }
  }

  function ByWorker(measure: Measure, order: seq<Worker>, jobs: seq<Job>): real {
    if order == [] then 0.0
    else
      var last := |order| - 1;
      ByWorker(measure, order[..last], jobs) + Total(measure, JobsOf(jobs, order[last]))
  }

  /** One more job adds its amount to its own worker's. */
  lemma {:induction false} OneMoreJob(measure: Measure, order: seq<Worker>, jobs: seq<Job>, job: Job)
    requires Distinct(order)
    ensures ByWorker(measure, order, jobs + [job])
         == ByWorker(measure, order, jobs) + if job.worker in order then Amount(measure, job) else 0.0
  {
    if order != [] {
      var init, last := order[..|order| - 1], order[|order| - 1];
      OneMoreJob(measure, init, jobs, job);
      assert (jobs + [job])[..|jobs|] == jobs;
      assert order == init + [last];
      var had := JobsOf(jobs, last);
      if job.worker == last {
        assert JobsOf(jobs + [job], last) == had + [job];
        assert (had + [job])[..|had|] == had;
        assert last !in init;
        assert job.worker in order;
      } else {
        assert JobsOf(jobs + [job], last) == had;
        assert job.worker in order <==> job.worker in init;
      }
    }
  }

  lemma {:induction false} WorkersAddUp(measure: Measure, jobs: seq<Job>)
    ensures ByWorker(measure, Workers(jobs), jobs) == Total(measure, jobs)
  {
    if jobs != [] {
      var init, job := jobs[..|jobs| - 1], jobs[|jobs| - 1];
      assert jobs == init + [job];
      WorkersAddUp(measure, init);
      WorkersDistinct(init);
      OneMoreJob(measure, Workers(init), init, job);
      if job.worker !in Workers(init) { NewWorker(measure, init, job); }
    }
  }

  lemma NewWorker(measure: Measure, init: seq<Job>, job: Job)
    requires job.worker !in Workers(init)
    ensures ByWorker(measure, Workers(init) + [job.worker], init + [job])
         == ByWorker(measure, Workers(init), init + [job]) + Amount(measure, job)
  {
    var order, jobs := Workers(init) + [job.worker], init + [job];
    assert order[..|order| - 1] == Workers(init) && jobs[..|init|] == init;
    WorkersHaveJobs(init, job.worker);
    assert JobsOf(jobs, job.worker) == [job];
    assert [job][..0] == [];
    assert Total(measure, [job]) == Amount(measure, job);
  }

  // ---- worker time is conserved ----

  lemma {:induction false} OneWorkersTime(sorted: seq<Job>, wall: real)
    requires sorted != []
    ensures PartOf(Before, sorted, wall) + PartOf(Between, sorted, wall) + PartOf(After, sorted, wall)
         == wall - Total(Service, sorted)
  {
    var init := sorted[..|sorted| - 1];
    if init == [] {
      assert Total(Service, init) == 0.0;
    } else {
      OneWorkersTime(init, wall);
    }
  }

  lemma {:induction false} EveryWorkersTime(order: seq<Worker>, jobs: seq<Job>, wall: real)
    requires HaveJobs(order, jobs)
    ensures PartSum(Before, order, jobs, wall) + PartSum(Between, order, jobs, wall) + PartSum(After, order, jobs, wall)
         == Times(|order|, wall) - ByWorker(Service, order, jobs)
  {
    if order != [] {
      var init, last := order[..|order| - 1], order[|order| - 1];
      EveryWorkersTime(init, jobs, wall);
      OneWorkersTime(InOrder(JobsOf(jobs, last)), wall);
      InOrderTotal(Service, JobsOf(jobs, last));
    }
  }

  lemma IdledAndBusy(jobs: seq<Job>, wall: real)
    ensures Idled(Before, jobs, wall) + Idled(Between, jobs, wall) + Idled(After, jobs, wall)
         == Times(|Workers(jobs)|, wall) - Total(Service, jobs)
  {
    AllHaveJobs(jobs);
    EveryWorkersTime(Workers(jobs), jobs, wall);
    WorkersAddUp(Service, jobs);
  }

  lemma IdleIsTheRest(jobs: seq<Job>, workers: int, wall: real)
    ensures IdleTime(Before, jobs, workers, wall) + IdleTime(Between, jobs, workers, wall) + IdleTime(After, jobs, workers, wall)
         == Times(workers, wall) - Total(Service, jobs)
  {
    IdledAndBusy(jobs, wall);
    TimesSplits(|Workers(jobs)|, workers - |Workers(jobs)|, wall);
  }

  // ---- each kind by itself ----

  /** A worker's earliest claim. */
  function Earliest(jobs: seq<Job>): real
    requires jobs != []
  {
    if |jobs| == 1 then jobs[0].claimed else Min(Earliest(jobs[..|jobs| - 1]), jobs[|jobs| - 1].claimed)
  }

  /** The job a worker claimed last; of several at once, the last one listed. */
  function LastClaimed(jobs: seq<Job>): Job
    requires jobs != []
  {
    if |jobs| == 1 then jobs[0]
    else
      var before, last := LastClaimed(jobs[..|jobs| - 1]), jobs[|jobs| - 1];
      if before.claimed <= last.claimed then last else before
  }

  predicate Ordered(sorted: seq<Job>) { forall i, j :: 0 <= i < j < |sorted| ==> sorted[i].claimed <= sorted[j].claimed }

  lemma {:induction false} InsertEnds(sorted: seq<Job>, job: Job)
    requires Ordered(sorted)
    ensures var after := Insert(sorted, job);
            && Ordered(after)
            && (forall i :: 0 <= i < |after| ==> after[i] == job || after[i] in sorted)
            && after[0].claimed == (if sorted == [] then job.claimed else Min(sorted[0].claimed, job.claimed))
            && after[|sorted|] == if sorted == [] || sorted[|sorted| - 1].claimed <= job.claimed then job else sorted[|sorted| - 1]
  {
    if sorted != [] && job.claimed < sorted[|sorted| - 1].claimed {
      var init, last := sorted[..|sorted| - 1], sorted[|sorted| - 1];
      InsertEnds(init, job);
      var rest := Insert(init, job);
      forall i | 0 <= i < |rest|
        ensures rest[i].claimed <= last.claimed
      {
        if rest[i] != job {
          var k :| 0 <= k < |init| && init[k] == rest[i];
          assert sorted[k] == rest[i];
        }
      }
      forall i | 0 <= i < |rest|
        ensures rest[i] == job || rest[i] in sorted
      {
        if rest[i] != job { assert rest[i] in init; }
      }
    }
  }

  lemma {:induction false} InOrderEnds(jobs: seq<Job>)
    ensures Ordered(InOrder(jobs))
    ensures jobs != [] ==> InOrder(jobs)[0].claimed == Earliest(jobs) && InOrder(jobs)[|jobs| - 1] == LastClaimed(jobs)
  {
    if jobs != [] {
      InOrderEnds(jobs[..|jobs| - 1]);
      InsertEnds(InOrder(jobs[..|jobs| - 1]), jobs[|jobs| - 1]);
    }
  }

  function EarliestSum(order: seq<Worker>, jobs: seq<Job>): real
    requires HaveJobs(order, jobs)
  {
    if order == [] then 0.0
    else
      var last := |order| - 1;
      EarliestSum(order[..last], jobs) + Earliest(JobsOf(jobs, order[last]))
  }

  function AfterSum(order: seq<Worker>, jobs: seq<Job>, wall: real): real
    requires HaveJobs(order, jobs)
  {
    if order == [] then 0.0
    else
      var last := |order| - 1;
      AfterSum(order[..last], jobs, wall) + (wall - LastClaimed(JobsOf(jobs, order[last])).finished)
  }

  lemma {:induction false} EndsAddUp(order: seq<Worker>, jobs: seq<Job>, wall: real)
    requires HaveJobs(order, jobs)
    ensures PartSum(Before, order, jobs, wall) == EarliestSum(order, jobs)
    ensures PartSum(After, order, jobs, wall) == AfterSum(order, jobs, wall)
  {
    hide InOrder, JobsOf;
    if order != [] {
      EndsAddUp(order[..|order| - 1], jobs, wall);
      InOrderEnds(JobsOf(jobs, order[|order| - 1]));
    }
  }

  /** Each kind of idle time: before, up to every worker's earliest claim; after, from the end of the job each claimed last,
      and all along for a worker without one; and between, whatever is left of the workers' time besides the service. */
  lemma EachKindIs(jobs: seq<Job>, workers: int, wall: real)
    ensures HaveJobs(Workers(jobs), jobs)
    ensures IdleTime(Before, jobs, workers, wall) == EarliestSum(Workers(jobs), jobs)
    ensures IdleTime(After, jobs, workers, wall) == AfterSum(Workers(jobs), jobs, wall) + Times(workers - |Workers(jobs)|, wall)
    ensures IdleTime(Between, jobs, workers, wall) ==
            Times(workers, wall) - Total(Service, jobs) - IdleTime(Before, jobs, workers, wall) - IdleTime(After, jobs, workers, wall)
  {
    AllHaveJobs(jobs);
    EndsAddUp(Workers(jobs), jobs, wall);
    IdleIsTheRest(jobs, workers, wall);
  }

  /** Each share is its kind's, of the workers' time. */
  lemma EachShareIs(jobs: seq<Job>, workers: int, wall: real)
    requires Times(workers, wall) != 0.0
    ensures HaveJobs(Workers(jobs), jobs)
    ensures var shares, capacity := IdleShares(jobs, workers, wall), Times(workers, wall);
            var after := AfterSum(Workers(jobs), jobs, wall) + Times(workers - |Workers(jobs)|, wall);
            && shares.first * capacity == EarliestSum(Workers(jobs), jobs)
            && shares.last * capacity == after
            && shares.between * capacity == capacity - Total(Service, jobs) - EarliestSum(Workers(jobs), jobs) - after
  {
    hide Times, IdleTime, Workers;
    EachKindIs(jobs, workers, wall);
    Divided(IdleTime(Before, jobs, workers, wall), Times(workers, wall));
    Divided(IdleTime(Between, jobs, workers, wall), Times(workers, wall));
    Divided(IdleTime(After, jobs, workers, wall), Times(workers, wall));
  }

  /** No job finishes before it was claimed. */
  predicate Forward(jobs: seq<Job>) { forall i :: 0 <= i < |jobs| ==> jobs[i].claimed <= jobs[i].finished }

  predicate InWindow(jobs: seq<Job>, wall: real) {
    forall i :: 0 <= i < |jobs| ==> 0.0 <= jobs[i].claimed && jobs[i].finished <= wall
  }

  lemma {:induction false} BusyIsService(jobs: seq<Job>, wall: real)
    requires InWindow(jobs, wall)
    ensures Total(Within(0.0, wall), jobs) >= Total(Service, jobs)
    ensures Total(Within(0.0, wall), jobs) == Total(Service, jobs) <==> Forward(jobs)
  {
    if jobs != [] {
      var init, last := jobs[..|jobs| - 1], jobs[|jobs| - 1];
      BusyIsService(init, wall);
      assert Forward(jobs) <==> Forward(init) && last.claimed <= last.finished;
    }
  }

  lemma Quotients(a: real, b: real, c: real, d: real, whole: real)
    requires whole > 0.0
    ensures a / whole + b / whole + c / whole + d / whole == 1.0 <==> a + b + c + d == whole
  {
    var sum := a + b + c + d;
    assert a / whole + b / whole + c / whole + d / whole == sum / whole;
    assert (sum / whole) * whole == sum;
  }

  /** With the busy share, the idle shares add up to one exactly when no job finishes before its claim. */
  lemma WorkerTimeIsConserved(jobs: seq<Job>, workers: int, wall: real)
    requires workers >= 1 && wall > 0.0 && Times(workers, wall) != 0.0 && InWindow(jobs, wall)
    ensures var idle := IdleShares(jobs, workers, wall);
            idle.first + idle.between + idle.last + BusyFraction(jobs, workers, 0.0, wall) == 1.0 <==> Forward(jobs)
  {
    TimesPositive(workers, wall);
    assert wall - 0.0 == wall;
    IdleIsTheRest(jobs, workers, wall);
    BusyIsService(jobs, wall);
    Quotients(IdleTime(Before, jobs, workers, wall), IdleTime(Between, jobs, workers, wall),
              IdleTime(After, jobs, workers, wall), Total(Within(0.0, wall), jobs), Times(workers, wall));
  }

  // ---- serial workers ----

  /** A worker's jobs in claim order, none started before the last one finished. */
  predicate Serial(sorted: seq<Job>) {
    Forward(sorted) && forall i :: 0 < i < |sorted| ==> sorted[i - 1].finished <= sorted[i].claimed
  }

  ghost predicate SerialWorkers(jobs: seq<Job>) { forall w: Worker :: Serial(InOrder(JobsOf(jobs, w))) }

  lemma {:induction false} SerialWithin(sorted: seq<Job>, low: real, high: real)
    requires Serial(sorted) && low <= high
    ensures Total(Within(low, high), sorted) <= high - low
    ensures sorted != [] ==> Total(Within(low, high), sorted) <= Max(0.0, Min(sorted[|sorted| - 1].finished, high) - low)
  {
    if sorted != [] {
      var init := sorted[..|sorted| - 1];
      SerialWithin(init, low, high);
      if init != [] { assert sorted[|sorted| - 2].finished <= sorted[|sorted| - 1].claimed; }
    }
  }

  lemma {:induction false} SerialByWorker(order: seq<Worker>, jobs: seq<Job>, low: real, high: real)
    requires SerialWorkers(jobs) && low <= high
    ensures ByWorker(Within(low, high), order, jobs) <= Times(|order|, high - low)
  {
    if order != [] {
      var last := order[|order| - 1];
      SerialByWorker(order[..|order| - 1], jobs, low, high);
      SerialWithin(InOrder(JobsOf(jobs, last)), low, high);
      InOrderTotal(Within(low, high), JobsOf(jobs, last));
    }
  }

  lemma {:induction false} TotalNonNegative(jobs: seq<Job>, low: real, high: real)
    ensures 0.0 <= Total(Within(low, high), jobs)
  {
    if jobs != [] { TotalNonNegative(jobs[..|jobs| - 1], low, high); }
  }

  lemma BusyWithinCapacity(jobs: seq<Job>, workers: nat, start: real, end: real)
    requires SerialWorkers(jobs) && |Workers(jobs)| <= workers && start <= end
    ensures Total(Within(start, end), jobs) <= Times(workers, end - start)
  {
    WorkersAddUp(Within(start, end), jobs);
    SerialByWorker(Workers(jobs), jobs, start, end);
    TimesInOrder(|Workers(jobs)|, workers, end - start);
  }

  /** No window, and so no bucket of the timeline, is ever more than fully busy. */
  lemma AtMostFullyBusy(jobs: seq<Job>, workers: int, start: real, end: real)
    requires SerialWorkers(jobs) && |Workers(jobs)| <= workers
    ensures 0.0 <= BusyFraction(jobs, workers, start, end) <= 1.0
  {
    if Times(workers, end - start) > 0.0 {
      TimesPositive(workers, end - start);
      BusyWithinCapacity(jobs, workers, start, end);
      TotalNonNegative(jobs, start, end);
      AsShare(Total(Within(start, end), jobs), Times(workers, end - start));
    }
  }

  lemma AsShare(busy: real, capacity: real)
    requires 0.0 <= busy <= capacity && capacity > 0.0
    ensures 0.0 <= busy / capacity <= 1.0
  {
    Divided(busy, capacity);
  }

  // ---- the report's own measure of the idle time after a last job ----

  /** A worker's latest finish, or 0. */
  function Latest(jobs: seq<Job>): real {
    if jobs == [] then 0.0 else Max(Latest(jobs[..|jobs| - 1]), jobs[|jobs| - 1].finished)
  }

  function LatestSum(order: seq<Worker>, jobs: seq<Job>, wall: real): real {
    if order == [] then 0.0
    else
      var last := |order| - 1;
      LatestSum(order[..last], jobs, wall) + (wall - Latest(JobsOf(jobs, order[last])))
  }

  function AfterLastShare(jobs: seq<Job>, workers: int, wall: real): real
    requires Times(workers, wall) != 0.0
  {
    (LatestSum(Workers(jobs), jobs, wall) + Times(workers - |Workers(jobs)|, wall)) / Times(workers, wall)
  }

  /** The first loop of _after_last. */
  method LatestByWorker(jobs: seq<Job>) returns (order: seq<Worker>, last: map<Worker, real>)
    ensures order == Workers(jobs)
    ensures forall i :: 0 <= i < |order| ==> order[i] in last && last[order[i]] == Latest(JobsOf(jobs, order[i]))
  {
    order, last := [], map[];
    for n := 0 to |jobs|
      invariant order == Workers(jobs[..n])
      invariant forall w :: w in last <==> JobsOf(jobs[..n], w) != []
      invariant forall w :: w in last ==> last[w] == Latest(JobsOf(jobs[..n], w))
    {
      var job := jobs[n];
      assert jobs[..n + 1][..n] == jobs[..n];
      WorkersHaveJobs(jobs[..n], job.worker);
      ghost var earlier := JobsOf(jobs[..n], job.worker);
      assert (earlier + [job])[..|earlier|] == earlier;
      assert JobsOf(jobs[..n + 1], job.worker) == earlier + [job];
      assert Latest(earlier + [job]) == Max(Latest(earlier), job.finished);
      assert forall w :: w != job.worker ==> JobsOf(jobs[..n + 1], w) == JobsOf(jobs[..n], w);
      var sofar := if job.worker in last then last[job.worker] else 0.0;
      if job.worker !in last { order := order + [job.worker]; }
      last := last[job.worker := Max(sofar, job.finished)];
    }
    assert jobs[..|jobs|] == jobs;
    forall i | 0 <= i < |order|
      ensures order[i] in last
    {
      WorkersHaveJobs(jobs, order[i]);
    }
  }

  method SumLatest(jobs: seq<Job>, wall: real) returns (idle: real, withJobs: nat)
    ensures idle == LatestSum(Workers(jobs), jobs, wall) && withJobs == |Workers(jobs)|
  {
    var order, last := LatestByWorker(jobs);
    withJobs := |order|;
    idle := 0.0;
    for i := 0 to |order|
      invariant idle == LatestSum(order[..i], jobs, wall)
    {
      assert order[..i + 1][..i] == order[..i];
      idle := idle + (wall - last[order[i]]);
    }
    assert order[..|order|] == order;
  }

  /** _after_last; None where the source divides by zero. */
  method AfterLast(jobs: seq<Job>, workers: int, wall: real) returns (share: Option<real>)
    ensures share == if Times(workers, wall) == 0.0 then None else Some(AfterLastShare(jobs, workers, wall))
  {
    hide Times, LatestSum, Workers;
    var idle, withJobs := SumLatest(jobs, wall);
    var idleTime := Multiplied(workers - withJobs, wall);
    var capacity := Multiplied(workers, wall);
    if capacity == 0.0 { return None; }
    share := Some((idle + idleTime) / capacity);
  }

  lemma {:induction false} InsertLatest(sorted: seq<Job>, job: Job)
    ensures Latest(Insert(sorted, job)) == Max(Latest(sorted), job.finished)
  {
    var after := Insert(sorted, job);
    if sorted == [] || sorted[|sorted| - 1].claimed <= job.claimed {
      assert after[..|sorted|] == sorted;
    } else {
      InsertLatest(sorted[..|sorted| - 1], job);
      assert after[..|sorted|] == Insert(sorted[..|sorted| - 1], job);
    }
  }

  lemma {:induction false} InOrderLatest(jobs: seq<Job>)
    ensures Latest(InOrder(jobs)) == Latest(jobs)
  {
    if jobs != [] {
      InOrderLatest(jobs[..|jobs| - 1]);
      InsertLatest(InOrder(jobs[..|jobs| - 1]), jobs[|jobs| - 1]);
    }
  }

  lemma {:induction false} SerialLatest(sorted: seq<Job>)
    requires sorted != [] && Serial(sorted) && 0.0 <= sorted[0].claimed
    ensures Latest(sorted) == sorted[|sorted| - 1].finished >= 0.0
  {
    var init := sorted[..|sorted| - 1];
    if init == [] {
      assert Latest(init) == 0.0;
    } else {
      SerialLatest(init);
      assert sorted[|sorted| - 2].finished <= sorted[|sorted| - 1].claimed;
    }
  }

  lemma {:induction false} InsertKeeps(sorted: seq<Job>, job: Job)
    requires 0.0 <= job.claimed && forall i :: 0 <= i < |sorted| ==> 0.0 <= sorted[i].claimed
    ensures forall i :: 0 <= i < |Insert(sorted, job)| ==> 0.0 <= Insert(sorted, job)[i].claimed
  {
    if sorted != [] && job.claimed < sorted[|sorted| - 1].claimed { InsertKeeps(sorted[..|sorted| - 1], job); }
  }

  predicate Started(jobs: seq<Job>) { forall i :: 0 <= i < |jobs| ==> 0.0 <= jobs[i].claimed }

  lemma {:induction false} OfWorkerStarted(jobs: seq<Job>, worker: Worker)
    requires Started(jobs)
    ensures Started(InOrder(JobsOf(jobs, worker)))
  {
    if jobs != [] {
      var init, last := jobs[..|jobs| - 1], jobs[|jobs| - 1];
      OfWorkerStarted(init, worker);
      if last.worker == worker {
        InsertKeeps(InOrder(JobsOf(init, worker)), last);
        assert JobsOf(jobs, worker)[..|JobsOf(init, worker)|] == JobsOf(init, worker);
      } else {
        assert JobsOf(jobs, worker) == JobsOf(init, worker);
      }
    }
  }

  lemma {:induction false} LatestIsLast(order: seq<Worker>, jobs: seq<Job>, wall: real)
    requires SerialWorkers(jobs) && Started(jobs) && HaveJobs(order, jobs)
    ensures LatestSum(order, jobs, wall) == PartSum(After, order, jobs, wall)
  {
    if order != [] {
      var last := order[|order| - 1];
      LatestIsLast(order[..|order| - 1], jobs, wall);
      OfWorkerStarted(jobs, last);
      SerialLatest(InOrder(JobsOf(jobs, last)));
      InOrderLatest(JobsOf(jobs, last));
    }
  }

  /** For serial workers the report and the analysis measure the same idle time after a last job. */
  lemma TheReportAgrees(jobs: seq<Job>, workers: int, wall: real)
    requires Times(workers, wall) != 0.0 && SerialWorkers(jobs) && Started(jobs)
    ensures AfterLastShare(jobs, workers, wall) == IdleShares(jobs, workers, wall).last
  {
    AllHaveJobs(jobs);
    LatestIsLast(Workers(jobs), jobs, wall);
  }
}
