/** Where a batch's worker time went: busy (backend/bench/metrics.py), and idle before a worker's first job,
    between its jobs and after its last (docs/results/bench/m21/analysis.py, backend/bench/report.py). Times are
    reals, counted from the batch's submission where a member says so. */
module WorkerTime {
  type Worker = string

  datatype Job = Job(worker: Worker, claimed: real, finished: real)

  function Min(a: real, b: real): real { if a <= b then a else b }

  function Max(a: real, b: real): real { if a >= b then a else b }

  // ---- so many times a time ----

  /** n * x, as TimesIsProduct says, one x at a time. */
  function Times(n: int, x: real): real
    decreases if n < 0 then -n else n
  {
    if n == 0 then 0.0 else if n < 0 then Times(n + 1, x) - x else Times(n - 1, x) + x
  }

  lemma {:induction false} TimesIsProduct(n: int, x: real)
    ensures Times(n, x) == n as real * x
    decreases if n < 0 then -n else n
  {
    if n < 0 {
      TimesIsProduct(n + 1, x);
      OneMore(n as real, x);
      assert (n + 1) as real == n as real + 1.0;
    } else if n > 0 {
      TimesIsProduct(n - 1, x);
      OneMore((n - 1) as real, x);
      assert n as real == (n - 1) as real + 1.0;
    }
  }

  method Multiplied(n: int, x: real) returns (product: real)
    ensures product == Times(n, x)
  {
    TimesIsProduct(n, x);
    product := n as real * x;
  }

  lemma OneMore(n: real, x: real)
    ensures (n + 1.0) * x == n * x + x
  {}

  lemma {:induction false} TimesInOrder(n: nat, m: nat, x: real)
    requires n <= m && x >= 0.0
    ensures Times(n, x) <= Times(m, x)
  {
    if n < m { TimesInOrder(n, m - 1, x); }
  }

  lemma {:induction false} TimesSplits(n: nat, m: int, x: real)
    ensures Times(n + m, x) == Times(n, x) + Times(m, x)
  {
    if n > 0 { TimesSplits(n - 1, m, x); }
  }

  lemma {:induction false} TimesPositive(n: nat, x: real)
    ensures n >= 1 ==> (Times(n, x) > 0.0 <==> x > 0.0)
  {
    if n > 1 { TimesPositive(n - 1, x); }
  }

  // ---- sums over jobs ----

  /** What a job is measured by: how long it ran, or how long it ran within a window. */
  datatype Measure = Service | Within(low: real, high: real)

  function Amount(measure: Measure, job: Job): real {
    match measure
    case Service => job.finished - job.claimed
    case Within(low, high) => Max(0.0, Min(job.finished, high) - Max(job.claimed, low))
  }

  function Total(measure: Measure, jobs: seq<Job>): real {
    if jobs == [] then 0.0
    else Total(measure, jobs[..|jobs| - 1]) + Amount(measure, jobs[|jobs| - 1])
  }

  // ---- busy_fraction and utilization_timeline ----

  function BusyFraction(jobs: seq<Job>, workers: int, start: real, end: real): real {
    var capacity := Times(workers, end - start);
    if capacity <= 0.0 then 0.0 else Total(Within(start, end), jobs) / capacity
  }

  /** math.ceil. */
  function Ceiling(x: real): (n: int)
    ensures n as real - 1.0 < x <= n as real
  {
    -((-x).Floor)
  }

  function Buckets(start: real, end: real, bucket: real): (buckets: nat)
    requires bucket > 0.0
    ensures buckets >= 1
  {
    var needed := Ceiling((end - start) / bucket);
    if needed >= 1 then needed else 1
  }

  function Low(start: real, bucket: real, index: nat): real { start + Times(index, bucket) }

  function High(start: real, end: real, bucket: real, index: nat): real { Min(Low(start, bucket, index) + bucket, end) }

  /** The busy fraction of each of the first few buckets. */
  function Entries(jobs: seq<Job>, workers: int, start: real, end: real, bucket: real, count: nat): (entries: seq<real>)
    ensures |entries| == count
  {
    if count == 0 then []
    else Entries(jobs, workers, start, end, bucket, count - 1) +
         [BusyFraction(jobs, workers, Low(start, bucket, count - 1), High(start, end, bucket, count - 1))]
  }

  /** round(x, 4): to the nearest ten-thousandth, and from halfway to the even one. */
  function Rounded(x: real): (rounded: real)
    ensures x - 0.00005 <= rounded <= x + 0.00005
  {
    var low := (x * 10000.0).Floor;
    var over := x * 10000.0 - low as real;
    (if over < 0.5 || (over == 0.5 && low % 2 == 0) then low else low + 1) as real / 10000.0
  }

  /** The nearest ten-thousandth, and of two as near the even one. */
  predicate IsRounded(x: real, n: int) {
    var off := x * 10000.0 - n as real;
    -0.5 <= off <= 0.5 && (off == 0.5 || off == -0.5 ==> n % 2 == 0)
  }

  lemma RoundedIsNearest(x: real)
    ensures exists n: int :: Rounded(x) == n as real / 10000.0 && IsRounded(x, n)
  {
    var low := (x * 10000.0).Floor;
    var over := x * 10000.0 - low as real;
    var n := if over < 0.5 || (over == 0.5 && low % 2 == 0) then low else low + 1;
    assert Rounded(x) == n as real / 10000.0 && IsRounded(x, n);
  }

  function RoundedAll(entries: seq<real>): (rounded: seq<real>)
    ensures |rounded| == |entries|
  {
    if entries == [] then []
    else RoundedAll(entries[..|entries| - 1]) + [Rounded(entries[|entries| - 1])]
  }

  /** utilization_timeline. */
  method Timeline(jobs: seq<Job>, workers: int, start: real, end: real, bucket: real) returns (timeline: seq<real>)
    requires bucket > 0.0
    ensures timeline == RoundedAll(Entries(jobs, workers, start, end, bucket, Buckets(start, end, bucket)))
  {
    var buckets := Buckets(start, end, bucket);
    timeline := [];
    for index := 0 to buckets
      invariant timeline == RoundedAll(Entries(jobs, workers, start, end, bucket, index))
    {
      ghost var before := Entries(jobs, workers, start, end, bucket, index);
      assert Entries(jobs, workers, start, end, bucket, index + 1)[..index] == before;
      var past := Multiplied(index, bucket);
      var low := start + past;
      var high := Min(low + bucket, end);
      timeline := timeline + [Rounded(BusyFraction(jobs, workers, low, high))];
    }
  }

  /** The i-th number of the timeline is the i-th bucket's busy fraction, rounded. */
  lemma {:induction false} TimelineAt(jobs: seq<Job>, workers: int, start: real, end: real, bucket: real, count: nat, i: nat)
    requires i < count
    ensures RoundedAll(Entries(jobs, workers, start, end, bucket, count))[i] ==
            Rounded(BusyFraction(jobs, workers, start + Times(i, bucket), Min(start + Times(i, bucket) + bucket, end)))
  {
    var entries := Entries(jobs, workers, start, end, bucket, count);
    assert entries[..count - 1] == Entries(jobs, workers, start, end, bucket, count - 1);
    if i < count - 1 { TimelineAt(jobs, workers, start, end, bucket, count - 1, i); }
  }

  // ---- bucketing loses nothing ----

  /** The busy time of the first few buckets, as each one's own window counts it. */
  function Bucketed(jobs: seq<Job>, start: real, end: real, bucket: real, count: nat): real {
    if count == 0 then 0.0
    else
      Bucketed(jobs, start, end, bucket, count - 1) +
      Total(Within(Low(start, bucket, count - 1), High(start, end, bucket, count - 1)), jobs)
  }

  lemma {:induction false} WindowsJoin(jobs: seq<Job>, low: real, middle: real, high: real)
    requires low <= middle <= high
    ensures Total(Within(low, high), jobs) == Total(Within(low, middle), jobs) + Total(Within(middle, high), jobs)
  {
    if jobs != [] { WindowsJoin(jobs[..|jobs| - 1], low, middle, high); }
  }

  lemma {:induction false} EmptyWindow(jobs: seq<Job>, at: real)
    ensures Total(Within(at, at), jobs) == 0.0
  {
    if jobs != [] { EmptyWindow(jobs[..|jobs| - 1], at); }
  }

  lemma Divided(x: real, y: real)
    requires y != 0.0
    ensures (x / y) * y == x
  {}

  lemma Scaled(x: real, y: real, scale: real)
    requires scale > 0.0
    ensures x < y ==> x * scale < y * scale
    ensures x <= y ==> x * scale <= y * scale
  {
    assert x < y ==> (y - x) * scale > 0.0;
    assert (y - x) * scale == y * scale - x * scale;
  }

  lemma ReachedBy(share: real, count: nat, time: real, bucket: real)
    requires bucket > 0.0 && share * bucket == time && count >= 1 && (count - 1) as real < share <= count as real
    ensures Times(count - 1, bucket) < time <= Times(count, bucket)
  {
    TimesIsProduct(count - 1, bucket);
    TimesIsProduct(count, bucket);
    Scaled((count - 1) as real, share, bucket);
    Scaled(share, count as real, bucket);
  }

  lemma SharePositive(time: real, bucket: real)
    requires bucket > 0.0 && time > 0.0
    ensures time / bucket > 0.0 && (time / bucket) * bucket == time
  {
    Divided(time, bucket);
    Scaled(time / bucket, 0.0, bucket);
  }

  /** Every bucket starts before the batch ends, and the last reaches its end. */
  lemma BucketsReachTheEnd(start: real, end: real, bucket: real)
    requires bucket > 0.0 && start < end
    ensures Low(start, bucket, Buckets(start, end, bucket) - 1) < end <= Low(start, bucket, Buckets(start, end, bucket))
  {
    hide Times;
    var share, count := (end - start) / bucket, Buckets(start, end, bucket);
    SharePositive(end - start, bucket);
    CountReaches(share, count);
    ReachedBy(share, count, end - start, bucket);
  }

  lemma CountReaches(share: real, count: nat)
    requires share > 0.0 && count == if Ceiling(share) >= 1 then Ceiling(share) else 1
    ensures count >= 1 && (count - 1) as real < share <= count as real
  {}

  lemma {:induction false} BucketedPrefix(jobs: seq<Job>, start: real, end: real, bucket: real, count: nat)
    requires bucket > 0.0 && start < end && count < Buckets(start, end, bucket)
    ensures start <= Low(start, bucket, count) < end
    ensures Bucketed(jobs, start, end, bucket, count) == Total(Within(start, Low(start, bucket, count)), jobs)
  {
    BucketsReachTheEnd(start, end, bucket);
    TimesInOrder(count, Buckets(start, end, bucket) - 1, bucket);
    TimesInOrder(0, count, bucket);
    if count == 0 {
      EmptyWindow(jobs, start);
    } else {
      BucketedPrefix(jobs, start, end, bucket, count - 1);
      WindowsJoin(jobs, start, Low(start, bucket, count - 1), Low(start, bucket, count));
    }
  }

  /** The buckets' busy times add up to the window's, whatever the jobs and however the last bucket is cut. */
  lemma BucketingLosesNothing(jobs: seq<Job>, start: real, end: real, bucket: real)
    requires bucket > 0.0
    ensures Bucketed(jobs, start, end, bucket, Buckets(start, end, bucket)) == Total(Within(start, end), jobs)
  {
    var count := Buckets(start, end, bucket);
    if start < end {
      BucketsReachTheEnd(start, end, bucket);
      BucketedPrefix(jobs, start, end, bucket, count - 1);
      WindowsJoin(jobs, start, Low(start, bucket, count - 1), end);
    } else {
      assert (end - start) / bucket <= 0.0;
      assert count == 1;
      assert Low(start, bucket, 0) == start && High(start, end, bucket, 0) == end;
    }
  }

  /** What the timeline's entries weigh: each times the worker time of its bucket. */
  function Weighed(timeline: seq<real>, workers: int, start: real, end: real, bucket: real): real {
    if timeline == [] then 0.0
    else
      var last := |timeline| - 1;
      var low, high := Low(start, bucket, last), High(start, end, bucket, last);
      Weighed(timeline[..last], workers, start, end, bucket) + TimeOf(timeline[last], workers, low, high)
  }

  /** A share of the workers' time between two moments. */
  function TimeOf(share: real, workers: int, start: real, end: real): real {
    share * Times(workers, end - start)
  }

  lemma BusyBack(jobs: seq<Job>, workers: int, start: real, end: real)
    requires workers >= 1 && start <= end
    ensures TimeOf(BusyFraction(jobs, workers, start, end), workers, start, end) == Total(Within(start, end), jobs)
  {
    if start == end {
      EmptyWindow(jobs, start);
    } else {
      TimesPositive(workers, end - start);
      Divided(Total(Within(start, end), jobs), Times(workers, end - start));
    }
  }

  lemma {:induction false} WeighedIsBucketed(jobs: seq<Job>, workers: int, start: real, end: real, bucket: real, count: nat)
    requires workers >= 1 && bucket > 0.0 && start < end && count <= Buckets(start, end, bucket)
    ensures Weighed(Entries(jobs, workers, start, end, bucket, count), workers, start, end, bucket)
         == Bucketed(jobs, start, end, bucket, count)
  {
    if count > 0 {
      var last := count - 1;
      WeighedIsBucketed(jobs, workers, start, end, bucket, last);
      assert Entries(jobs, workers, start, end, bucket, count)[..last] == Entries(jobs, workers, start, end, bucket, last);
      BucketedPrefix(jobs, start, end, bucket, last);
      BusyBack(jobs, workers, Low(start, bucket, last), High(start, end, bucket, last));
    }
  }

  /** The timeline accounts for all the busy time that the utilization does. */
  lemma TimelineMeansUtilization(jobs: seq<Job>, workers: int, start: real, end: real, bucket: real)
    requires workers >= 1 && bucket > 0.0 && start <= end
    ensures Weighed(Entries(jobs, workers, start, end, bucket, Buckets(start, end, bucket)), workers, start, end, bucket)
         == TimeOf(BusyFraction(jobs, workers, start, end), workers, start, end)
  {
    var count := Buckets(start, end, bucket);
    if start < end {
      WeighedIsBucketed(jobs, workers, start, end, bucket, count);
      BucketingLosesNothing(jobs, start, end, bucket);
      BusyBack(jobs, workers, start, end);
    } else {
      var entries := Entries(jobs, workers, start, end, bucket, count);
      assert (end - start) / bucket == 0.0;
      assert count == 1 && Low(start, bucket, 0) == start && High(start, end, bucket, 0) == end;
      assert entries[..0] == [];
      assert entries == [BusyFraction(jobs, workers, start, end)];
    }
  }

  // ---- and rounding little ----

  lemma {:induction false} TimesAdd(n: nat, x: real, y: real)
    ensures Times(n, x + y) == Times(n, x) + Times(n, y)
  {
    if n > 0 { TimesAdd(n - 1, x, y); }
  }

  /** The worker time of the first few buckets. */
  function Widths(workers: int, start: real, end: real, bucket: real, count: nat): real {
    if count == 0 then 0.0
    else
      Widths(workers, start, end, bucket, count - 1) +
      Times(workers, High(start, end, bucket, count - 1) - Low(start, bucket, count - 1))
  }

  lemma {:induction false} WidthsPrefix(workers: nat, start: real, end: real, bucket: real, count: nat)
    requires bucket > 0.0 && start < end && count < Buckets(start, end, bucket)
    ensures Low(start, bucket, count) < end
    ensures Widths(workers, start, end, bucket, count) == Times(workers, Low(start, bucket, count) - start)
  {
    BucketedPrefix([], start, end, bucket, count);
    if count == 0 {
      assert Low(start, bucket, 0) - start == 0.0;
      TimesAdd(workers, 0.0, 0.0);
    } else {
      WidthsPrefix(workers, start, end, bucket, count - 1);
      TimesAdd(workers, Low(start, bucket, count - 1) - start, bucket);
    }
  }

  lemma WidthsAddUp(workers: nat, start: real, end: real, bucket: real)
    requires bucket > 0.0 && start < end
    ensures Widths(workers, start, end, bucket, Buckets(start, end, bucket)) == Times(workers, end - start)
  {
    var count := Buckets(start, end, bucket);
    BucketsReachTheEnd(start, end, bucket);
    WidthsPrefix(workers, start, end, bucket, count - 1);
    TimesAdd(workers, Low(start, bucket, count - 1) - start, end - Low(start, bucket, count - 1));
  }

  /** The two differ by at most 0.00005 of the worker time. */
  predicate Near(x: real, y: real, workerTime: real) { x - 0.00005 * workerTime <= y <= x + 0.00005 * workerTime }

  lemma RoundedIsNear(share: real, width: real)
    requires width >= 0.0
    ensures Near(share * width, Rounded(share) * width, width)
  {
    Weigh(share - 0.00005, Rounded(share), width);
    Weigh(Rounded(share), share + 0.00005, width);
    assert (share - 0.00005) * width == share * width - 0.00005 * width;
    assert (share + 0.00005) * width == share * width + 0.00005 * width;
  }

  lemma Weigh(x: real, y: real, weight: real)
    requires x <= y && weight >= 0.0
    ensures x * weight <= y * weight
  {
    assert (y - x) * weight >= 0.0;
  }

  lemma EntryIsNear(share: real, workers: nat, low: real, high: real)
    requires low <= high
    ensures Near(TimeOf(share, workers, low, high), TimeOf(Rounded(share), workers, low, high), Times(workers, high - low))
  {
    TimesNonNegative(workers, high - low);
    RoundedIsNear(share, Times(workers, high - low));
  }

  lemma NearAdds(x: real, y: real, a: real, x': real, y': real, b: real)
    requires Near(x, y, a) && Near(x', y', b)
    ensures Near(x + x', y + y', a + b)
  {}

  lemma {:induction false} RoundingPrefix(entries: seq<real>, workers: nat, start: real, end: real, bucket: real)
    requires bucket > 0.0 && start < end && |entries| <= Buckets(start, end, bucket)
    ensures Near(Weighed(entries, workers, start, end, bucket), Weighed(RoundedAll(entries), workers, start, end, bucket),
                 Widths(workers, start, end, bucket, |entries|))
    decreases |entries|
  {
    if entries == [] {
      assert Near(0.0, 0.0, 0.0);
    } else {
      hide Near, TimeOf, Rounded, Times, Buckets;
      var last := |entries| - 1;
      var low, high := Low(start, bucket, last), High(start, end, bucket, last);
      RoundingPrefix(entries[..last], workers, start, end, bucket);
      BucketedPrefix([], start, end, bucket, last);
      EntryIsNear(entries[last], workers, low, high);
      assert RoundedAll(entries)[..last] == RoundedAll(entries[..last]);
      NearAdds(Weighed(entries[..last], workers, start, end, bucket),
               Weighed(RoundedAll(entries[..last]), workers, start, end, bucket), Widths(workers, start, end, bucket, last),
               TimeOf(entries[last], workers, low, high), TimeOf(Rounded(entries[last]), workers, low, high),
               Times(workers, high - low));
    }
  }

  lemma {:induction false} TimesNonNegative(n: nat, x: real)
    requires x >= 0.0
    ensures Times(n, x) >= 0.0
  {
    if n > 0 { TimesNonNegative(n - 1, x); }
  }

  /** As it is, rounded, the timeline accounts for the busy time to within 0.00005 of the workers' time. */
  lemma RoundedTimelineIsNear(jobs: seq<Job>, workers: int, start: real, end: real, bucket: real)
    requires workers >= 1 && bucket > 0.0 && start < end
    ensures Near(TimeOf(BusyFraction(jobs, workers, start, end), workers, start, end),
                 Weighed(RoundedAll(Entries(jobs, workers, start, end, bucket, Buckets(start, end, bucket))), workers, start, end, bucket),
                 Times(workers, end - start))
  {
    TimelineMeansUtilization(jobs, workers, start, end, bucket);
    RoundingPrefix(Entries(jobs, workers, start, end, bucket, Buckets(start, end, bucket)), workers, start, end, bucket);
    WidthsAddUp(workers, start, end, bucket);
  }
}
