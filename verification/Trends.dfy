/** A pipeline's windows, buckets, trends and health. */
module Trends {
  import opened Common
  import opened Ordering
  import opened Sums
  import opened MetricTypes
  import opened StepMetrics
  import opened Percentiles
  import Recovery

  const DEFAULT_WINDOW := 20

  const BUCKET_SIZE := 5

  /** A window's size, defaulted. */
  function Size(runCount: int): nat {
    if runCount <= 0 then DEFAULT_WINDOW else runCount
  }

  function Doubled(runCount: int): int {
    2 * Size(runCount)
  }

  /** SQL's LIMIT: a negative one is no limit. */
  function Limit<T>(s: seq<T>, limit: int): seq<T> {
    if limit < 0 || limit >= |s| then s else s[..limit]
  }

  function SplitWindow(newestFirst: seq<RunRecord>, runCount: int): (seq<RunRecord>, seq<RunRecord>) {
    var n := Size(runCount);
    if |newestFirst| <= n then (newestFirst, [])
    else (newestFirst[..n], newestFirst[n..if 2 * n < |newestFirst| then 2 * n else |newestFirst|])
  }

  /**
  The current and the prior window are the newest n runs, twenty where no size is asked for, and the n
  before them, together all that the store was asked for; and the steps of a window, read with a LIMIT of
  their own, are those of exactly its current runs unless a window of no size was asked for.
  */
  lemma WindowsTile(stored: seq<RunRecord>, runCount: int)
    ensures var n := if runCount <= 0 then 20 else runCount;
            var first := if n < |stored| then n else |stored|;
            var second := if 2 * n < |stored| then 2 * n else |stored|;
            var fetched := Limit(stored, Doubled(runCount));
            && fetched == stored[..second]
            && SplitWindow(fetched, runCount) == (stored[..first], stored[first..second])
            && Limit(stored, runCount) == (if runCount < 0 || runCount > |stored| then stored else stored[..runCount])
            && (Limit(stored, runCount) == stored[..first] <==>
                runCount > 0 || (runCount == 0 && stored == []) || (runCount < 0 && |stored| <= 20))
  {
    var n := Size(runCount);
    var fetched := Limit(stored, Doubled(runCount));
    var second := if 2 * n < |stored| then 2 * n else |stored|;
    assert stored[..|stored|] == stored;
    assert fetched == stored[..second];
    if |stored| > n {
      assert fetched[..n] == stored[..n];
      assert fetched[n..second] == stored[n..second];
      assert |Limit(stored, n)| == n;
    } else {
      assert stored[|stored|..|stored|] == [];
    }
  }

  function Concat<T>(buckets: seq<seq<T>>): seq<T> {
    if buckets == [] then [] else Concat(buckets[..|buckets| - 1]) + buckets[|buckets| - 1]
  }

  /** Consecutive full buckets, then what is left over. */
  ghost predicate AreBuckets(runs: seq<RunRecord>, buckets: seq<seq<RunRecord>>) {
    && Concat(buckets) == runs
    && (forall i :: 0 <= i < |buckets| ==> 1 <= |buckets[i]| <= 5)
    && (forall i :: 0 <= i < |buckets| - 1 ==> |buckets[i]| == 5)
  }

  method BucketRuns(oldestFirst: seq<RunRecord>) returns (buckets: seq<seq<RunRecord>>)
    ensures AreBuckets(oldestFirst, buckets)
  {
    buckets := [];
    var i := 0;
    while i < |oldestFirst|
      invariant 0 <= i
      invariant var end := if i < |oldestFirst| then i else |oldestFirst|; Concat(buckets) == oldestFirst[..end]
      invariant forall k :: 0 <= k < |buckets| ==> 1 <= |buckets[k]| <= BUCKET_SIZE
      invariant i <= |oldestFirst| ==> forall k :: 0 <= k < |buckets| ==> |buckets[k]| == BUCKET_SIZE
      invariant forall k :: 0 <= k < |buckets| - 1 ==> |buckets[k]| == BUCKET_SIZE
    {
      var end := if i + BUCKET_SIZE < |oldestFirst| then i + BUCKET_SIZE else |oldestFirst|;
      ghost var before := buckets;
      buckets := buckets + [oldestFirst[i..end]];
      assert buckets[..|buckets| - 1] == before;
      assert oldestFirst[..i] + oldestFirst[i..end] == oldestFirst[..end];
      i := i + BUCKET_SIZE;
    }
    assert oldestFirst[..|oldestFirst|] == oldestFirst;
  }

  function DurationsOf(runs: seq<RunRecord>): seq<real> {
    if runs == [] then []
    else
      var d := DurationSeconds(runs[|runs| - 1].startedAt, runs[|runs| - 1].completedAt);
      DurationsOf(runs[..|runs| - 1]) + if d.Some? then [d.value] else []
  }

  function SortedDurations(runs: seq<RunRecord>): seq<real> {
    StableSort(AtMost, DurationsOf(runs))
  }

  /** The last start recorded among the runs an answer is about, Go's zero time if none is. */
  function LastStart(runs: seq<RunRecord>, about: RunRecord -> bool): int {
    if runs == [] then Recovery.ZERO_TIME
    else if about(runs[|runs| - 1]) && runs[|runs| - 1].startedAt.Some? then runs[|runs| - 1].startedAt.value
    else LastStart(runs[..|runs| - 1], about)
  }

  function Every(r: RunRecord): bool { true }

  function IsCompleted(r: RunRecord): bool { r.status == "completed" }

  datatype Point = Point(at: int, p50: real, p90: real)

  /** A bucket's point on the duration trend, if it has any duration. */
  function DurationPoint(bucket: seq<RunRecord>): Option<Point> {
    var d := SortedDurations(bucket);
    if d == [] then None else Some(Point(LastStart(bucket, Every), Percentile(d, 0.5), Percentile(d, 0.9)))
  }

  function DurationPoints(buckets: seq<seq<RunRecord>>): seq<Point> {
    if buckets == [] then []
    else
      var p := DurationPoint(buckets[|buckets| - 1]);
      DurationPoints(buckets[..|buckets| - 1]) + if p.Some? then [p.value] else []
  }

  datatype Trend = Trend(timestamps: seq<int>, p50: seq<real>, p90: seq<real>, rate: seq<real>)

  ghost predicate Plots(t: Trend, points: seq<Point>) {
    && |t.timestamps| == |t.p50| == |t.p90| == |points| && t.rate == []
    && forall i :: 0 <= i < |points| ==> points[i] == Point(t.timestamps[i], t.p50[i], t.p90[i])
  }

  method BucketDurations(bucket: seq<RunRecord>) returns (durations: seq<real>, ts: int)
    ensures durations == DurationsOf(bucket) && ts == LastStart(bucket, Every)
  {
    durations, ts := [], Recovery.ZERO_TIME;
    var i := 0;
    while i < |bucket|
      invariant 0 <= i <= |bucket|
      invariant durations == DurationsOf(bucket[..i]) && ts == LastStart(bucket[..i], Every)
    {
      assert bucket[..i + 1][..i] == bucket[..i];
      var d := DurationSeconds(bucket[i].startedAt, bucket[i].completedAt);
      if d.Some? {
        durations := durations + [d.value];
      }
      if bucket[i].startedAt.Some? {
        ts := bucket[i].startedAt.value;
      }
      i := i + 1;
    }
    assert bucket[..i] == bucket;
  }

  /** One turn of the loop over buckets. */
  method PlotBucket(bucket: seq<RunRecord>) returns (point: Option<Point>)
    ensures point == DurationPoint(bucket)
  {
    AtMostTotal();
    var durations, ts := BucketDurations(bucket);
    var sorted := SortStable(AtMost, durations);
    assert |multiset(sorted)| == |sorted| && |multiset(durations)| == |durations|;
    hide StableSort;
    if durations == [] {
      return None;
    }
    return Some(Point(ts, Percentile(sorted, 0.5), Percentile(sorted, 0.9)));
  }

  ghost predicate IsDurationTrend(oldestFirst: seq<RunRecord>, trend: Trend) {
    exists buckets :: AreBuckets(oldestFirst, buckets) && Plots(trend, DurationPoints(buckets))
  }

  method DurationTrend(oldestFirst: seq<RunRecord>) returns (trend: Trend)
    ensures IsDurationTrend(oldestFirst, trend)
  {
    var list := BucketRuns(oldestFirst);
    trend := Trend([], [], [], []);
    hide AreBuckets;
    var i := 0;
    while i < |list|
      invariant 0 <= i <= |list|
      invariant Plots(trend, DurationPoints(list[..i]))
    {
      assert list[..i + 1][..i] == list[..i];
      hide DurationPoint;
      var point := PlotBucket(list[i]);
      if point.Some? {
        trend := trend.(
          timestamps := trend.timestamps + [point.value.at],
          p50 := trend.p50 + [point.value.p50],
          p90 := trend.p90 + [point.value.p90]);
      }
      i := i + 1;
    }
    assert list[..i] == list;
    assert AreBuckets(oldestFirst, list) && Plots(trend, DurationPoints(list));
  }

  /** Every point of a duration trend has its median at or below its ninetieth percentile. */
  lemma {:induction false} MedianBelowNinetieth(buckets: seq<seq<RunRecord>>)
    ensures forall i :: 0 <= i < |DurationPoints(buckets)| ==>
        DurationPoints(buckets)[i].p50 <= DurationPoints(buckets)[i].p90
  {
    if buckets != [] {
      MedianBelowNinetieth(buckets[..|buckets| - 1]);
      var d := SortedDurations(buckets[|buckets| - 1]);
      AtMostTotal();
      StableSortSorts(AtMost, DurationsOf(buckets[|buckets| - 1]));
      PercentileMonotone(d, 0.5, 0.9);
    }
  }

  /** Oldest first as the store orders runs: those with no start time before any that have one. */
  ghost predicate OldestFirst(runs: seq<RunRecord>) {
    && (forall i :: 0 <= i < |runs| && runs[i].startedAt.Some? ==> runs[i].startedAt.value >= Recovery.ZERO_TIME)
    && (forall i, j :: 0 <= i < j < |runs| ==>
          runs[i].startedAt.None? || (runs[j].startedAt.Some? && runs[i].startedAt.value <= runs[j].startedAt.value))
  }

  lemma {:induction false} LastStartBounds(bucket: seq<RunRecord>, about: RunRecord -> bool)
    requires forall r :: r in bucket && r.startedAt.Some? ==> r.startedAt.value >= Recovery.ZERO_TIME
    ensures LastStart(bucket, about) >= Recovery.ZERO_TIME
    ensures (exists r :: r in bucket && r.startedAt.Some? && LastStart(bucket, about) == r.startedAt.value) ||
            (LastStart(bucket, about) == Recovery.ZERO_TIME
             && forall r :: r in bucket && about(r) ==> r.startedAt.None?)
  {
    if bucket != [] && !(about(bucket[|bucket| - 1]) && bucket[|bucket| - 1].startedAt.Some?) {
      LastStartBounds(bucket[..|bucket| - 1], about);
      assert bucket == bucket[..|bucket| - 1] + [bucket[|bucket| - 1]];
    }
  }

  /** An earlier bucket's time is no later than a later one's that has something to report. */
  lemma LaterBucketLater(first: seq<RunRecord>, second: seq<RunRecord>, about: RunRecord -> bool)
    requires OldestFirst(first + second)
    requires exists r :: r in second && about(r)
    ensures LastStart(first, about) <= LastStart(second, about)
  {
    OldestParts(first, second);
    LastStartBounds(first, about);
    LastStartBounds(second, about);
    hide LastStart;
    if r :| r in first && r.startedAt.Some? && LastStart(first, about) == r.startedAt.value {
      var q :| q in second && about(q);
      EarlierStart(first, second, r);
    }
  }

  lemma EarlierStart(first: seq<RunRecord>, second: seq<RunRecord>, r: RunRecord)
    requires OldestFirst(first + second) && r in first && r.startedAt.Some?
    ensures forall q :: q in second ==> q.startedAt.Some? && r.startedAt.value <= q.startedAt.value
  {
    var all := first + second;
    var i :| 0 <= i < |first| && first[i] == r;
    assert all[i] == r;
    forall q | q in second
      ensures q.startedAt.Some? && r.startedAt.value <= q.startedAt.value
    {
      var j :| 0 <= j < |second| && second[j] == q;
      assert all[|first| + j] == q;
    }
  }

  lemma OldestParts(a: seq<RunRecord>, b: seq<RunRecord>)
    requires OldestFirst(a + b)
    ensures OldestFirst(a) && OldestFirst(b)
  {
    assert forall i :: 0 <= i < |a| ==> a[i] == (a + b)[i];
    assert forall i :: 0 <= i < |b| ==> b[i] == (a + b)[|a| + i];
  }

  lemma DropMiddle(a: seq<RunRecord>, b: seq<RunRecord>, c: seq<RunRecord>)
    requires OldestFirst(a + b + c)
    ensures OldestFirst(a + c) && OldestFirst(b + c) && OldestFirst(a + b)
  {
    var all, ac := a + b + c, a + c;
    assert all == a + (b + c);
    OldestParts(a + b, c);
    OldestParts(a, b + c);
    assert forall i {:trigger ac[i]} :: 0 <= i < |ac| ==> ac[i] == all[if i < |a| then i else |b| + i];
  }

  lemma {:induction false} EarlierDurationPoints(buckets: seq<seq<RunRecord>>, last: seq<RunRecord>)
    requires OldestFirst(Concat(buckets) + last) && last != []
    ensures forall i :: 0 <= i < |DurationPoints(buckets)| ==> DurationPoints(buckets)[i].at <= LastStart(last, Every)
  {
    if buckets != [] {
      var init, b := buckets[..|buckets| - 1], buckets[|buckets| - 1];
      DropMiddle(Concat(init), b, last);
      EarlierDurationPoints(init, last);
      assert last[0] in last && Every(last[0]);
      LaterBucketLater(b, last, Every);
    }
  }

  /** A duration trend's times never go back. */
  lemma {:induction false} DurationTimesOrdered(buckets: seq<seq<RunRecord>>)
    requires OldestFirst(Concat(buckets)) && forall b :: b in buckets ==> b != []
    ensures forall i, j :: 0 <= i < j < |DurationPoints(buckets)| ==>
        DurationPoints(buckets)[i].at <= DurationPoints(buckets)[j].at
  {
    if buckets != [] {
      var init, b := buckets[..|buckets| - 1], buckets[|buckets| - 1];
      OldestParts(Concat(init), b);
      assert forall c :: c in init ==> c in buckets;
      assert b in buckets;
      DurationTimesOrdered(init);
      EarlierDurationPoints(init, b);
    }
  }

  lemma {:induction false} EarlierRatePoints(buckets: seq<seq<RunRecord>>, last: seq<RunRecord>)
    requires OldestFirst(Concat(buckets) + last) && CompletedRuns(last) > 0
    ensures forall i :: 0 <= i < |RatePoints(buckets)| ==> RatePoints(buckets)[i].at <= LastStart(last, IsCompleted)
  {
    if buckets != [] {
      var init, b := buckets[..|buckets| - 1], buckets[|buckets| - 1];
      DropMiddle(Concat(init), b, last);
      EarlierRatePoints(init, last);
      SomeCompleted(last);
      LaterBucketLater(b, last, IsCompleted);
    }
  }

  lemma {:induction false} SomeCompleted(runs: seq<RunRecord>)
    requires CompletedRuns(runs) > 0
    ensures exists r :: r in runs && IsCompleted(r)
  {
    if !IsCompleted(runs[|runs| - 1]) {
      SomeCompleted(runs[..|runs| - 1]);
    }
  }

  /** Neither do a failure-rate trend's. */
  lemma {:induction false} RateTimesOrdered(buckets: seq<seq<RunRecord>>)
    requires OldestFirst(Concat(buckets))
    ensures forall i, j :: 0 <= i < j < |RatePoints(buckets)| ==> RatePoints(buckets)[i].at <= RatePoints(buckets)[j].at
  {
    if buckets != [] {
      var init, b := buckets[..|buckets| - 1], buckets[|buckets| - 1];
      OldestParts(Concat(init), b);
      RateTimesOrdered(init);
      if CompletedRuns(b) > 0 {
        EarlierRatePoints(init, b);
      }
    }
  }

  function CompletedRuns(runs: seq<RunRecord>): nat {
    if runs == [] then 0 else CompletedRuns(runs[..|runs| - 1]) + if IsCompleted(runs[|runs| - 1]) then 1 else 0
  }

  function FailedRuns(runs: seq<RunRecord>): nat {
    if runs == [] then 0
    else FailedRuns(runs[..|runs| - 1]) +
         if IsCompleted(runs[|runs| - 1]) && runs[|runs| - 1].conclusion == "failure" then 1 else 0
  }

  method CountRuns(runs: seq<RunRecord>) returns (total: nat, failed: nat, ts: int)
    ensures total == CompletedRuns(runs) && failed == FailedRuns(runs) && ts == LastStart(runs, IsCompleted)
  {
    total, failed, ts := 0, 0, Recovery.ZERO_TIME;
    var i := 0;
    while i < |runs|
      invariant 0 <= i <= |runs|
      invariant total == CompletedRuns(runs[..i]) && failed == FailedRuns(runs[..i])
      invariant ts == LastStart(runs[..i], IsCompleted)
    {
      assert runs[..i + 1][..i] == runs[..i];
      if runs[i].status == "completed" {
        total := total + 1;
        if runs[i].conclusion == "failure" {
          failed := failed + 1;
        }
        if runs[i].startedAt.Some? {
          ts := runs[i].startedAt.value;
        }
      }
      i := i + 1;
    }
    assert runs[..i] == runs;
  }

  lemma {:induction false} RunsCounted(runs: seq<RunRecord>)
    ensures CompletedRuns(runs) == Count(runs, (r: RunRecord) => r.status == "completed")
    ensures FailedRuns(runs) == Count(runs, (r: RunRecord) => r.status == "completed" && r.conclusion == "failure")
  {
    var completed := (r: RunRecord) => r.status == "completed";
    var failed := (r: RunRecord) => r.status == "completed" && r.conclusion == "failure";
    if runs == [] {
      CountNone(completed);
      CountNone(failed);
    } else {
      var init, last := runs[..|runs| - 1], runs[|runs| - 1];
      RunsCounted(init);
      CountMore(init, last, completed);
      CountMore(init, last, failed);
      assert runs == init + [last];
      hide Count;
    }
  }

  lemma Shared(part: int, all: int)
    requires 0 <= part <= all
    ensures Rate(part, all) * all as real == part as real
  {
    if all != 0 {
      assert part as real / all as real * all as real == part as real;
    }
  }

  method OverallFailureRate(runs: seq<RunRecord>) returns (rate: real)
    ensures rate == Rate(FailedRuns(runs), CompletedRuns(runs))
    ensures var completed := Count(runs, (r: RunRecord) => r.status == "completed");
            var failed := Count(runs, (r: RunRecord) => r.status == "completed" && r.conclusion == "failure");
            rate * completed as real == failed as real && (completed == 0 ==> rate == 0.0)
  {
    RunsCounted(runs);
    FailedAtMostCompleted(runs);
    Shared(FailedRuns(runs), CompletedRuns(runs));
    hide Count;
    hide Rate;
    var total, failed, _ := CountRuns(runs);
    rate := Rate(failed, total);
  }

  datatype RatePoint = RatePoint(at: int, failed: nat, completed: nat)

  /** A bucket's point on the failure-rate trend, if any of its runs completed. */
  function RatePointOf(bucket: seq<RunRecord>): Option<RatePoint> {
    if CompletedRuns(bucket) == 0 then None
    else Some(RatePoint(LastStart(bucket, IsCompleted), FailedRuns(bucket), CompletedRuns(bucket)))
  }

  function RatePoints(buckets: seq<seq<RunRecord>>): seq<RatePoint> {
    if buckets == [] then []
    else
      var p := RatePointOf(buckets[|buckets| - 1]);
      RatePoints(buckets[..|buckets| - 1]) + if p.Some? then [p.value] else []
  }

  ghost predicate PlotsRates(t: Trend, points: seq<RatePoint>) {
    && |t.timestamps| == |t.rate| == |points| && t.p50 == [] && t.p90 == []
    && forall i :: 0 <= i < |points| ==>
         t.timestamps[i] == points[i].at && t.rate[i] == Rate(points[i].failed, points[i].completed)
  }

  ghost predicate IsRateTrend(oldestFirst: seq<RunRecord>, trend: Trend) {
    exists buckets :: AreBuckets(oldestFirst, buckets) && PlotsRates(trend, RatePoints(buckets))
  }

  method FailureRateTrend(oldestFirst: seq<RunRecord>) returns (trend: Trend)
    ensures IsRateTrend(oldestFirst, trend)
  {
    var list := BucketRuns(oldestFirst);
    trend := Trend([], [], [], []);
    hide AreBuckets;
    var i := 0;
    while i < |list|
      invariant 0 <= i <= |list|
      invariant PlotsRates(trend, RatePoints(list[..i]))
    {
      assert list[..i + 1][..i] == list[..i];
      var total, failed, ts := CountRuns(list[i]);
      if total != 0 {
        trend := trend.(timestamps := trend.timestamps + [ts], rate := trend.rate + [Rate(failed, total)]);
      }
      i := i + 1;
    }
    assert list[..i] == list;
    assert AreBuckets(oldestFirst, list) && PlotsRates(trend, RatePoints(list));
  }

  function PointsFailed(points: seq<RatePoint>): nat {
    if points == [] then 0 else PointsFailed(points[..|points| - 1]) + points[|points| - 1].failed
  }

  function PointsCompleted(points: seq<RatePoint>): nat {
    if points == [] then 0 else PointsCompleted(points[..|points| - 1]) + points[|points| - 1].completed
  }

  lemma {:induction false} CountsAppend(a: seq<RunRecord>, b: seq<RunRecord>)
    ensures CompletedRuns(a + b) == CompletedRuns(a) + CompletedRuns(b)
    ensures FailedRuns(a + b) == FailedRuns(a) + FailedRuns(b)
  {
    if b == [] {
      assert a + b == a;
    } else {
      CountsAppend(a, b[..|b| - 1]);
      assert (a + b)[..|a + b| - 1] == a + b[..|b| - 1];
    }
  }

  lemma {:induction false} FailedAtMostCompleted(runs: seq<RunRecord>)
    ensures FailedRuns(runs) <= CompletedRuns(runs)
  {
    if runs != [] {
      FailedAtMostCompleted(runs[..|runs| - 1]);
    }
  }

  /** A duration trend has parallel arrays, times that never go back, and each median at or below its P90. */
  lemma DurationTrendReads(runs: seq<RunRecord>, t: Trend)
    requires IsDurationTrend(runs, t) && OldestFirst(runs)
    ensures |t.timestamps| == |t.p50| == |t.p90|
    ensures forall i :: 0 <= i < |t.p50| ==> t.p50[i] <= t.p90[i]
    ensures forall i, j :: 0 <= i < j < |t.timestamps| ==> t.timestamps[i] <= t.timestamps[j]
  {
    hide OldestFirst;
    hide DurationPoints;
    var buckets :| AreBuckets(runs, buckets) && Plots(t, DurationPoints(buckets));
    MedianBelowNinetieth(buckets);
    assert forall b :: b in buckets ==> b != [];
    DurationTimesOrdered(buckets);
  }

  /** A failure-rate trend's times never go back. */
  lemma RateTrendReads(runs: seq<RunRecord>, t: Trend)
    requires IsRateTrend(runs, t) && OldestFirst(runs)
    ensures |t.timestamps| == |t.rate|
    ensures forall i, j :: 0 <= i < j < |t.timestamps| ==> t.timestamps[i] <= t.timestamps[j]
  {
    hide OldestFirst;
    hide RatePoints;
    var buckets :| AreBuckets(runs, buckets) && PlotsRates(t, RatePoints(buckets));
    RateTimesOrdered(buckets);
  }

  /** The trend's points account for every completed and every failed run of the window. */
  lemma {:induction false} TrendAccountsForAll(buckets: seq<seq<RunRecord>>)
    ensures PointsFailed(RatePoints(buckets)) == FailedRuns(Concat(buckets))
    ensures PointsCompleted(RatePoints(buckets)) == CompletedRuns(Concat(buckets))
  {
    if buckets != [] {
      var init, last := buckets[..|buckets| - 1], buckets[|buckets| - 1];
      TrendAccountsForAll(init);
      CountsAppend(Concat(init), last);
      FailedAtMostCompleted(last);
      hide CompletedRuns;
      hide FailedRuns;
      hide LastStart;
      var p := RatePointOf(last);
      if p.Some? {
        PointsMore(RatePoints(init), p.value);
      } else {
        assert RatePoints(init) + [] == RatePoints(init);
      }
    }
  }

  lemma PointsMore(points: seq<RatePoint>, p: RatePoint)
    ensures PointsFailed(points + [p]) == PointsFailed(points) + p.failed
    ensures PointsCompleted(points + [p]) == PointsCompleted(points) + p.completed
  {
    assert (points + [p])[..|points|] == points;
  }

  /** A run with both its times, and how long it took in seconds. */
  predicate Timed(r: RunRecord) {
    r.startedAt.Some? && r.completedAt.Some?
  }

  function Seconds(r: RunRecord): real {
    if Timed(r) then (r.completedAt.value - r.startedAt.value) as real / 1000000000.0 else 0.0
  }

  lemma {:induction false} DurationsCounted(runs: seq<RunRecord>, v: real)
    ensures |DurationsOf(runs)| == Count(runs, Timed)
    ensures CountAtMost(DurationsOf(runs), v) == Count(runs, (r: RunRecord) => Timed(r) && Seconds(r) <= v)
    ensures forall d :: d in DurationsOf(runs) <==> exists r :: r in runs && Timed(r) && Seconds(r) == d
  {
    var below := (r: RunRecord) => Timed(r) && Seconds(r) <= v;
    if runs == [] {
      CountNone(Timed);
      CountNone(below);
    } else {
      var init, last := runs[..|runs| - 1], runs[|runs| - 1];
      DurationsCounted(init, v);
      CountMore(init, last, Timed);
      CountMore(init, last, below);
      assert runs == init + [last];
      hide Count;
      var all := DurationsOf(init);
      if Timed(last) {
        assert DurationsOf(runs) == all + [Seconds(last)];
        assert (all + [Seconds(last)])[..|all|] == all;
      } else {
        assert DurationsOf(runs) == all + [] == all;
      }
    }
  }

  /** How many of the timed runs took no longer than v. */
  ghost function Within(runs: seq<RunRecord>, v: real): nat {
    Count(runs, (r: RunRecord) => Timed(r) && Seconds(r) <= v)
  }

  /**
  The p-th percentile of the runs' durations: the shortest duration of a timed run that at least p of
  the timed runs do not exceed.
  */
  lemma DurationPercentile(runs: seq<RunRecord>, p: real)
    requires 0.0 < p <= 1.0 && exists r :: r in runs && Timed(r)
    ensures var d, n := Percentile(SortedDurations(runs), p), Count(runs, Timed);
            && (exists r :: r in runs && Timed(r) && Seconds(r) == d)
            && Reaches(Within(runs, d), p, n)
            && forall q :: q in runs && Timed(q) && Reaches(Within(runs, Seconds(q)), p, n) ==> d <= Seconds(q)
  {
    var s, n := SortedDurations(runs), Count(runs, Timed);
    SortedMembers(runs);
    PercentileReaches(s, p);
    var d := Percentile(s, p);
    CountedSorted(runs, d);
    forall q | q in runs && Timed(q) && Reaches(Within(runs, Seconds(q)), p, n)
      ensures d <= Seconds(q)
    {
      CountedSorted(runs, Seconds(q));
      hide *;
    }
    hide *;
  }

  lemma SortedMembers(runs: seq<RunRecord>)
    ensures Sorted(AtMost, SortedDurations(runs)) && |SortedDurations(runs)| == Count(runs, Timed)
    ensures forall d :: d in SortedDurations(runs) <==> exists r :: r in runs && Timed(r) && Seconds(r) == d
    ensures (exists r :: r in runs && Timed(r)) <==> SortedDurations(runs) != []
  {
    var all, s := DurationsOf(runs), SortedDurations(runs);
    AtMostTotal();
    StableSortSorts(AtMost, all);
    DurationsCounted(runs, 0.0);
    hide StableSort;
    hide Count;
    hide DurationsOf;
    assert |multiset(all)| == |all| && |multiset(s)| == |s|;
    assert forall d :: d in s <==> d in multiset(s);
    assert forall d :: d in all <==> d in multiset(all);
    hide Seconds;
    if r :| r in runs && Timed(r) {
      assert Seconds(r) in all;
    }
    if s != [] {
      assert s[0] in s;
    }
  }

  lemma CountedSorted(runs: seq<RunRecord>, v: real)
    ensures CountAtMost(SortedDurations(runs), v) == Within(runs, v)
  {
    DurationsCounted(runs, v);
    SortCounts(DurationsOf(runs), v);
  }

  /** The last of the starts recorded among the runs a time is about, Go's zero time without one. */
  ghost predicate IsLastStart(runs: seq<RunRecord>, about: RunRecord -> bool, at: int) {
    || (exists i :: 0 <= i < |runs| && about(runs[i]) && runs[i].startedAt == Some(at)
                    && forall j :: i < j < |runs| && about(runs[j]) ==> runs[j].startedAt.None?)
    || (at == -62135596800_000000000 && forall r :: r in runs && about(r) ==> r.startedAt.None?)
  }

  lemma {:induction false} LastStartIs(runs: seq<RunRecord>, about: RunRecord -> bool)
    ensures IsLastStart(runs, about, LastStart(runs, about))
  {
    if runs != [] {
      var init, last := runs[..|runs| - 1], runs[|runs| - 1];
      assert runs == init + [last];
      if about(last) && last.startedAt.Some? {
        assert runs[|init|] == last;
      } else {
        LastStartIs(init, about);
        var at := LastStart(init, about);
        if i :| 0 <= i < |init| && about(init[i]) && init[i].startedAt == Some(at)
                && forall j :: i < j < |init| && about(init[j]) ==> init[j].startedAt.None? {
          assert runs[i] == init[i];
        }
      }
    }
  }

  /** A bucket is on the duration trend if one of its runs is timed, at its last start. */
  lemma DurationPointReads(bucket: seq<RunRecord>)
    ensures DurationPoint(bucket).Some? <==> exists r :: r in bucket && Timed(r)
    ensures DurationPoint(bucket).Some? ==>
              var point, d := DurationPoint(bucket).value, SortedDurations(bucket);
              && point.p50 == Percentile(d, 0.5) && point.p90 == Percentile(d, 0.9)
              && IsLastStart(bucket, (r: RunRecord) => true, point.at)
  {
    SortedMembers(bucket);
    LastStartIs(bucket, Every);
    hide LastStart;
    hide SortedDurations;
    hide Percentile;
    hide Timed;
  }

  /** It is on the failure-rate trend if one of its runs is completed, at the last start of those. */
  lemma RatePointReads(bucket: seq<RunRecord>)
    ensures RatePointOf(bucket).Some? <==> exists r :: r in bucket && r.status == "completed"
    ensures RatePointOf(bucket).Some? ==>
              var point := RatePointOf(bucket).value;
              && point.completed == Count(bucket, (r: RunRecord) => r.status == "completed")
              && point.failed == Count(bucket, (r: RunRecord) => r.status == "completed" && r.conclusion == "failure")
              && IsLastStart(bucket, (r: RunRecord) => r.status == "completed", point.at)
  {
    RunsCounted(bucket);
    LastStartIs(bucket, IsCompleted);
    CountPositive(bucket, (r: RunRecord) => r.status == "completed");
    hide LastStart;
    hide CompletedRuns;
    hide FailedRuns;
    hide Count;
  }
}
