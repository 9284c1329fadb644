/** Mean time to recovery: a scan over each pipeline's concluded runs in finishing order. */
module Recovery {
  import opened Common
  import opened Ordering
  import opened Sums
  import opened MetricTypes

  /** Go's zero time, the first instant of year 1, in Unix nanoseconds. */
  const ZERO_TIME := -62135596800 * 1000000000

  function FinishedAt(run: RunRecord): (at: int)
    ensures run.completedAt == Some(at) || run.completedAt.None?
    ensures run.completedAt.None? ==> run.startedAt == Some(at) || (run.startedAt.None? && at == -62135596800_000000000)
  {
    if run.completedAt.Some? then run.completedAt.value
    else if run.startedAt.Some? then run.startedAt.value
    else ZERO_TIME
  }

  predicate FinishedBefore(a: WindowRun, b: WindowRun) {
    FinishedAt(a.run) <= FinishedAt(b.run)
  }

  /** The pipeline's runs that start or end an outage, in the order given. */
  function ConcludedOf(runs: seq<WindowRun>, p: PipelineRef): seq<WindowRun> {
    if runs == [] then []
    else
      var last := runs[|runs| - 1];
      ConcludedOf(runs[..|runs| - 1], p)
          + (if last.pipeline == p && IsConcluded(last.run.conclusion) then [last] else [])
  }

  /** All that a scan sees of a run: when it finished, and how. */
  datatype Finish = Finish(at: int, failed: bool)

  function FinishOf(r: WindowRun): Finish {
    Finish(FinishedAt(r.run), IsFailed(r.run.conclusion))
  }

  function Finishes(s: seq<WindowRun>): (f: seq<Finish>)
    ensures |f| == |s|
  {
    seq(|s|, i requires 0 <= i < |s| => FinishOf(s[i]))
  }

  /** The outage that the run at j would end starts at the first of the failures right before it. */
  function OutageStart(s: seq<Finish>, j: nat): (i: nat)
    requires j <= |s|
    ensures i <= j && (forall k :: i <= k < j ==> s[k].failed) && (i == 0 || !s[i - 1].failed)
  {
    if j == 0 || !s[j - 1].failed then j else OutageStart(s, j - 1)
  }

  predicate Recovers(s: seq<Finish>, j: nat)
    requires j < |s|
  {
    j > 0 && s[j - 1].failed && !s[j].failed
  }

  /** Downtime of the outages that the first n runs end. */
  function Downtime(s: seq<Finish>, n: nat): int
    requires n <= |s|
  {
    if n == 0 then 0
    else Downtime(s, n - 1) + if Recovers(s, n - 1) then s[n - 1].at - s[OutageStart(s, n - 1)].at else 0
  }

  function Recoveries(s: seq<Finish>, n: nat): nat
    requires n <= |s|
  {
    if n == 0 then 0 else Recoveries(s, n - 1) + if Recovers(s, n - 1) then 1 else 0
  }

  /** All the runs from i on failed until j, which succeeded, and the one before i did not fail. */
  ghost predicate IsOutage(s: seq<WindowRun>, i: int, j: int) {
    && 0 <= i < j < |s|
    && (forall k :: i <= k < j ==> s[k].run.conclusion == "failure" || s[k].run.conclusion == "timed_out")
    && (i == 0 || s[i - 1].run.conclusion == "success")
    && s[j].run.conclusion == "success"
  }

  /** Each of the outages of a pipeline's runs, with its length. */
  ghost predicate AreOutages(s: seq<WindowRun>, outages: map<(int, int), int>) {
    && (forall i, j :: (i, j) in outages <==> IsOutage(s, i, j))
    && (forall i, j :: (i, j) in outages ==> outages[(i, j)] == FinishedAt(s[j].run) - FinishedAt(s[i].run))
  }

  ghost function OutagesIn(s: seq<Finish>, n: nat): map<(int, int), int>
    requires n <= |s|
  {
    if n == 0 then map[]
    else if !Recovers(s, n - 1) then OutagesIn(s, n - 1)
    else
      var from := OutageStart(s, n - 1);
      OutagesIn(s, n - 1)[(from, n - 1) := s[n - 1].at - s[from].at]
  }

  lemma {:induction false} OutagesInAre(s: seq<Finish>, n: nat)
    requires n <= |s|
    ensures forall i, j :: (i, j) in OutagesIn(s, n) <==> 0 <= j < n && Recovers(s, j) && i == OutageStart(s, j)
    ensures forall i, j :: (i, j) in OutagesIn(s, n) ==>
              0 <= i <= j < n && OutagesIn(s, n)[(i, j)] == s[j].at - s[i].at
  {
    if n > 0 {
      OutagesInAre(s, n - 1);
      hide OutageStart;
      hide Recovers;
    }
  }

  lemma {:induction false} OutagesInTotal(s: seq<Finish>, n: nat)
    requires n <= |s|
    ensures Total(OutagesIn(s, n)) == Downtime(s, n) && |OutagesIn(s, n)| == Recoveries(s, n)
  {
    if n > 0 {
      OutagesInTotal(s, n - 1);
      OutagesInAre(s, n - 1);
      OneMoreOutage(OutagesIn(s, n - 1), OutageStart(s, n - 1), n - 1, s[n - 1].at - s[OutageStart(s, n - 1)].at);
      hide OutageStart;
      hide Recovers;
      hide Total;
    }
  }

  lemma OneMoreOutage(outages: map<(int, int), int>, i: int, j: int, length: int)
    requires (i, j) !in outages
    ensures Total(outages[(i, j) := length]) == Total(outages) + length
    ensures |outages[(i, j) := length]| == |outages| + 1
  {
    TotalUpdate(outages, (i, j), length);
    assert outages[(i, j) := length].Keys == outages.Keys + {(i, j)};
    assert |outages[(i, j) := length].Keys| == |outages.Keys| + 1;
  }

  /** The downtime is the sum over the outages, and the recoveries are their number. */
  lemma OutagesCounted(s: seq<WindowRun>) returns (outages: map<(int, int), int>)
    requires forall r :: r in s ==> IsConcluded(r.run.conclusion)
    ensures AreOutages(s, outages)
    ensures Downtime(Finishes(s), |s|) == Total(outages) && Recoveries(Finishes(s), |s|) == |outages|
  {
    var f := Finishes(s);
    outages := OutagesIn(f, |s|);
    OutagesInAre(f, |s|);
    OutagesInTotal(f, |s|);
    forall i: nat, j: nat | j < |s|
      ensures (i, j) in outages <==> IsOutage(s, i, j)
    {
      if i < j {
        SeenOutage(s, i, j);
      }
    }
    assert forall k :: 0 <= k < |s| ==> f[k] == FinishOf(s[k]);
    hide Downtime;
    hide Recoveries;
    hide OutagesIn;
    hide Finishes;
    hide FinishedAt;
    hide IsOutage;
    hide IsFailed;
  }

  lemma SeenOutage(s: seq<WindowRun>, i: nat, j: nat)
    requires forall r :: r in s ==> IsConcluded(r.run.conclusion)
    requires i < j < |s|
    ensures Recovers(Finishes(s), j) && i == OutageStart(Finishes(s), j) <==> IsOutage(s, i, j)
  {
    var f := Finishes(s);
    StartsAt(f, i, j);
    hide OutageStart;
    hide Recovers;
    hide FinishedAt;
    forall k | 0 <= k < |s|
      ensures f[k].failed <==> s[k].run.conclusion == "failure" || s[k].run.conclusion == "timed_out"
      ensures !f[k].failed <==> s[k].run.conclusion == "success"
    {
      assert s[k] in s && f[k] == FinishOf(s[k]);
    }
    hide Finishes;
    hide IsFailed;
    hide IsConcluded;
  }

  lemma StartsAt(s: seq<Finish>, i: nat, j: nat)
    requires i < j < |s|
    ensures Recovers(s, j) && i == OutageStart(s, j) <==>
            (forall k :: i <= k < j ==> s[k].failed) && (i == 0 || !s[i - 1].failed) && !s[j].failed
  {
    var from := OutageStart(s, j);
    assert from > i ==> !s[from - 1].failed;
    assert from < i ==> s[i - 1].failed;
  }

  /** The scan with its one piece of state, downSince. */
  method Scan(s: seq<WindowRun>) returns (total: int, recoveries: nat)
    requires forall r :: r in s ==> IsConcluded(r.run.conclusion)
    ensures exists outages :: AreOutages(s, outages) && total == Total(outages) && recoveries == |outages|
    ensures total == Downtime(Finishes(s), |s|)
    ensures recoveries == Recoveries(Finishes(s), |s|)
  {
    total, recoveries := 0, 0;
    var downSince: Option<int> := None;
    ghost var f := Finishes(s);
    var i := 0;
    while i < |s|
      invariant 0 <= i <= |s|
      invariant total == Downtime(f, i) && recoveries == Recoveries(f, i)
      invariant downSince.Some? <==> i > 0 && f[i - 1].failed
      invariant downSince.Some? ==> OutageStart(f, i) < i && downSince.value == f[OutageStart(f, i)].at
    {
      var at := FinishedAt(s[i].run);
      if IsFailed(s[i].run.conclusion) && downSince.None? {
        downSince := Some(at);
      } else if s[i].run.conclusion == "success" && downSince.Some? {
        total := total + (at - downSince.value);
        recoveries := recoveries + 1;
        downSince := None;
      }
      i := i + 1;
    }
    ghost var outages := OutagesCounted(s);
  }

  /** An order of finishing for every pipeline with a concluded run; ties fall either way. */
  ghost predicate Ordered(runs: seq<WindowRun>, sorted: map<PipelineRef, seq<WindowRun>>) {
    && (forall p :: p in sorted <==> ConcludedOf(runs, p) != [])
    && (forall p :: p in sorted ==> SortOf(FinishedBefore, ConcludedOf(runs, p), sorted[p]))
  }

  ghost function Downtimes(sorted: map<PipelineRef, seq<WindowRun>>): map<PipelineRef, int> {
    map p | p in sorted :: Downtime(Finishes(sorted[p]), |sorted[p]|)
  }

  ghost function RecoveryCounts(sorted: map<PipelineRef, seq<WindowRun>>): map<PipelineRef, int> {
    map p | p in sorted :: Recoveries(Finishes(sorted[p]), |sorted[p]|)
  }

  ghost predicate IsMeanOf(sorted: map<PipelineRef, seq<WindowRun>>, mttr: Option<int>) {
    var total, count := Total(Downtimes(sorted)), Total(RecoveryCounts(sorted));
    if count == 0 then mttr == None else mttr == Some(total / count)
  }

  lemma {:induction false} ConcludedOnly(runs: seq<WindowRun>, p: PipelineRef)
    ensures forall r :: r in ConcludedOf(runs, p) ==> r.pipeline == p && IsConcluded(r.run.conclusion) && r in runs
  {
    if runs != [] {
      ConcludedOnly(runs[..|runs| - 1], p);
    }
  }

  lemma FinishedBeforeTotal()
    ensures TotalPreorder(FinishedBefore)
  {
  }

  ghost predicate Grouped(runs: seq<WindowRun>, m: map<PipelineRef, seq<WindowRun>>) {
    && (forall p :: p in m <==> ConcludedOf(runs, p) != [])
    && (forall p :: p in m ==> m[p] == ConcludedOf(runs, p))
  }

  lemma OneMoreConcluded(runs: seq<WindowRun>, i: nat, p: PipelineRef)
    requires i < |runs|
    ensures ConcludedOf(runs[..i + 1], p) ==
            ConcludedOf(runs[..i], p)
            + if runs[i].pipeline == p && IsConcluded(runs[i].run.conclusion) then [runs[i]] else []
  {
    assert runs[..i + 1][..i] == runs[..i];
  }

  lemma OneMoreGrouped(runs: seq<WindowRun>, i: nat, m: map<PipelineRef, seq<WindowRun>>)
    requires i < |runs| && Grouped(runs[..i], m)
    ensures var r := runs[i];
            Grouped(runs[..i + 1],
                    if IsConcluded(r.run.conclusion)
                    then m[r.pipeline := (if r.pipeline in m then m[r.pipeline] else []) + [r]] else m)
  {
    forall p {
      OneMoreConcluded(runs, i, p);
    }
    hide ConcludedOf;
    hide IsConcluded;
  }

  method GroupConcluded(runs: seq<WindowRun>) returns (byPipeline: map<PipelineRef, seq<WindowRun>>)
    ensures forall p :: p in byPipeline <==> ConcludedOf(runs, p) != []
    ensures forall p :: p in byPipeline ==> byPipeline[p] == ConcludedOf(runs, p)
  {
    byPipeline := map[];
    var i := 0;
    while i < |runs|
      invariant 0 <= i <= |runs| && Grouped(runs[..i], byPipeline)
    {
      var r := runs[i];
      OneMoreGrouped(runs, i, byPipeline);
      hide Grouped;
      if IsConcluded(r.run.conclusion) {
        byPipeline := byPipeline[r.pipeline := (if r.pipeline in byPipeline then byPipeline[r.pipeline] else []) + [r]];
      }
      i := i + 1;
    }
    assert runs[..i] == runs;
  }

  /** One turn of the loop over pipelines. */
  method PipelineRecovery(group: seq<WindowRun>) returns (total: int, recoveries: nat, ghost order: seq<WindowRun>)
    requires forall r :: r in group ==> IsConcluded(r.run.conclusion)
    ensures SortOf(FinishedBefore, group, order)
    ensures total == Downtime(Finishes(order), |order|) && recoveries == Recoveries(Finishes(order), |order|)
  {
    FinishedBeforeTotal();
    var pipelineRuns := Sort(FinishedBefore, group);
    order := pipelineRuns;
    assert forall r :: r in pipelineRuns ==> r in multiset(pipelineRuns) && r in multiset(group) && r in group;
    total, recoveries := Scan(pipelineRuns);
  }

  /** The mean over the outages of some order of finishing. */
  ghost predicate IsMttr(runs: seq<WindowRun>, mttr: Option<int>) {
    exists sorted :: Ordered(runs, sorted) && IsMeanOf(sorted, mttr)
  }

  /** One pipeline's successes and failures, all of them and no others, in finishing order. */
  ghost predicate InFinishingOrder(runs: seq<WindowRun>, p: PipelineRef, s: seq<WindowRun>) {
    && (forall r :: multiset(s)[r] ==
                    if r.pipeline == p && r.run.conclusion in ["success", "failure", "timed_out"]
                    then multiset(runs)[r] else 0)
    && (forall i, j :: 0 <= i < j < |s| ==> FinishedAt(s[i].run) <= FinishedAt(s[j].run))
  }

  /** That of each pipeline that has any. */
  ghost predicate AllInFinishingOrder(runs: seq<WindowRun>, sorted: map<PipelineRef, seq<WindowRun>>) {
    && (forall p :: p in sorted <==>
          exists r :: r in runs && r.pipeline == p && r.run.conclusion in ["success", "failure", "timed_out"])
    && (forall p :: p in sorted ==> InFinishingOrder(runs, p, sorted[p]))
  }

  ghost function OutageTotals(outages: map<PipelineRef, map<(int, int), int>>): map<PipelineRef, int> {
    map p | p in outages :: Total(outages[p])
  }

  ghost function OutageCounts(outages: map<PipelineRef, map<(int, int), int>>): map<PipelineRef, int> {
    map p | p in outages :: |outages[p]|
  }

  /** The mean length of all the outages of all the pipelines; nothing when there is none. */
  ghost predicate IsMeanOutage(
    sorted: map<PipelineRef, seq<WindowRun>>, outages: map<PipelineRef, map<(int, int), int>>, mttr: Option<int>)
  {
    && outages.Keys == sorted.Keys
    && (forall p :: p in sorted ==> AreOutages(sorted[p], outages[p]))
    && var total, count := Total(OutageTotals(outages)), Total(OutageCounts(outages));
       mttr == if count == 0 then None else Some(total / count)
  }

  lemma {:induction false} ConcludedMembers(runs: seq<WindowRun>, p: PipelineRef)
    ensures ConcludedOf(runs, p) != [] <==>
            exists r :: r in runs && r.pipeline == p && r.run.conclusion in ["success", "failure", "timed_out"]
  {
    ConcludedOnly(runs, p);
    ConcludedBag(runs, p);
    var all := ConcludedOf(runs, p);
    hide ConcludedOf;
    if all != [] {
      var r := all[0];
      assert r in runs && r.pipeline == p;
    }
    forall r | r in runs && r.pipeline == p && IsConcluded(r.run.conclusion)
      ensures all != []
    {
      assert r in multiset(runs) && r in multiset(all);
    }
  }

  lemma SortedMeans(runs: seq<WindowRun>, p: PipelineRef, s: seq<WindowRun>)
    requires SortOf(FinishedBefore, ConcludedOf(runs, p), s)
    ensures InFinishingOrder(runs, p, s)
  {
    ConcludedBag(runs, p);
    hide ConcludedOf;
    hide FinishedAt;
    assert forall i, j :: 0 <= i < j < |s| ==> FinishedBefore(s[i], s[j]);
  }

  lemma OrderedMeans(runs: seq<WindowRun>, sorted: map<PipelineRef, seq<WindowRun>>)
    requires Ordered(runs, sorted)
    ensures AllInFinishingOrder(runs, sorted)
  {
    forall p
      ensures p in sorted <==>
              exists r :: r in runs && r.pipeline == p && r.run.conclusion in ["success", "failure", "timed_out"]
      ensures p in sorted ==> InFinishingOrder(runs, p, sorted[p])
    {
      ConcludedMembers(runs, p);
      if p in sorted {
        SortedMeans(runs, p, sorted[p]);
      }
    }
    hide Ordered;
    hide ConcludedOf;
    hide InFinishingOrder;
  }

  /** Every reading of the mean is the mean length of the outages there were. */
  lemma MeanOfOutages(runs: seq<WindowRun>, sorted: map<PipelineRef, seq<WindowRun>>, mttr: Option<int>)
    requires Ordered(runs, sorted) && IsMeanOf(sorted, mttr)
    ensures AllInFinishingOrder(runs, sorted)
    ensures exists outages :: IsMeanOutage(sorted, outages, mttr)
  {
    OrderedMeans(runs, sorted);
    forall p | p in sorted
      ensures exists o :: OutagesWith(sorted[p], o)
    {
      OutagesOfOne(runs, sorted, p);
    }
    hide *;
    var outages := map p | p in sorted :: var o :| OutagesWith(sorted[p], o); o;
    MeanOver(sorted, outages, mttr);
  }

  lemma OutagesOfOne(runs: seq<WindowRun>, sorted: map<PipelineRef, seq<WindowRun>>, p: PipelineRef)
    requires Ordered(runs, sorted) && p in sorted
    ensures exists o :: OutagesWith(sorted[p], o)
  {
    AllConcluded(runs, sorted, p);
    hide Ordered;
    var o := OutagesCounted(sorted[p]);
    assert OutagesWith(sorted[p], o);
  }

  ghost predicate OutagesWith(s: seq<WindowRun>, outages: map<(int, int), int>) {
    && AreOutages(s, outages)
    && Downtime(Finishes(s), |s|) == Total(outages) && Recoveries(Finishes(s), |s|) == |outages|
  }

  lemma MeanOver(
    sorted: map<PipelineRef, seq<WindowRun>>, outages: map<PipelineRef, map<(int, int), int>>, mttr: Option<int>)
    requires outages.Keys == sorted.Keys && forall p :: p in sorted ==> OutagesWith(sorted[p], outages[p])
    requires IsMeanOf(sorted, mttr)
    ensures IsMeanOutage(sorted, outages, mttr)
  {
    hide AreOutages;
    hide Downtime;
    hide Recoveries;
    hide Finishes;
    hide Total;
    assert forall p :: p in sorted <==> p in outages;
    assert OutageTotals(outages) == Downtimes(sorted);
    assert OutageCounts(outages) == RecoveryCounts(sorted);
  }

  lemma AllConcluded(runs: seq<WindowRun>, sorted: map<PipelineRef, seq<WindowRun>>, p: PipelineRef)
    requires Ordered(runs, sorted) && p in sorted
    ensures forall r :: r in sorted[p] ==> IsConcluded(r.run.conclusion)
  {
    ConcludedOnly(runs, p);
    hide IsConcluded;
    hide ConcludedOf;
    forall r | r in sorted[p]
      ensures r in ConcludedOf(runs, p)
    {
      assert r in multiset(sorted[p]) && r in multiset(ConcludedOf(runs, p));
    }
  }

  method MeanTimeToRecovery(runs: seq<WindowRun>) returns (mttr: Option<int>)
    ensures IsMttr(runs, mttr)
    ensures exists sorted, outages :: AllInFinishingOrder(runs, sorted) && IsMeanOutage(sorted, outages, mttr)
  {
    var byPipeline := GroupConcluded(runs);
    NoPipelines();
    hide Downtimes;
    hide RecoveryCounts;
    hide Downtime;
    hide Recoveries;
    hide Finishes;
    hide Total;
    hide SortOf;
    hide ConcludedOf;
    var total, recoveries := 0, 0;
    var todo := byPipeline.Keys;
    ghost var sorted: map<PipelineRef, seq<WindowRun>> := map[];
    while todo != {}
      invariant todo <= byPipeline.Keys
      invariant sorted.Keys == byPipeline.Keys - todo
      invariant forall p :: p in sorted ==> SortOf(FinishedBefore, ConcludedOf(runs, p), sorted[p])
      invariant total == Total(Downtimes(sorted)) && recoveries == Total(RecoveryCounts(sorted))
    {
      var p :| p in todo;
      ConcludedOnly(runs, p);
      ghost var order;
      var down, count;
      down, count, order := PipelineRecovery(byPipeline[p]);
      total, recoveries := total + down, recoveries + count;
      AddPipeline(sorted, p, order);
      sorted := sorted[p := order];
      todo := todo - {p};
    }
    mttr := if recoveries == 0 then None else Some(total / recoveries);
    assert Ordered(runs, sorted) && IsMeanOf(sorted, mttr);
    MeanOfOutages(runs, sorted, mttr);
    hide Ordered;
    hide IsMeanOf;
    hide AllInFinishingOrder;
    hide IsMeanOutage;
  }

  lemma NoPipelines()
    ensures Total(Downtimes(map[])) == 0 && Total(RecoveryCounts(map[])) == 0
  {
    assert Downtimes(map[]) == map[] && RecoveryCounts(map[]) == map[];
  }

  lemma AddPipeline(sorted: map<PipelineRef, seq<WindowRun>>, p: PipelineRef, s: seq<WindowRun>)
    requires p !in sorted
    ensures Total(Downtimes(sorted[p := s])) == Total(Downtimes(sorted)) + Downtime(Finishes(s), |s|)
    ensures Total(RecoveryCounts(sorted[p := s])) == Total(RecoveryCounts(sorted)) + Recoveries(Finishes(s), |s|)
  {
    AddDowntime(sorted, p, s);
    AddRecoveries(sorted, p, s);
  }

  lemma AddDowntime(sorted: map<PipelineRef, seq<WindowRun>>, p: PipelineRef, s: seq<WindowRun>)
    requires p !in sorted
    ensures Total(Downtimes(sorted[p := s])) == Total(Downtimes(sorted)) + Downtime(Finishes(s), |s|)
  {
    hide Downtime;
    hide Total;
    hide Finishes;
    TotalUpdate(Downtimes(sorted), p, Downtime(Finishes(s), |s|));
    assert Downtimes(sorted[p := s]) == Downtimes(sorted)[p := Downtime(Finishes(s), |s|)];
  }

  lemma AddRecoveries(sorted: map<PipelineRef, seq<WindowRun>>, p: PipelineRef, s: seq<WindowRun>)
    requires p !in sorted
    ensures Total(RecoveryCounts(sorted[p := s])) == Total(RecoveryCounts(sorted)) + Recoveries(Finishes(s), |s|)
  {
    hide Recoveries;
    hide Total;
    hide Finishes;
    TotalUpdate(RecoveryCounts(sorted), p, Recoveries(Finishes(s), |s|));
    assert RecoveryCounts(sorted[p := s]) == RecoveryCounts(sorted)[p := Recoveries(Finishes(s), |s|)];
  }

  function Count(s: seq<Finish>, n: nat, failed: bool): nat
    requires n <= |s|
  {
    if n == 0 then 0 else Count(s, n - 1, failed) + if s[n - 1].failed == failed then 1 else 0
  }

  predicate InOrder(s: seq<Finish>) {
    forall i, j :: 0 <= i < j < |s| ==> s[i].at <= s[j].at
  }

  /**
  No recovery time is negative, and a pipeline's outages do not overlap: together they fit
  between its first finish and its last so far, or the start of the outage still open.
  */
  lemma {:induction false} DowntimeFits(s: seq<Finish>, n: nat)
    requires InOrder(s) && n <= |s|
    ensures 0 <= Downtime(s, n)
    ensures n > 0 ==> Downtime(s, n) <= s[n - 1].at - s[0].at
    ensures forall j :: 0 <= j < n && Recovers(s, j) ==> s[OutageStart(s, j)].at <= s[j].at
    ensures n > 0 && s[n - 1].failed ==> Downtime(s, n) <= s[OutageStart(s, n)].at - s[0].at
  {
    if n > 0 {
      DowntimeFits(s, n - 1);
    }
  }

  /** Each recovery has a failure of its own before it and a success of its own at its end. */
  lemma {:induction false} RecoveriesAreFew(s: seq<Finish>, n: nat)
    requires n <= |s|
    ensures Recoveries(s, n) <= Count(s, n, false)
    ensures Recoveries(s, n) + (if n > 0 && s[n - 1].failed then 1 else 0) <= Count(s, n, true)
  {
    if n > 0 {
      RecoveriesAreFew(s, n - 1);
    }
  }

  /** The reported mean is the exact one rounded down, and never negative. */
  lemma MeanIsTruncated(runs: seq<WindowRun>, sorted: map<PipelineRef, seq<WindowRun>>, mttr: Option<int>)
    requires Ordered(runs, sorted) && IsMeanOf(sorted, mttr) && mttr.Some?
    ensures 0 <= mttr.value
    ensures mttr.value * Total(RecoveryCounts(sorted)) <= Total(Downtimes(sorted))
            < (mttr.value + 1) * Total(RecoveryCounts(sorted))
  {
    TotalsAreNonnegative(runs, sorted);
    hide Ordered;
    hide Downtimes;
    hide RecoveryCounts;
    Truncates(Total(Downtimes(sorted)), Total(RecoveryCounts(sorted)));
  }

  lemma Truncates(t: int, n: int)
    requires t >= 0 && n > 0
    ensures 0 <= t / n && t / n * n <= t < (t / n + 1) * n
  {
    assert t == n * (t / n) + t % n;
  }

  lemma TotalsAreNonnegative(runs: seq<WindowRun>, sorted: map<PipelineRef, seq<WindowRun>>)
    requires Ordered(runs, sorted)
    ensures Total(Downtimes(sorted)) >= 0 && Total(RecoveryCounts(sorted)) >= 0
  {
    forall p | p in sorted
      ensures Downtimes(sorted)[p] >= 0
    {
      FinishesInOrder(sorted[p]);
      DowntimeFits(Finishes(sorted[p]), |sorted[p]|);
    }
    hide Downtime;
    hide Recoveries;
    TotalNonnegative(Downtimes(sorted));
    TotalNonnegative(RecoveryCounts(sorted));
  }

  lemma FinishesInOrder(s: seq<WindowRun>)
    requires Sorted(FinishedBefore, s)
    ensures InOrder(Finishes(s))
  {
  }

  /** No pipeline has a success and a failure finishing at the same instant. */
  ghost predicate NoClash(runs: seq<WindowRun>) {
    forall r, q ::
      (r in runs && q in runs && r.pipeline == q.pipeline &&
       IsConcluded(r.run.conclusion) && IsConcluded(q.run.conclusion) && FinishedAt(r.run) == FinishedAt(q.run))
      ==> IsFailed(r.run.conclusion) == IsFailed(q.run.conclusion)
  }

  predicate EndsBefore(a: Finish, b: Finish) {
    a.at <= b.at
  }

  lemma {:induction false} FinishesBag(a: seq<WindowRun>, f: Finish)
    ensures multiset(Finishes(a))[f] == |Matching(a, f)|
  {
    if a != [] {
      var init, last := a[..|a| - 1], a[|a| - 1];
      FinishesBag(init, f);
      assert Finishes(a) == Finishes(init) + [FinishOf(last)];
      hide FinishOf;
      hide Finishes;
      assert multiset(Finishes(a)) == multiset(Finishes(init)) + multiset{FinishOf(last)};
    }
  }

  lemma {:induction false} MatchingBag(a: seq<WindowRun>, f: Finish, r: WindowRun)
    ensures multiset(Matching(a, f))[r] == if FinishOf(r) == f then multiset(a)[r] else 0
  {
    hide FinishOf;
    if a != [] {
      var init, last := a[..|a| - 1], a[|a| - 1];
      MatchingBag(init, f, r);
      assert a == init + [last];
    }
  }

  function Matching(a: seq<WindowRun>, f: Finish): seq<WindowRun> {
    if a == [] then []
    else Matching(a[..|a| - 1], f) + if FinishOf(a[|a| - 1]) == f then [a[|a| - 1]] else []
  }

  lemma SameFinishes(a: seq<WindowRun>, b: seq<WindowRun>)
    requires multiset(a) == multiset(b)
    ensures multiset(Finishes(a)) == multiset(Finishes(b))
  {
    forall f
      ensures multiset(Finishes(a))[f] == multiset(Finishes(b))[f]
    {
      FinishesBag(a, f);
      FinishesBag(b, f);
      forall r
        ensures multiset(Matching(a, f))[r] == multiset(Matching(b, f))[r]
      {
        MatchingBag(a, f, r);
        MatchingBag(b, f, r);
      }
      assert multiset(Matching(a, f)) == multiset(Matching(b, f));
      assert |Matching(a, f)| == |multiset(Matching(a, f))|;
      assert |Matching(b, f)| == |multiset(Matching(b, f))|;
    }
  }

  lemma {:induction false} ConcludedBag(runs: seq<WindowRun>, p: PipelineRef)
    ensures forall r :: multiset(ConcludedOf(runs, p))[r] ==
                        if r.pipeline == p && IsConcluded(r.run.conclusion) then multiset(runs)[r] else 0
  {
    if runs != [] {
      var init, last := runs[..|runs| - 1], runs[|runs| - 1];
      ConcludedBag(init, p);
      assert runs == init + [last];
    }
  }

  lemma NoClashMeans(a: seq<WindowRun>, x: seq<WindowRun>, p: PipelineRef)
    requires NoClash(x) && multiset(a) == multiset(ConcludedOf(x, p))
    ensures Antisymmetric(EndsBefore, multiset(Finishes(a)))
  {
    var fa := Finishes(a);
    forall i, j | 0 <= i < |a| && 0 <= j < |a| && fa[i].at == fa[j].at
      ensures fa[i] == fa[j]
    {
      Among(a, x, p, i);
      Among(a, x, p, j);
    }
    hide NoClash;
    hide ConcludedOf;
    forall f, g | f in multiset(fa) && g in multiset(fa) && EndsBefore(f, g) && EndsBefore(g, f)
      ensures f == g
    {
      var i :| 0 <= i < |fa| && fa[i] == f;
      var j :| 0 <= j < |fa| && fa[j] == g;
    }
  }

  lemma Among(a: seq<WindowRun>, x: seq<WindowRun>, p: PipelineRef, i: nat)
    requires multiset(a) == multiset(ConcludedOf(x, p)) && i < |a|
    ensures a[i] in x && a[i].pipeline == p && IsConcluded(a[i].run.conclusion)
  {
    ConcludedOnly(x, p);
    assert a[i] in multiset(a) && a[i] in multiset(ConcludedOf(x, p));
  }

  lemma FinishesSorted(a: seq<WindowRun>)
    requires Sorted(FinishedBefore, a)
    ensures Sorted(EndsBefore, Finishes(a))
  {
  }

  /** Where results never clash, every order of finishing reads the same to the scan. */
  lemma OneReading(a: seq<WindowRun>, b: seq<WindowRun>, x: seq<WindowRun>, p: PipelineRef)
    requires NoClash(x)
    requires multiset(a) == multiset(b) == multiset(ConcludedOf(x, p))
    requires Sorted(FinishedBefore, a) && Sorted(FinishedBefore, b)
    ensures Finishes(a) == Finishes(b)
  {
    SameFinishes(a, b);
    NoClashMeans(a, x, p);
    FinishesSorted(a);
    FinishesSorted(b);
    hide Finishes;
    hide ConcludedOf;
    hide NoClash;
    SortIsUnique(EndsBefore, Finishes(a), Finishes(b));
  }

  /**
  The mean depends on which runs there are and on nothing else: not on the order they come in,
  not on how the sort breaks ties, not on the order the pipelines are visited in, provided no
  pipeline has opposite results at one instant.
  */
  lemma MeanIsWellDefined(
    a: seq<WindowRun>, b: seq<WindowRun>,
    sa: map<PipelineRef, seq<WindowRun>>, sb: map<PipelineRef, seq<WindowRun>>, ma: Option<int>, mb: Option<int>)
    requires multiset(a) == multiset(b) && NoClash(a)
    requires Ordered(a, sa) && IsMeanOf(sa, ma)
    requires Ordered(b, sb) && IsMeanOf(sb, mb)
    ensures ma == mb
  {
    forall p
      ensures p in sa <==> p in sb
      ensures p in sa ==> Finishes(sa[p]) == Finishes(sb[p]) && |sa[p]| == |sb[p]|
    {
      SamePipeline(a, b, sa, sb, p);
    }
    hide Ordered;
    hide Total;
    SameTotals(sa, sb);
    hide Finishes;
    hide Downtimes;
    hide RecoveryCounts;
  }

  lemma SameTotals(sa: map<PipelineRef, seq<WindowRun>>, sb: map<PipelineRef, seq<WindowRun>>)
    requires forall p :: p in sa <==> p in sb
    requires forall p :: p in sa ==> Finishes(sa[p]) == Finishes(sb[p]) && |sa[p]| == |sb[p]|
    ensures Downtimes(sa) == Downtimes(sb) && RecoveryCounts(sa) == RecoveryCounts(sb)
  {
    hide Downtime;
    hide Recoveries;
    hide Finishes;
  }

  lemma SamePipeline(
    a: seq<WindowRun>, b: seq<WindowRun>,
    sa: map<PipelineRef, seq<WindowRun>>, sb: map<PipelineRef, seq<WindowRun>>, p: PipelineRef)
    requires multiset(a) == multiset(b) && NoClash(a) && Ordered(a, sa) && Ordered(b, sb)
    ensures p in sa <==> p in sb
    ensures p in sa ==> Finishes(sa[p]) == Finishes(sb[p]) && |sa[p]| == |sb[p]|
  {
    SameConcluded(a, b, p);
    hide ConcludedOf;
    hide Finishes;
    hide FinishedBefore;
    if p in sa {
      OneReading(sa[p], sb[p], a, p);
      assert |Finishes(sa[p])| == |sa[p]| && |Finishes(sb[p])| == |sb[p]|;
    }
  }

  lemma SameConcluded(a: seq<WindowRun>, b: seq<WindowRun>, p: PipelineRef)
    requires multiset(a) == multiset(b)
    ensures multiset(ConcludedOf(a, p)) == multiset(ConcludedOf(b, p))
    ensures ConcludedOf(a, p) == [] <==> ConcludedOf(b, p) == []
  {
    ConcludedBag(a, p);
    ConcludedBag(b, p);
    hide ConcludedOf;
    hide IsConcluded;
    assert multiset(ConcludedOf(a, p)) == multiset(ConcludedOf(b, p));
    assert |multiset(ConcludedOf(a, p))| == |ConcludedOf(a, p)| && |multiset(ConcludedOf(b, p))| == |ConcludedOf(b, p)|;
  }

  /** Finishing order with one way to break ties: by result, the failures or the successes first. */
  predicate TiesByResult(a: WindowRun, b: WindowRun, failuresFirst: bool) {
    FinishedAt(a.run) < FinishedAt(b.run)
    || (FinishedAt(a.run) == FinishedAt(b.run)
        && (IsFailed(a.run.conclusion) == IsFailed(b.run.conclusion) || IsFailed(a.run.conclusion) == failuresFirst))
  }

  function ByResult(failuresFirst: bool): (WindowRun, WindowRun) -> bool {
    (a: WindowRun, b: WindowRun) => TiesByResult(a, b, failuresFirst)
  }

  lemma ByResultTotal(failuresFirst: bool)
    ensures TotalPreorder(ByResult(failuresFirst))
  {
    hide FinishedAt;
    hide IsFailed;
  }

  ghost function InOrderOf(runs: seq<WindowRun>, failuresFirst: bool): map<PipelineRef, seq<WindowRun>> {
    map p | p in (set wr | wr in runs :: wr.pipeline) && ConcludedOf(runs, p) != [] ::
      StableSort(ByResult(failuresFirst), ConcludedOf(runs, p))
  }

  lemma InOrderOfOrders(runs: seq<WindowRun>, failuresFirst: bool)
    ensures Ordered(runs, InOrderOf(runs, failuresFirst))
  {
    var sorted := InOrderOf(runs, failuresFirst);
    ByResultTotal(failuresFirst);
    forall p
      ensures p in sorted <==> ConcludedOf(runs, p) != []
      ensures p in sorted ==> SortOf(FinishedBefore, ConcludedOf(runs, p), sorted[p])
    {
      var all := ConcludedOf(runs, p);
      if all != [] {
        ConcludedOnly(runs, p);
        assert all[0] in runs && all[0].pipeline == p;
        StableSortSorts(ByResult(failuresFirst), all);
        var s := StableSort(ByResult(failuresFirst), all);
        forall i, j | 0 <= i < j < |s|
          ensures FinishedBefore(s[i], s[j])
        {
          assert ByResult(failuresFirst)(s[i], s[j]);
        }
      }
    }
  }

  lemma TiesReadApart(a: seq<WindowRun>, b: seq<WindowRun>, bad: WindowRun, good: WindowRun)
    requires Sorted(ByResult(true), a) && Sorted(ByResult(false), b) && |a| == |b|
    requires bad in a && good in a && FinishedAt(bad.run) == FinishedAt(good.run)
    requires IsFailed(bad.run.conclusion) && !IsFailed(good.run.conclusion)
    ensures Finishes(a) != Finishes(b)
  {
    var i :| 0 <= i < |a| && a[i] == bad;
    var j :| 0 <= j < |a| && a[j] == good;
    assert i < j by {
      assert !ByResult(true)(good, bad);
    }
    assert ByResult(false)(b[i], b[j]);
    var f, g := Finishes(a), Finishes(b);
    assert f[i] == FinishOf(bad) && f[j] == FinishOf(good) && g[i] == FinishOf(b[i]) && g[j] == FinishOf(b[j]);
  }

  lemma ClashReadsApart(runs: seq<WindowRun>, bad: WindowRun, good: WindowRun)
    requires bad in runs && good in runs && bad.pipeline == good.pipeline
    requires IsConcluded(bad.run.conclusion) && IsConcluded(good.run.conclusion)
    requires IsFailed(bad.run.conclusion) && !IsFailed(good.run.conclusion)
    requires FinishedAt(bad.run) == FinishedAt(good.run)
    ensures var a, b := InOrderOf(runs, true), InOrderOf(runs, false);
            && Ordered(runs, a) && Ordered(runs, b)
            && bad.pipeline in a && bad.pipeline in b
            && Finishes(a[bad.pipeline]) != Finishes(b[bad.pipeline])
  {
    var p := bad.pipeline;
    InOrderOfOrders(runs, true);
    InOrderOfOrders(runs, false);
    ConcludedBag(runs, p);
    var all := ConcludedOf(runs, p);
    assert bad in multiset(runs) && good in multiset(runs);
    assert bad in multiset(all) && good in multiset(all);
    hide ConcludedOf;
    ByResultTotal(true);
    ByResultTotal(false);
    StableSortSorts(ByResult(true), all);
    StableSortSorts(ByResult(false), all);
    var a, b := StableSort(ByResult(true), all), StableSort(ByResult(false), all);
    hide StableSort;
    assert bad in multiset(a) && good in multiset(a);
    assert |multiset(a)| == |a| && |multiset(b)| == |b|;
    TiesReadApart(a, b, bad, good);
    hide Ordered;
  }

  /**
  Exactly when the scan has one reading: every order of finishing looks the same to it, in every
  pipeline, if and only if no pipeline has opposite results at one instant.
  */
  lemma OneReadingExactly(runs: seq<WindowRun>)
    ensures NoClash(runs) <==>
            forall sa, sb :: Ordered(runs, sa) && Ordered(runs, sb) ==>
              forall p :: p in sa && p in sb ==> Finishes(sa[p]) == Finishes(sb[p])
  {
    if NoClash(runs) {
      forall sa, sb | Ordered(runs, sa) && Ordered(runs, sb)
        ensures forall p :: p in sa && p in sb ==> Finishes(sa[p]) == Finishes(sb[p])
      {
        forall p | p in sa && p in sb
          ensures Finishes(sa[p]) == Finishes(sb[p])
        {
          SamePipeline(runs, runs, sa, sb, p);
        }
      }
    } else {
      var r, q :| r in runs && q in runs && r.pipeline == q.pipeline &&
                  IsConcluded(r.run.conclusion) && IsConcluded(q.run.conclusion) &&
                  FinishedAt(r.run) == FinishedAt(q.run) &&
                  IsFailed(r.run.conclusion) != IsFailed(q.run.conclusion);
      if IsFailed(r.run.conclusion) {
        ClashReadsApart(runs, r, q);
      } else {
        ClashReadsApart(runs, q, r);
      }
    }
  }

  /** And the mean can tell: in a window of just two such runs it is zero, or undefined. */
  lemma ClashMatters(p: PipelineRef, bad: WindowRun, good: WindowRun)
    requires bad.pipeline == good.pipeline == p && FinishedAt(bad.run) == FinishedAt(good.run)
    requires IsFailed(bad.run.conclusion) && good.run.conclusion == "success"
    ensures Ordered([bad, good], map[p := [bad, good]]) && Ordered([bad, good], map[p := [good, bad]])
    ensures IsMeanOf(map[p := [bad, good]], Some(0)) && IsMeanOf(map[p := [good, bad]], None)
  {
    BothConcluded(p, bad, good);
    var f, g := Finishes([bad, good]), Finishes([good, bad]);
    assert f == [FinishOf(bad), FinishOf(good)] && g == [FinishOf(good), FinishOf(bad)];
    OnePipeline(p, [bad, good]);
    OnePipeline(p, [good, bad]);
    hide Total;
    hide Ordered;
    hide Finishes;
    hide Downtimes;
    hide RecoveryCounts;
    TwoFinishes(f);
    TwoFinishes(g);
  }

  lemma TwoFinishes(f: seq<Finish>)
    requires |f| == 2 && f[0].at == f[1].at && f[0].failed != f[1].failed
    ensures Downtime(f, 2) == 0 && Recoveries(f, 2) == if f[0].failed then 1 else 0
  {
    assert Downtime(f, 1) == 0 && Recoveries(f, 1) == 0;
    assert f[0].failed ==> OutageStart(f, 1) == 0;
  }

  lemma BothConcluded(p: PipelineRef, bad: WindowRun, good: WindowRun)
    requires bad.pipeline == good.pipeline == p && FinishedAt(bad.run) == FinishedAt(good.run)
    requires IsFailed(bad.run.conclusion) && good.run.conclusion == "success"
    ensures Ordered([bad, good], map[p := [bad, good]]) && Ordered([bad, good], map[p := [good, bad]])
  {
    var a := [bad, good];
    TwoConcluded(p, bad, good);
    hide ConcludedOf;
    assert multiset([good, bad]) == multiset(a);
    assert SortOf(FinishedBefore, a, a) && SortOf(FinishedBefore, a, [good, bad]);
  }

  lemma TwoConcluded(p: PipelineRef, bad: WindowRun, good: WindowRun)
    requires bad.pipeline == good.pipeline == p && IsFailed(bad.run.conclusion) && good.run.conclusion == "success"
    ensures forall q :: ConcludedOf([bad, good], q) == if q == p then [bad, good] else []
  {
    hide FinishedAt;
    var a := [bad, good];
    assert a[..1] == [bad] && [bad][..0] == [];
    forall q
      ensures ConcludedOf(a, q) == if q == p then a else []
    {
      assert ConcludedOf([bad], q) == ConcludedOf([], q) + if q == p then [bad] else [];
    }
  }

  lemma OnePipeline(p: PipelineRef, s: seq<WindowRun>)
    ensures Total(RecoveryCounts(map[p := s])) == Recoveries(Finishes(s), |s|)
    ensures Total(Downtimes(map[p := s])) == Downtime(Finishes(s), |s|)
  {
    var none: map<PipelineRef, seq<WindowRun>> := map[];
    AddPipeline(none, p, s);
    assert none[p := s] == map[p := s];
  }
}
