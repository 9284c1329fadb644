/** The flaky ratio of the insights, and the agreement of the two computations of flakiness. */
module FlakyRatio {
  import opened Common
  import opened Sums
  import opened Tally
  import opened MetricTypes
  import opened StepMetrics
  import opened Flaky

  /** Every occurrence in one pipeline, in the order given. */
  function StepsOf(steps: seq<WindowStep>, p: PipelineRef): seq<StepOccurrence> {
    if steps == [] then []
    else
      var last := steps[|steps| - 1];
      StepsOf(steps[..|steps| - 1], p) + if last.pipeline == p then [last.step] else []
  }

  lemma StepsOfMore(steps: seq<WindowStep>, ws: WindowStep, p: PipelineRef)
    ensures StepsOf(steps + [ws], p) == StepsOf(steps, p) + if ws.pipeline == p then [ws.step] else []
  {
    assert (steps + [ws])[..|steps|] == steps;
  }

  lemma OccurrencesMore(steps: seq<WindowStep>, ws: WindowStep, key: StepKey)
    ensures OccurrencesOf(steps + [ws], key) ==
            OccurrencesOf(steps, key) +
            if ws.step.status == "completed" && StepKey(ws.pipeline, ws.step.name) == key then [ws.step] else []
  {
    assert (steps + [ws])[..|steps|] == steps;
  }

  /** Grouping by step and grouping by pipeline count the same things. */
  lemma {:induction false} SameCounts(steps: seq<WindowStep>, p: PipelineRef, name: string)
    ensures var occs, all := OccurrencesOf(steps, StepKey(p, name)), StepsOf(steps, p);
            && |occs| == Completed(all, name)
            && CountOf(occs, "failure") == FailureCount(all, name)
            && CountOf(occs, "success") == Sum(all, SuccessName, UnitOcc, name)
  {
    if steps != [] {
      var init, ws := steps[..|steps| - 1], steps[|steps| - 1];
      SameCounts(init, p, name);
      assert steps == init + [ws];
      StepsOfMore(init, ws, p);
      OccurrencesMore(init, ws, StepKey(p, name));
      var occs, all := OccurrencesOf(init, StepKey(p, name)), StepsOf(init, p);
      SumMore(all, CompletedName, UnitOcc, ws.step, name);
      SumMore(all, FailureName, UnitOcc, ws.step, name);
      SumMore(all, SuccessName, UnitOcc, ws.step, name);
      SumMore(occs, Concluding("failure"), UnitOcc, ws.step, ());
      SumMore(occs, Concluding("success"), UnitOcc, ws.step, ());
      hide Sum;
      hide StepsOf;
      hide OccurrencesOf;
      assert all + [] == all && occs + [] == occs;
    }
  }

  lemma SameFlakiness(steps: seq<WindowStep>, p: PipelineRef, name: string)
    ensures IsFlaky(StepsOf(steps, p), name) <==> PassedAndFailed(OccurrencesOf(steps, StepKey(p, name)))
  {
    SameCounts(steps, p, name);
    UnitSum(StepsOf(steps, p), SuccessName, UnitOcc, name);
    UnitSum(StepsOf(steps, p), FailureName, UnitOcc, name);
  }

  lemma Unlisted(steps: seq<WindowStep>, p: PipelineRef, name: string)
    requires !HasKey(StepsOf(steps, p), AnyName, name)
    ensures !IsFlaky(StepsOf(steps, p), name)
  {
    var occs := StepsOf(steps, p);
    assert forall i :: 0 <= i < |occs| ==> AnyName(occs[i]) != Some(name) && SuccessName(occs[i]) != Some(name);
  }

  /**
  A step is in the flaky list exactly when its pipeline's own summary marks it flaky, and then
  the two report the same rate over the same number of completed runs.
  */
  lemma FlakyViewsAgree(
    steps: seq<WindowStep>, active: map<StepKey, Quarantine>, d: seq<FlakyStep>, p: PipelineRef, summary: seq<Step>)
    requires IsFlakyList(steps, active, d) && IsAggregate(StepsOf(steps, p), summary)
    ensures forall s :: s in summary ==> (s.flaky <==> Named(d, KeyOf, StepKey(p, s.name)))
    ensures forall e :: e in d && e.key.pipeline == p ==>
      && Named(summary, StepName, e.key.step)
      && forall s :: s in summary && s.name == e.key.step ==>
           s.flaky && s.failureRate == e.flakeRate && e.runCount == Completed(StepsOf(steps, p), s.name)
  {
    forall s | s in summary
      ensures s.flaky <==> Named(d, KeyOf, StepKey(p, s.name))
    {
      SameFlakiness(steps, p, s.name);
    }
    hide IsSummary;
    forall e | e in d && e.key.pipeline == p
      ensures Named(summary, StepName, e.key.step)
      ensures forall s :: s in summary && s.name == e.key.step ==>
        s.flaky && s.failureRate == e.flakeRate && e.runCount == Completed(StepsOf(steps, p), s.name)
    {
      EntryAgrees(steps, active, d, p, summary, e);
    }
  }

  lemma EntryAgrees(
    steps: seq<WindowStep>, active: map<StepKey, Quarantine>, d: seq<FlakyStep>, p: PipelineRef, summary: seq<Step>,
    e: FlakyStep)
    requires IsFlakyList(steps, active, d) && IsAggregate(StepsOf(steps, p), summary)
    requires e in d && e.key.pipeline == p
    ensures Named(summary, StepName, e.key.step)
    ensures forall s :: s in summary && s.name == e.key.step ==>
      s.flaky && s.failureRate == e.flakeRate && e.runCount == Completed(StepsOf(steps, p), s.name)
  {
    var name := e.key.step;
    assert e.key == StepKey(p, name);
    SameCounts(steps, p, name);
    SameFlakiness(steps, p, name);
    var i :| 0 <= i < |d| && d[i] == e;
    assert Named(d, KeyOf, e.key);
    if !HasKey(StepsOf(steps, p), AnyName, name) {
      Unlisted(steps, p, name);
    }
    hide HasKey;
    hide Sum;
    hide OccurrencesOf;
    hide StepsOf;
  }

  /** The distinct steps of a window. */
  function Pairs(steps: seq<WindowStep>): set<StepKey> {
    set ws | ws in steps :: StepKey(ws.pipeline, ws.step.name)
  }

  ghost function FlakyPairs(steps: seq<WindowStep>, active: map<StepKey, Quarantine>): set<StepKey> {
    set k | k in Pairs(steps) && PassedAndFailed(OccurrencesOf(steps, k)) && k !in active
  }

  function CountIf<E>(d: seq<E>, keep: E -> bool): nat {
    if d == [] then 0 else CountIf(d[..|d| - 1], keep) + if keep(d[|d| - 1]) then 1 else 0
  }

  /** Entries with distinct names are as many as their names. */
  lemma {:induction false} FilteredCard<E, K(!new)>(d: seq<E>, name: E -> K, keep: E -> bool, names: set<K>)
    requires DistinctNames(d, name)
    requires forall k :: k in names <==> exists i :: 0 <= i < |d| && keep(d[i]) && name(d[i]) == k
    ensures |names| == CountIf(d, keep)
  {
    if d == [] {
      assert names == {};
    } else {
      var init, last := d[..|d| - 1], d[|d| - 1];
      assert forall i :: 0 <= i < |init| ==> init[i] == d[i];
      var fewer := names - {name(last)};
      forall k
        ensures k in fewer <==> exists i :: 0 <= i < |init| && keep(init[i]) && name(init[i]) == k
      {
        if i :| 0 <= i < |init| && keep(init[i]) && name(init[i]) == k {
          assert keep(d[i]) && name(d[i]) == k;
        }
        if k in fewer {
          var i :| 0 <= i < |d| && keep(d[i]) && name(d[i]) == k;
          assert init[i] == d[i];
        }
      }
      FilteredCard(init, name, keep, fewer);
      if keep(last) {
        assert name(d[|d| - 1]) in names;
      } else {
        assert forall i :: 0 <= i < |d| && keep(d[i]) ==> name(d[i]) != name(last);
      }
    }
  }

  method GroupByPipeline(steps: seq<WindowStep>) returns (byPipeline: map<PipelineRef, seq<StepOccurrence>>)
    ensures forall p :: p in byPipeline <==> StepsOf(steps, p) != []
    ensures forall p :: p in byPipeline ==> byPipeline[p] == StepsOf(steps, p)
  {
    byPipeline := map[];
    var i := 0;
    while i < |steps|
      invariant 0 <= i <= |steps|
      invariant forall p :: p in byPipeline <==> StepsOf(steps[..i], p) != []
      invariant forall p :: p in byPipeline ==> byPipeline[p] == StepsOf(steps[..i], p)
    {
      var ws := steps[i];
      assert steps[..i + 1] == steps[..i] + [ws];
      forall p
        ensures StepsOf(steps[..i + 1], p) == StepsOf(steps[..i], p) + if ws.pipeline == p then [ws.step] else []
      {
        StepsOfMore(steps[..i], ws, p);
      }
      hide StepsOf;
      var p := ws.pipeline;
      byPipeline := byPipeline[p := (if p in byPipeline then byPipeline[p] else []) + [ws.step]];
      i := i + 1;
    }
    assert steps[..i] == steps;
  }

  method CountFlaky(steps: seq<Step>) returns (total: nat, flaky: nat)
    ensures total == |steps| && flaky == CountIf(steps, CountsAsFlaky)
  {
    total, flaky := 0, 0;
    var i := 0;
    while i < |steps|
      invariant 0 <= i <= |steps|
      invariant total == i && flaky == CountIf(steps[..i], CountsAsFlaky)
    {
      assert steps[..i + 1][..i] == steps[..i];
      total := total + 1;
      if CountsAsFlaky(steps[i]) {
        flaky := flaky + 1;
      }
      i := i + 1;
    }
    assert steps[..i] == steps;
  }

  function Within(keys: set<StepKey>, pipelines: set<PipelineRef>): set<StepKey> {
    set k | k in keys && k.pipeline in pipelines
  }

  lemma {:induction false} PairsOf(steps: seq<WindowStep>, p: PipelineRef, name: string)
    ensures StepKey(p, name) in Pairs(steps) <==> HasKey(StepsOf(steps, p), AnyName, name)
  {
    if steps != [] {
      var init, ws := steps[..|steps| - 1], steps[|steps| - 1];
      PairsOf(init, p, name);
      assert steps == init + [ws];
      StepsOfMore(init, ws, p);
      HasKeyMore(StepsOf(init, p), AnyName, ws.step, name);
      hide HasKey;
      assert StepsOf(init, p) + [] == StepsOf(init, p);
      assert StepKey(p, name) in Pairs(steps) <==>
          StepKey(p, name) in Pairs(init) || StepKey(ws.pipeline, ws.step.name) == StepKey(p, name);
    }
  }

  function KeyIn(p: PipelineRef): Step -> StepKey {
    (s: Step) => StepKey(p, s.name)
  }

  /** One pipeline's share of both counts. */
  lemma PipelineCounts(
    steps: seq<WindowStep>, active: map<StepKey, Quarantine>, p: PipelineRef, summary: seq<Step>)
    requires IsAggregate(StepsOf(steps, p), summary)
    ensures |Within(Pairs(steps), {p})| == |summary|
    ensures |Within(FlakyPairs(steps, active), {p})| == CountIf(Marked(summary, p, active), CountsAsFlaky)
  {
    PipelineNames(steps, p, summary);
    PipelineFlaky(steps, active, p, summary);
    var marked := Marked(summary, p, active);
    assert forall i :: 0 <= i < |summary| ==> StepName(marked[i]) == StepName(summary[i]);
    assert DistinctNames(marked, KeyIn(p));
    hide IsAggregate;
    hide FlakyPairs;
    FilteredCard(marked, KeyIn(p), (s: Step) => true, Within(Pairs(steps), {p}));
    AllKept(marked);
    FilteredCard(marked, KeyIn(p), CountsAsFlaky, Within(FlakyPairs(steps, active), {p}));
  }

  lemma {:induction false} AllKept<E>(d: seq<E>)
    ensures CountIf(d, (e: E) => true) == |d|
  {
    if d != [] {
      AllKept(d[..|d| - 1]);
    }
  }

  lemma PipelineNames(steps: seq<WindowStep>, p: PipelineRef, summary: seq<Step>)
    requires IsAggregate(StepsOf(steps, p), summary)
    ensures forall k :: k in Within(Pairs(steps), {p}) <==>
                        exists i :: 0 <= i < |summary| && KeyIn(p)(summary[i]) == k
  {
    forall k: StepKey
      ensures k in Within(Pairs(steps), {p}) <==> exists i :: 0 <= i < |summary| && KeyIn(p)(summary[i]) == k
    {
      PairsOf(steps, p, k.step);
      if k in Within(Pairs(steps), {p}) {
        assert k == StepKey(p, k.step);
        assert Named(summary, StepName, k.step);
        var i :| 0 <= i < |summary| && StepName(summary[i]) == k.step;
        assert KeyIn(p)(summary[i]) == k;
      }
      if i :| 0 <= i < |summary| && KeyIn(p)(summary[i]) == k {
        assert StepName(summary[i]) == k.step;
        assert Named(summary, StepName, k.step);
      }
    }
  }

  lemma PipelineFlaky(steps: seq<WindowStep>, active: map<StepKey, Quarantine>, p: PipelineRef, summary: seq<Step>)
    requires IsAggregate(StepsOf(steps, p), summary)
    ensures forall k :: k in Within(FlakyPairs(steps, active), {p}) <==>
                        exists i :: 0 <= i < |summary| &&
                          CountsAsFlaky(Mark(summary[i], p, active)) && KeyIn(p)(summary[i]) == k
  {
    PipelineNames(steps, p, summary);
    forall i | 0 <= i < |summary|
      ensures KeyIn(p)(summary[i]) in Pairs(steps)
      ensures CountsAsFlaky(Mark(summary[i], p, active)) <==> KeyIn(p)(summary[i]) in FlakyPairs(steps, active)
    {
      assert summary[i] in summary;
      assert KeyIn(p)(summary[i]) in Within(Pairs(steps), {p});
      MarkedFlaky(steps, active, p, summary[i]);
    }
    hide IsAggregate;
    hide Pairs;
    forall k | k in Within(FlakyPairs(steps, active), {p})
      ensures k in Within(Pairs(steps), {p})
    {
    }
    hide FlakyPairs;
  }

  lemma MarkedFlaky(steps: seq<WindowStep>, active: map<StepKey, Quarantine>, p: PipelineRef, s: Step)
    requires IsSummary(StepsOf(steps, p), s) && StepKey(p, s.name) in Pairs(steps)
    ensures CountsAsFlaky(Mark(s, p, active)) <==> StepKey(p, s.name) in FlakyPairs(steps, active)
  {
    SameFlakiness(steps, p, s.name);
    hide Pairs;
    hide PassedAndFailed;
    hide OccurrencesOf;
    hide StepsOf;
  }

  lemma WithinMore(keys: set<StepKey>, done: set<PipelineRef>, p: PipelineRef)
    requires p !in done
    ensures |Within(keys, done + {p})| == |Within(keys, done)| + |Within(keys, {p})|
  {
    assert Within(keys, done + {p}) == Within(keys, done) + Within(keys, {p});
    assert Within(keys, done) !! Within(keys, {p});
  }

  /** One turn of the loop over pipelines. */
  method VisitSteps(steps: seq<WindowStep>, active: map<StepKey, Quarantine>, p: PipelineRef, occs: seq<StepOccurrence>)
    returns (total: nat, flaky: nat)
    requires occs == StepsOf(steps, p)
    ensures total == |Within(Pairs(steps), {p})| && flaky == |Within(FlakyPairs(steps, active), {p})|
  {
    hide Pairs;
    hide FlakyPairs;
    hide StepsOf;
    hide Within;
    var summary := AggregateSteps(occs);
    PipelineCounts(steps, active, p, summary);
    hide IsAggregate;
    var marked := WithQuarantines(summary, p, active);
    total, flaky := CountFlaky(marked);
  }

  /** flakyStepRatio: a quarantined step still counts among the distinct ones. */
  method FlakyStepRatio(steps: seq<WindowStep>, active: map<StepKey, Quarantine>) returns (ratio: real)
    ensures ratio == Rate(|FlakyPairs(steps, active)|, |Pairs(steps)|)
  {
    var byPipeline := GroupByPipeline(steps);
    var total, flaky := 0, 0;
    var todo := byPipeline.Keys;
    ghost var done: set<PipelineRef> := {};
    hide *;
    NoneWithin(Pairs(steps));
    NoneWithin(FlakyPairs(steps, active));
    while todo != {}
      invariant forall p :: p in byPipeline <==> p in todo || p in done
      invariant forall p :: p in done ==> p !in todo
      invariant total == |Within(Pairs(steps), done)| && flaky == |Within(FlakyPairs(steps, active), done)|
    {
      var p :| p in todo;
      var n, f := VisitSteps(steps, active, p, byPipeline[p]);
      WithinMore(Pairs(steps), done, p);
      WithinMore(FlakyPairs(steps, active), done, p);
      total, flaky := total + n, flaky + f;
      todo, done := todo - {p}, done + {p};
    }
    AllWithin(steps, active, done);
    ratio := Rate(flaky, total);
  }

  lemma NoneWithin(keys: set<StepKey>)
    ensures Within(keys, {}) == {}
  {
  }

  lemma AllWithin(steps: seq<WindowStep>, active: map<StepKey, Quarantine>, done: set<PipelineRef>)
    requires forall p :: p in done <==> StepsOf(steps, p) != []
    ensures Within(Pairs(steps), done) == Pairs(steps)
    ensures Within(FlakyPairs(steps, active), done) == FlakyPairs(steps, active)
  {
    forall k | k in Pairs(steps)
      ensures k.pipeline in done
    {
      assert k == StepKey(k.pipeline, k.step);
      PairsOf(steps, k.pipeline, k.step);
    }
  }

  function Counts(e: FlakyStep): bool {
    e.quarantine.None?
  }

  /**
  The insights' ratio is the unquarantined entries of the flaky list over the distinct steps,
  though the two are computed by different code over different groupings.
  */
  lemma RatioAgrees(steps: seq<WindowStep>, active: map<StepKey, Quarantine>, d: seq<FlakyStep>)
    requires IsFlakyList(steps, active, d)
    ensures |FlakyPairs(steps, active)| == CountIf(d, Counts)
  {
    forall i, j | 0 <= i < j < |d|
      ensures KeyOf(d[i]) != KeyOf(d[j])
    {
      assert RanksBefore(d[i], d[j]) && d[i] in d && d[j] in d;
      KeyLessTotal(d[i].key, d[j].key);
    }
    forall k: StepKey
      ensures k in FlakyPairs(steps, active) <==> exists i :: 0 <= i < |d| && Counts(d[i]) && KeyOf(d[i]) == k
    {
      KeyListed(steps, active, d, k);
    }
    hide FlakyPairs;
    hide IsFlakyList;
    FilteredCard(d, KeyOf, Counts, FlakyPairs(steps, active));
  }

  lemma KeyListed(steps: seq<WindowStep>, active: map<StepKey, Quarantine>, d: seq<FlakyStep>, k: StepKey)
    requires IsFlakyList(steps, active, d)
    ensures k in FlakyPairs(steps, active) <==> exists i :: 0 <= i < |d| && Counts(d[i]) && KeyOf(d[i]) == k
  {
    hide RanksBefore;
    hide IsEntry;
    PairOfOccurrence(steps, k);
    hide OccurrencesOf;
    if k in FlakyPairs(steps, active) {
      assert Named(d, KeyOf, k);
      var i :| 0 <= i < |d| && KeyOf(d[i]) == k;
      assert d[i] in d;
      assert Counts(d[i]);
    }
    if i :| 0 <= i < |d| && Counts(d[i]) && KeyOf(d[i]) == k {
      assert Named(d, KeyOf, k) && d[i] in d;
    }
  }

  lemma {:induction false} PairOfOccurrence(steps: seq<WindowStep>, k: StepKey)
    ensures PassedAndFailed(OccurrencesOf(steps, k)) ==> k in Pairs(steps)
    ensures OccurrencesOf(steps, k) != [] ==> k in Pairs(steps)
  {
    if steps != [] {
      PairOfOccurrence(steps[..|steps| - 1], k);
      assert steps == steps[..|steps| - 1] + [steps[|steps| - 1]];
    }
  }
}
