/** The failure overview of a window: all the views of it at once, next to the window before. */
module FailureInsights {
  import opened Common
  import opened Ordering
  import opened Sums
  import opened Tally
  import opened MetricTypes
  import opened Insights
  import opened InsightViews
  import opened StepMetrics
  import Recovery
  import FlakyRatio

  datatype Overview = Overview(
    totalRuns: nat, failedRuns: int, passRate: Option<real>, passRateDelta: Option<real>, mttr: Option<int>,
    topFailing: seq<FailingPipeline>, flakyStepRatio: real, stages: seq<StageCount>,
    categories: seq<CategoryCount>, groups: seq<Group>)

  /** The dated runs on one side of the boundary; a run that never started is on neither. */
  predicate InCurrent(wr: WindowRun, boundary: int) {
    wr.run.startedAt.Some? && wr.run.startedAt.value >= boundary
  }

  predicate InPrior(wr: WindowRun, boundary: int) {
    wr.run.startedAt.Some? && wr.run.startedAt.value < boundary
  }

  function Current(runs: seq<WindowRun>, boundary: int): seq<WindowRun> {
    Filter(runs, (wr: WindowRun) => InCurrent(wr, boundary))
  }

  function Prior(runs: seq<WindowRun>, boundary: int): seq<WindowRun> {
    Filter(runs, (wr: WindowRun) => InPrior(wr, boundary))
  }

  /** Successes over concluded runs; nothing when none concluded. */
  ghost predicate IsPassRate(runs: seq<WindowRun>, rate: Option<real>) {
    var passed, failed := SumAll(runs, PassedOwner, UnitRun), SumAll(runs, FailedOwner, UnitRun);
    && (rate.None? <==> passed + failed == 0)
    && (rate.Some? ==> 0.0 <= rate.value <= 1.0 && rate.value * (passed + failed) as real == passed as real)
  }

  ghost predicate IsDelta(current: Option<real>, prior: Option<real>, delta: Option<real>) {
    delta == if current.Some? && prior.Some? then Some((current.value - prior.value) * 100.0) else None
  }

  ghost predicate RunFigures(current: seq<WindowRun>, prior: seq<WindowRun>, o: Overview) {
    && o.totalRuns == |current|
    && o.failedRuns == SumAll(current, FailedOwner, UnitRun)
    && IsPassRate(current, o.passRate)
    && (exists before :: IsPassRate(prior, before) && IsDelta(o.passRate, before, o.passRateDelta))
    && Recovery.IsMttr(current, o.mttr)
    && IsTopFailing(current, o.topFailing)
  }

  ghost predicate StepFigures(
    steps: seq<WindowStep>, active: map<StepKey, Quarantine>, categorize: (string, string) -> string, o: Overview)
  {
    && o.flakyStepRatio == Rate(|FlakyRatio.FlakyPairs(steps, active)|, |FlakyRatio.Pairs(steps)|)
    && IsDistribution(steps, o.stages)
    && AreGroups(steps, categorize, o.groups)
    && IsBreakdown(o.groups, o.categories)
  }

  /** The current window is the runs that started at the boundary or after it, the prior one those before. */
  lemma WindowsAre(runs: seq<WindowRun>, boundary: int)
    ensures exists at ::
              && StandsAt(Current(runs, boundary), runs, at)
              && forall i :: i in at <==>
                   0 <= i < |runs| && runs[i].run.startedAt.Some? && runs[i].run.startedAt.value >= boundary
    ensures exists at ::
              && StandsAt(Prior(runs, boundary), runs, at)
              && forall i :: i in at <==>
                   0 <= i < |runs| && runs[i].run.startedAt.Some? && runs[i].run.startedAt.value < boundary
    ensures forall wr :: multiset(Current(runs, boundary))[wr] ==
              if wr.run.startedAt.Some? && wr.run.startedAt.value >= boundary then multiset(runs)[wr] else 0
    ensures forall wr :: multiset(Prior(runs, boundary))[wr] ==
              if wr.run.startedAt.Some? && wr.run.startedAt.value < boundary then multiset(runs)[wr] else 0
  {
    var current := FilterKeeps(runs, (wr: WindowRun) => InCurrent(wr, boundary));
    var prior := FilterKeeps(runs, (wr: WindowRun) => InPrior(wr, boundary));
    FilterBag(runs, (wr: WindowRun) => InCurrent(wr, boundary));
    FilterBag(runs, (wr: WindowRun) => InPrior(wr, boundary));
    hide Filter;
    hide StandsAt;
    assert StandsAt(Current(runs, boundary), runs, current) && StandsAt(Prior(runs, boundary), runs, prior);
  }

  method SplitRuns(runs: seq<WindowRun>, boundary: int) returns (current: seq<WindowRun>, prior: seq<WindowRun>)
    ensures current == Current(runs, boundary) && prior == Prior(runs, boundary)
    ensures forall wr :: multiset(current)[wr] ==
              if wr.run.startedAt.Some? && wr.run.startedAt.value >= boundary then multiset(runs)[wr] else 0
    ensures forall wr :: multiset(prior)[wr] ==
              if wr.run.startedAt.Some? && wr.run.startedAt.value < boundary then multiset(runs)[wr] else 0
  {
    current, prior := [], [];
    NoRuns(boundary);
    hide Current;
    hide Prior;
    var i := 0;
    while i < |runs|
      invariant 0 <= i <= |runs|
      invariant current == Current(runs[..i], boundary) && prior == Prior(runs[..i], boundary)
    {
      var wr := runs[i];
      OneMoreRun(runs, boundary, i);
      if wr.run.startedAt.Some? {
        if wr.run.startedAt.value < boundary {
          prior := prior + [wr];
        } else {
          current := current + [wr];
        }
      }
      i := i + 1;
    }
    assert runs[..i] == runs;
    WindowsAre(runs, boundary);
    hide *;
  }

  lemma NoRuns(boundary: int)
    ensures Current([], boundary) == [] && Prior([], boundary) == []
  {
  }

  lemma OneMoreRun(runs: seq<WindowRun>, boundary: int, i: nat)
    requires i < |runs|
    ensures Current(runs[..i + 1], boundary) ==
            Current(runs[..i], boundary) + if InCurrent(runs[i], boundary) then [runs[i]] else []
    ensures Prior(runs[..i + 1], boundary) ==
            Prior(runs[..i], boundary) + if InPrior(runs[i], boundary) then [runs[i]] else []
  {
    FilterMore(runs[..i], (r: WindowRun) => InCurrent(r, boundary), runs[i]);
    FilterMore(runs[..i], (r: WindowRun) => InPrior(r, boundary), runs[i]);
    assert runs[..i + 1] == runs[..i] + [runs[i]];
  }

  method RunOverview(current: seq<WindowRun>, prior: seq<WindowRun>) returns (o: Overview)
    ensures RunFigures(current, prior, o)
  {
    hide SumAll;
    hide IsTopFailing;
    hide Recovery.IsMttr;
    hide Recovery.AllInFinishingOrder;
    hide Recovery.IsMeanOutage;
    var rate, failed := PassRate(current);
    var before, _ := PassRate(prior);
    assert IsPassRate(prior, before);
    var delta := if rate.Some? && before.Some? then Some((rate.value - before.value) * 100.0) else None;
    assert IsDelta(rate, before, delta);
    hide IsPassRate;
    hide IsDelta;
    var mttr := Recovery.MeanTimeToRecovery(current);
    var top := TopFailingPipelines(current);
    o := Overview(|current|, failed, rate, delta, mttr, top, 0.0, [], [], []);
  }

  lemma RunsCounted(
    runs: seq<WindowRun>, keep: WindowRun -> bool, passing: WindowRun -> bool, failing: WindowRun -> bool)
    requires forall wr :: wr in runs ==>
        && (passing(wr) <==> keep(wr) && wr.run.conclusion == "success")
        && (failing(wr) <==> keep(wr) && wr.run.conclusion in ["failure", "timed_out"])
    ensures |Filter(runs, keep)| == Count(runs, keep)
    ensures SumAll(Filter(runs, keep), PassedOwner, UnitRun) == Count(runs, passing)
    ensures SumAll(Filter(runs, keep), FailedOwner, UnitRun) == Count(runs, failing)
  {
    var kept := Filter(runs, keep);
    SumAllIsCount(kept, PassedOwner, UnitRun, (wr: WindowRun) => wr.run.conclusion == "success");
    SumAllIsCount(kept, FailedOwner, UnitRun, (wr: WindowRun) => wr.run.conclusion in ["failure", "timed_out"]);
    hide SumAll;
    CountKept(runs, keep, (wr: WindowRun) => wr.run.conclusion == "success", passing);
    CountKept(runs, keep, (wr: WindowRun) => wr.run.conclusion in ["failure", "timed_out"], failing);
  }

  lemma CurrentCounted(runs: seq<WindowRun>, boundary: int)
    ensures |Current(runs, boundary)| ==
            Count(runs, (wr: WindowRun) => wr.run.startedAt.Some? && wr.run.startedAt.value >= boundary)
    ensures SumAll(Current(runs, boundary), PassedOwner, UnitRun) ==
            Count(runs, (wr: WindowRun) => wr.run.startedAt.Some? && wr.run.startedAt.value >= boundary
                                           && wr.run.conclusion == "success")
    ensures SumAll(Current(runs, boundary), FailedOwner, UnitRun) ==
            Count(runs, (wr: WindowRun) => wr.run.startedAt.Some? && wr.run.startedAt.value >= boundary
                                           && wr.run.conclusion in ["failure", "timed_out"])
  {
    RunsCounted(runs, (wr: WindowRun) => InCurrent(wr, boundary),
                (wr: WindowRun) => wr.run.startedAt.Some? && wr.run.startedAt.value >= boundary
                                   && wr.run.conclusion == "success",
                (wr: WindowRun) => wr.run.startedAt.Some? && wr.run.startedAt.value >= boundary
                                   && wr.run.conclusion in ["failure", "timed_out"]);
    CountSome(runs, (wr: WindowRun) => InCurrent(wr, boundary),
              (wr: WindowRun) => wr.run.startedAt.Some? && wr.run.startedAt.value >= boundary);
    CountSome(runs, (wr: WindowRun) => wr.run.startedAt.Some? && wr.run.startedAt.value >= boundary,
              (wr: WindowRun) => InCurrent(wr, boundary));
    hide Count;
    hide SumAll;
  }

  lemma PriorCounted(runs: seq<WindowRun>, boundary: int)
    ensures SumAll(Prior(runs, boundary), PassedOwner, UnitRun) ==
            Count(runs, (wr: WindowRun) => wr.run.startedAt.Some? && wr.run.startedAt.value < boundary
                                           && wr.run.conclusion == "success")
    ensures SumAll(Prior(runs, boundary), FailedOwner, UnitRun) ==
            Count(runs, (wr: WindowRun) => wr.run.startedAt.Some? && wr.run.startedAt.value < boundary
                                           && wr.run.conclusion in ["failure", "timed_out"])
  {
    RunsCounted(runs, (wr: WindowRun) => InPrior(wr, boundary),
                (wr: WindowRun) => wr.run.startedAt.Some? && wr.run.startedAt.value < boundary
                                   && wr.run.conclusion == "success",
                (wr: WindowRun) => wr.run.startedAt.Some? && wr.run.startedAt.value < boundary
                                   && wr.run.conclusion in ["failure", "timed_out"]);
    hide Count;
    hide SumAll;
  }

  /** How a rate stands to the runs it was taken over. */
  ghost predicate RateOf(rate: Option<real>, passed: nat, failed: nat) {
    && (rate.None? <==> passed == 0 && failed == 0)
    && (rate.Some? ==> rate.value * (passed + failed) as real == passed as real)
  }

  /**
  The overview's run figures, in the runs it was given: those that started at the boundary or after it
  are counted, the ones before only enter the change of the pass rate, in percentage points.
  */
  lemma OverviewReads(runs: seq<WindowRun>, boundary: int, o: Overview) returns (before: Option<real>)
    requires RunFigures(Current(runs, boundary), Prior(runs, boundary), o)
    ensures o.totalRuns ==
            Count(runs, (wr: WindowRun) => wr.run.startedAt.Some? && wr.run.startedAt.value >= boundary)
    ensures o.failedRuns ==
            Count(runs, (wr: WindowRun) => wr.run.startedAt.Some? && wr.run.startedAt.value >= boundary
                                           && wr.run.conclusion in ["failure", "timed_out"])
    ensures RateOf(o.passRate,
                   Count(runs, (wr: WindowRun) => wr.run.startedAt.Some? && wr.run.startedAt.value >= boundary
                                                  && wr.run.conclusion == "success"), o.failedRuns)
    ensures RateOf(before,
                   Count(runs, (wr: WindowRun) => wr.run.startedAt.Some? && wr.run.startedAt.value < boundary
                                                  && wr.run.conclusion == "success"),
                   Count(runs, (wr: WindowRun) => wr.run.startedAt.Some? && wr.run.startedAt.value < boundary
                                                  && wr.run.conclusion in ["failure", "timed_out"]))
    ensures o.passRateDelta ==
            if o.passRate.None? || before.None? then None else Some((o.passRate.value - before.value) * 100.0)
  {
    CurrentCounted(runs, boundary);
    PriorCounted(runs, boundary);
    hide Current;
    hide Prior;
    hide Count;
    hide SumAll;
    hide Recovery.IsMttr;
    hide IsTopFailing;
    before :| IsPassRate(Prior(runs, boundary), before) && IsDelta(o.passRate, before, o.passRateDelta);
  }

  method GetFailureInsights(
    runs: seq<WindowRun>, steps: seq<WindowStep>, active: map<StepKey, Quarantine>,
    categorize: (string, string) -> string, now: int, duration: int) returns (o: Overview)
    ensures RunFigures(Current(runs, now - duration), Prior(runs, now - duration), o)
    ensures StepFigures(steps, active, categorize, o)
    ensures o.totalRuns ==
            Count(runs, (wr: WindowRun) => wr.run.startedAt.Some? && wr.run.startedAt.value >= now - duration)
    ensures o.failedRuns ==
            Count(runs, (wr: WindowRun) => wr.run.startedAt.Some? && wr.run.startedAt.value >= now - duration
                                           && wr.run.conclusion in ["failure", "timed_out"])
  {
    hide *;
    var current, prior := SplitRuns(runs, now - duration);
    var half := RunOverview(current, prior);
    var ratio := FlakyRatio.FlakyStepRatio(steps, active);
    var stages := StageDistribution(steps);
    var categories := CategoryBreakdown(steps, categorize);
    var groups := FailureGroups(steps, categorize);
    BreakdownOfGroups(steps, categorize, groups, categories);
    o := half.(flakyStepRatio := ratio, stages := stages, categories := categories, groups := groups);
    RunFiguresOnly(current, prior, half, o);
    Together(steps, active, categorize, o);
    ghost var before := OverviewReads(runs, now - duration, o);
  }

  lemma BreakdownOfGroups(
    steps: seq<WindowStep>, categorize: (string, string) -> string, groups: seq<Group>, categories: seq<CategoryCount>)
    requires AreGroups(steps, categorize, groups) && BreaksDown(steps, categorize, categories)
    ensures IsBreakdown(groups, categories)
  {
    hide AreGroups;
    hide IsBreakdown;
    var counted :| AreGroups(steps, categorize, counted) && IsBreakdown(counted, categories);
    GroupsUnique(steps, categorize, counted, groups);
  }

  lemma RunFiguresOnly(current: seq<WindowRun>, prior: seq<WindowRun>, half: Overview, o: Overview)
    requires RunFigures(current, prior, half)
    requires o == half.(
               flakyStepRatio := o.flakyStepRatio, stages := o.stages, categories := o.categories, groups := o.groups)
    ensures RunFigures(current, prior, o)
  {
    hide IsPassRate;
    hide IsDelta;
    hide Recovery.IsMttr;
    hide IsTopFailing;
    hide SumAll;
  }

  lemma Together(
    steps: seq<WindowStep>, active: map<StepKey, Quarantine>, categorize: (string, string) -> string, o: Overview)
    requires o.flakyStepRatio == Rate(|FlakyRatio.FlakyPairs(steps, active)|, |FlakyRatio.Pairs(steps)|)
    requires IsDistribution(steps, o.stages) && AreGroups(steps, categorize, o.groups)
        && IsBreakdown(o.groups, o.categories)
    ensures StepFigures(steps, active, categorize, o)
  {
  }

  /** The two windows hold every dated run exactly once and no other. */
  lemma {:induction false} WindowsPartition(runs: seq<WindowRun>, boundary: int)
    ensures multiset(Current(runs, boundary)) + multiset(Prior(runs, boundary)) ==
            multiset(Filter(runs, (wr: WindowRun) => wr.run.startedAt.Some?))
  {
    if runs != [] {
      var init, last := runs[..|runs| - 1], runs[|runs| - 1];
      WindowsPartition(init, boundary);
      assert runs == init + [last];
      FilterMore(init, (wr: WindowRun) => InCurrent(wr, boundary), last);
      FilterMore(init, (wr: WindowRun) => InPrior(wr, boundary), last);
      FilterMore(init, (wr: WindowRun) => wr.run.startedAt.Some?, last);
      hide Filter;
    }
  }

  /**
  The overview's views agree: its failed runs are those of the failing pipelines, its failed steps
  those of the distribution, of the groups and of the categories, step by step where the same steps
  are listed, and its shares leave nothing out.
  */
  lemma ViewsAgreeThroughout(
    current: seq<WindowRun>, prior: seq<WindowRun>, steps: seq<WindowStep>, active: map<StepKey, Quarantine>,
    categorize: (string, string) -> string, o: Overview)
    requires RunFigures(current, prior, o) && StepFigures(steps, active, categorize, o)
    ensures o.failedRuns == SumOver(o.topFailing, FailingWeight)
    ensures |o.stages| == |o.groups|
    ensures forall i :: 0 <= i < |o.stages| ==>
              o.stages[i].step == o.groups[i].step && o.stages[i].failures == o.groups[i].occurrences
    ensures SumOver(o.stages, StageWeight) == SumOver(o.groups, GroupWeight) == SumOver(o.categories, CategoryWeight)
    ensures o.stages != [] ==> SumReals(o.stages, StageShare) == 1.0 && SumReals(o.categories, CategoryShare) == 1.0
    ensures o.stages == [] <==> o.categories == []
  {
    hide IsPassRate;
    hide Recovery.IsMttr;
    hide IsDelta;
    hide IsTopFailing;
    hide IsDistribution;
    hide AreGroups;
    hide IsBreakdown;
    hide SumAll;
    hide SumOver;
    hide SumReals;
    FailedRunsTotal(current, o.topFailing);
    ViewsAgree(steps, categorize, o.stages, o.groups);
    StageTotal(steps, o.stages);
    GroupTotal(steps, categorize, o.groups);
    CategoryTotal(steps, categorize, o.groups, o.categories);
    SharesSumToOne(steps, categorize, o.stages, o.groups, o.categories);
  }

  lemma OneRate(a: real, b: real, n: int, passed: int)
    requires n != 0 && a * n as real == passed as real && b * n as real == passed as real
    ensures a == b
  {
    var d := n as real;
    assert a == a * d / d;
    assert b == b * d / d;
  }

  lemma PassRateUnique(runs: seq<WindowRun>, a: Option<real>, b: Option<real>)
    requires IsPassRate(runs, a) && IsPassRate(runs, b)
    ensures a == b
  {
    var passed, failed := SumAll(runs, PassedOwner, UnitRun), SumAll(runs, FailedOwner, UnitRun);
    hide SumAll;
    if a.Some? && b.Some? {
      OneRate(a.value, b.value, passed + failed, passed);
    }
  }

  lemma MttrUnique(runs: seq<WindowRun>, a: Option<int>, b: Option<int>)
    requires Recovery.NoClash(runs) && Recovery.IsMttr(runs, a) && Recovery.IsMttr(runs, b)
    ensures a == b
  {
    hide Recovery.Ordered;
    hide Recovery.IsMeanOf;
    hide Recovery.NoClash;
    var sa :| Recovery.Ordered(runs, sa) && Recovery.IsMeanOf(sa, a);
    var sb :| Recovery.Ordered(runs, sb) && Recovery.IsMeanOf(sb, b);
    Recovery.MeanIsWellDefined(runs, runs, sa, sb, a, b);
  }

  lemma RunFiguresUnique(current: seq<WindowRun>, prior: seq<WindowRun>, a: Overview, b: Overview)
    requires Recovery.NoClash(current) && RunFigures(current, prior, a) && RunFigures(current, prior, b)
    ensures a.totalRuns == b.totalRuns && a.failedRuns == b.failedRuns && a.passRate == b.passRate
    ensures a.passRateDelta == b.passRateDelta && a.mttr == b.mttr && a.topFailing == b.topFailing
  {
    hide SumAll;
    hide IsPassRate;
    hide Recovery.IsMttr;
    hide IsTopFailing;
    hide Recovery.NoClash;
    PassRateUnique(current, a.passRate, b.passRate);
    var pa :| IsPassRate(prior, pa) && IsDelta(a.passRate, pa, a.passRateDelta);
    var pb :| IsPassRate(prior, pb) && IsDelta(b.passRate, pb, b.passRateDelta);
    PassRateUnique(prior, pa, pb);
    MttrUnique(current, a.mttr, b.mttr);
    TopFailingUnique(current, a.topFailing, b.topFailing);
  }

  /**
  The whole overview is a function of the window: whatever order the maps inside are read in and
  however the sorts break ties, every field comes out the same, so long as no pipeline has opposite
  results at one finish time.
  */
  lemma OverviewUnique(
    current: seq<WindowRun>, prior: seq<WindowRun>, steps: seq<WindowStep>, active: map<StepKey, Quarantine>,
    categorize: (string, string) -> string, a: Overview, b: Overview)
    requires Recovery.NoClash(current)
    requires RunFigures(current, prior, a) && StepFigures(steps, active, categorize, a)
    requires RunFigures(current, prior, b) && StepFigures(steps, active, categorize, b)
    ensures a == b
  {
    RunFiguresUnique(current, prior, a, b);
    hide RunFigures;
    hide Recovery.NoClash;
    hide IsDistribution;
    hide AreGroups;
    hide IsBreakdown;
    DistributionUnique(steps, a.stages, b.stages);
    GroupsUnique(steps, categorize, a.groups, b.groups);
    BreakdownUnique(steps, categorize, a.groups, a.categories, b.groups, b.categories);
  }
}
