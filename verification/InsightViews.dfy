/** The views built on the failure groups and on the runs, and how all the views agree. */
module InsightViews {
  import opened Common
  import opened Ordering
  import opened Sums
  import opened Tally
  import opened MetricTypes
  import opened Insights

  function CategoryOf(g: Group): Option<string> { Some(g.category) }

  function CategoryName(e: CategoryCount): string { e.category }

  function CategoryWeight(e: CategoryCount): int { e.occurrences }

  function CategoryShare(e: CategoryCount): real { e.share }

  ghost predicate IsBreakdown(groups: seq<Group>, d: seq<CategoryCount>) {
    && Ranked(d, CategoryName, CategoryWeight, Less)
    && (forall k :: HasKey(groups, CategoryOf, k) <==> Named(d, CategoryName, k))
    && (forall e :: e in d ==>
          && e.occurrences == Sum(groups, CategoryOf, GroupWeight, e.category)
          && e.share == Rate(e.occurrences, SumOver(groups, GroupWeight)))
  }

  /** The breakdown of the window's failure groups, of which there is only one list. */
  ghost predicate BreaksDown(steps: seq<WindowStep>, categorize: (string, string) -> string, d: seq<CategoryCount>) {
    exists groups :: AreGroups(steps, categorize, groups) && IsBreakdown(groups, d)
  }

  method CategoryBreakdown(steps: seq<WindowStep>, categorize: (string, string) -> string)
    returns (breakdown: seq<CategoryCount>)
    ensures BreaksDown(steps, categorize, breakdown)
  {
    var list := FailureGroups(steps, categorize);
    hide AreGroups;
    var counts, total := CountCategories(list);
    hide Sum;
    hide SumOver;
    hide HasKey;
    hide Rate;
    var unsorted := ListCategories(counts, total);
    LessIsStrictTotal();
    hide Less;
    ByRankIsTotal(CategoryName, CategoryWeight, Less);
    breakdown := Sort(ByRank(CategoryName, CategoryWeight, Less), unsorted);
    SortRanks(unsorted, breakdown, CategoryName, CategoryWeight, Less);
    assert IsBreakdown(list, breakdown);
  }

  lemma NoGroups()
    ensures Tallies([], CategoryOf, GroupWeight, map[]) && SumOver([], GroupWeight) == 0
  {
  }

  lemma OneMoreGroup(groups: seq<Group>, i: nat, counts: map<string, int>)
    requires i < |groups| && Tallies(groups[..i], CategoryOf, GroupWeight, counts)
    ensures var category := groups[i].category;
            Tallies(groups[..i + 1], CategoryOf, GroupWeight,
                    counts[category := (if category in counts then counts[category] else 0) + groups[i].occurrences])
    ensures SumOver(groups[..i + 1], GroupWeight) == SumOver(groups[..i], GroupWeight) + groups[i].occurrences
  {
    TallyMore(groups[..i], CategoryOf, GroupWeight, counts, groups[i]);
    assert groups[..i + 1] == groups[..i] + [groups[i]];
    assert groups[..i + 1][..i] == groups[..i];
    hide Tallies;
  }

  method CountCategories(groups: seq<Group>) returns (counts: map<string, int>, total: int)
    ensures Tallies(groups, CategoryOf, GroupWeight, counts) && total == SumOver(groups, GroupWeight)
  {
    hide Tallies;
    hide SumOver;
    NoGroups();
    counts, total := map[], 0;
    var i := 0;
    while i < |groups|
      invariant 0 <= i <= |groups|
      invariant Tallies(groups[..i], CategoryOf, GroupWeight, counts)
      invariant total == SumOver(groups[..i], GroupWeight)
    {
      OneMoreGroup(groups, i, counts);
      var category := groups[i].category;
      counts := counts[category := (if category in counts then counts[category] else 0) + groups[i].occurrences];
      total := total + groups[i].occurrences;
      i := i + 1;
    }
    assert groups[..i] == groups;
  }

  method ListCategories(counts: map<string, int>, total: int) returns (list: seq<CategoryCount>)
    ensures DistinctNames(list, CategoryName)
    ensures forall k :: Named(list, CategoryName, k) <==> k in counts
    ensures forall e :: e in list ==>
      e.category in counts && e.occurrences == counts[e.category] && e.share == Rate(e.occurrences, total)
  {
    list := [];
    var todo := counts.Keys;
    while todo != {}
      invariant todo <= counts.Keys
      invariant DistinctNames(list, CategoryName)
      invariant forall k :: Named(list, CategoryName, k) <==> k in counts && k !in todo
      invariant forall e :: e in list ==>
        e.category in counts && e.occurrences == counts[e.category] && e.share == Rate(e.occurrences, total)
    {
      var category :| category in todo;
      var entry := CategoryCount(category, counts[category], Rate(counts[category], total));
      DistinctMore(list, CategoryName, entry);
      forall k {
        NamedMore(list, CategoryName, entry, k);
      }
      list := list + [entry];
      todo := todo - {category};
    }
  }

  function FailingName(e: FailingPipeline): PipelineRef { e.pipeline }

  function FailingWeight(e: FailingPipeline): int { e.failedRuns }

  ghost predicate IsTopFailing(runs: seq<WindowRun>, d: seq<FailingPipeline>) {
    && Ranked(d, FailingName, FailingWeight, RefLess)
    && (forall p :: HasKey(runs, FailedOwner, p) <==> Named(d, FailingName, p))
    && (forall e :: e in d ==>
          && e.runs == Sum(runs, RunOwner, UnitRun, e.pipeline)
          && e.failedRuns == Sum(runs, FailedOwner, UnitRun, e.pipeline))
  }

  /** The running counts of topFailingPipelines. */
  ghost predicate CountsRuns(runs: seq<WindowRun>, m: map<PipelineRef, FailingPipeline>) {
    && (forall p :: p in m <==> HasKey(runs, RunOwner, p))
    && (forall p :: p in m ==>
          m[p] == FailingPipeline(p, Sum(runs, RunOwner, UnitRun, p), Sum(runs, FailedOwner, UnitRun, p)))
  }

  lemma CountMoreRuns(runs: seq<WindowRun>, m: map<PipelineRef, FailingPipeline>, wr: WindowRun)
    requires CountsRuns(runs, m)
    ensures var fp := if wr.pipeline in m then m[wr.pipeline] else FailingPipeline(wr.pipeline, 0, 0);
            CountsRuns(runs + [wr], m[wr.pipeline :=
              FailingPipeline(wr.pipeline, fp.runs + 1, fp.failedRuns + if IsFailed(wr.run.conclusion) then 1 else 0)])
  {
    assert (runs + [wr])[..|runs|] == runs;
    forall p
      ensures HasKey(runs + [wr], RunOwner, p) <==> HasKey(runs, RunOwner, p) || wr.pipeline == p
      ensures p !in m ==> Sum(runs, RunOwner, UnitRun, p) == 0 && Sum(runs, FailedOwner, UnitRun, p) == 0
    {
      HasKeyMore(runs, RunOwner, wr, p);
      if p !in m {
        NoKeyNoSum(runs, RunOwner, UnitRun, p);
        assert forall i :: 0 <= i < |runs| ==> RunOwner(runs[i]) != Some(p);
        NoKeyNoSum(runs, FailedOwner, UnitRun, p);
      }
    }
  }

  method TopFailingPipelines(runs: seq<WindowRun>) returns (failing: seq<FailingPipeline>)
    ensures IsTopFailing(runs, failing)
  {
    var byPipeline: map<PipelineRef, FailingPipeline> := map[];
    var i := 0;
    while i < |runs|
      invariant 0 <= i <= |runs|
      invariant CountsRuns(runs[..i], byPipeline)
    {
      var wr := runs[i];
      CountMoreRuns(runs[..i], byPipeline, wr);
      assert runs[..i + 1] == runs[..i] + [wr];
      var fp := if wr.pipeline in byPipeline then byPipeline[wr.pipeline] else FailingPipeline(wr.pipeline, 0, 0);
      byPipeline := byPipeline[wr.pipeline :=
        FailingPipeline(wr.pipeline, fp.runs + 1, fp.failedRuns + if IsFailed(wr.run.conclusion) then 1 else 0)];
      i := i + 1;
    }
    assert runs[..i] == runs;
    var unsorted := ListFailing(runs, byPipeline);
    RefLessIsStrictTotal();
    hide RefLess;
    hide HasKey;
    hide Sum;
    ByRankIsTotal(FailingName, FailingWeight, RefLess);
    failing := Sort(ByRank(FailingName, FailingWeight, RefLess), unsorted);
    SortRanks(unsorted, failing, FailingName, FailingWeight, RefLess);
  }

  /** The pipelines with a failed run, in no particular order. */
  method ListFailing(ghost runs: seq<WindowRun>, counted: map<PipelineRef, FailingPipeline>)
    returns (list: seq<FailingPipeline>)
    requires CountsRuns(runs, counted)
    ensures DistinctNames(list, FailingName)
    ensures forall p :: Named(list, FailingName, p) <==> HasKey(runs, FailedOwner, p)
    ensures forall e :: e in list ==> e.pipeline in counted && e == counted[e.pipeline]
  {
    list := [];
    var todo := counted.Keys;
    forall p
      ensures p in counted && counted[p].failedRuns > 0 <==> HasKey(runs, FailedOwner, p)
    {
      UnitSum(runs, FailedOwner, UnitRun, p);
      if HasKey(runs, FailedOwner, p) {
        var i :| 0 <= i < |runs| && FailedOwner(runs[i]) == Some(p);
        assert RunOwner(runs[i]) == Some(p);
      }
    }
    hide HasKey;
    hide Sum;
    while todo != {}
      invariant todo <= counted.Keys
      invariant DistinctNames(list, FailingName)
      invariant forall p :: Named(list, FailingName, p) <==> p in counted && p !in todo && counted[p].failedRuns > 0
      invariant forall e :: e in list ==> e.pipeline in counted && e == counted[e.pipeline]
    {
      var p :| p in todo;
      var entry := counted[p];
      if entry.failedRuns > 0 {
        DistinctMore(list, FailingName, entry);
        forall k {
          NamedMore(list, FailingName, entry, k);
        }
        list := list + [entry];
      }
      todo := todo - {p};
    }
  }

  function PassedOwner(wr: WindowRun): Option<PipelineRef> {
    if wr.run.conclusion == "success" then Some(wr.pipeline) else None
  }

  /** The pass rate over concluded runs, undefined when none concluded, and the failed count. */
  method PassRate(runs: seq<WindowRun>) returns (rate: Option<real>, failed: int)
    ensures failed == SumAll(runs, FailedOwner, UnitRun)
    ensures rate.None? <==> SumAll(runs, PassedOwner, UnitRun) + failed == 0
    ensures rate.Some? ==>
      var passed := SumAll(runs, PassedOwner, UnitRun);
      0.0 <= rate.value <= 1.0 && rate.value * (passed + failed) as real == passed as real
  {
    var passed, concluded := 0, 0;
    failed := 0;
    var i := 0;
    while i < |runs|
      invariant 0 <= i <= |runs|
      invariant passed == SumAll(runs[..i], PassedOwner, UnitRun) && failed == SumAll(runs[..i], FailedOwner, UnitRun)
      invariant concluded == passed + failed && passed >= 0 && failed >= 0
    {
      assert runs[..i + 1][..i] == runs[..i];
      if runs[i].run.conclusion == "success" {
        passed, concluded := passed + 1, concluded + 1;
      } else if IsFailed(runs[i].run.conclusion) {
        failed, concluded := failed + 1, concluded + 1;
      }
      i := i + 1;
    }
    assert runs[..i] == runs;
    if concluded == 0 {
      return None, failed;
    }
    RateMeans(passed, concluded);
    rate := Some(passed as real / concluded as real);
  }

  lemma RateMeans(passed: int, concluded: int)
    requires 0 <= passed <= concluded && concluded > 0
    ensures var r := passed as real / concluded as real; 0.0 <= r <= 1.0 && r * concluded as real == passed as real
  {
    var p, c := passed as real, concluded as real;
    assert p / c * c == p;
    assert p / c <= 1.0;
  }

  /** The distribution is the same whatever order its map was read in. */
  lemma DistributionUnique(steps: seq<WindowStep>, a: seq<StageCount>, b: seq<StageCount>)
    requires IsDistribution(steps, a) && IsDistribution(steps, b)
    ensures a == b
  {
    LessIsStrictTotal();
    forall e: StageCount
      ensures e in a <==> e in b
    {
      if e in a {
        InBoth(steps, a, b, e);
      }
      if e in b {
        InBoth(steps, b, a, e);
      }
    }
    hide Less;
    hide HasKey;
    hide Sum;
    hide SumAll;
    RankedUnique(a, b, StageName, StageWeight, Less);
  }

  lemma InBoth(steps: seq<WindowStep>, a: seq<StageCount>, b: seq<StageCount>, e: StageCount)
    requires IsDistribution(steps, a) && IsDistribution(steps, b) && e in a
    ensures e in b
  {
    var i :| 0 <= i < |a| && a[i] == e;
    assert Named(a, StageName, e.step);
    var j :| 0 <= j < |b| && StageName(b[j]) == e.step;
    assert b[j] in b;
  }

  lemma SameGroup(steps: seq<WindowStep>, categorize: (string, string) -> string, g: Group, h: Group)
    requires IsGroup(steps, categorize, g) && IsGroup(steps, categorize, h) && g.step == h.step
    ensures g == h
  {
    MostCommonUnique(TallyOf(steps, ConclusionOf(g.step), UnitStep), g.conclusion, h.conclusion);
    RefLessIsStrictTotal();
    hide RefLess;
    hide IsMostCommon;
    StrictlySortedUnique(RefLess, g.pipelines, h.pipelines);
  }

  lemma GroupInBoth(
    steps: seq<WindowStep>, categorize: (string, string) -> string, a: seq<Group>, b: seq<Group>, g: Group)
    requires AreGroups(steps, categorize, a) && AreGroups(steps, categorize, b) && g in a
    ensures g in b
  {
    var i :| 0 <= i < |a| && a[i] == g;
    assert Named(a, GroupName, g.step);
    var j :| 0 <= j < |b| && GroupName(b[j]) == g.step;
    assert b[j] in b;
    SameGroup(steps, categorize, g, b[j]);
  }

  /** So are the failure groups, down to each group's conclusion and pipelines. */
  lemma GroupsUnique(steps: seq<WindowStep>, categorize: (string, string) -> string, a: seq<Group>, b: seq<Group>)
    requires AreGroups(steps, categorize, a) && AreGroups(steps, categorize, b)
    ensures a == b
  {
    LessIsStrictTotal();
    forall g: Group
      ensures g in a <==> g in b
    {
      if g in a {
        GroupInBoth(steps, categorize, a, b, g);
      }
      if g in b {
        GroupInBoth(steps, categorize, b, a, g);
      }
    }
    hide Less;
    hide IsGroup;
    hide HasKey;
    RankedUnique(a, b, GroupName, GroupWeight, Less);
  }

  lemma CategoryInBoth(groups: seq<Group>, a: seq<CategoryCount>, b: seq<CategoryCount>, e: CategoryCount)
    requires IsBreakdown(groups, a) && IsBreakdown(groups, b) && e in a
    ensures e in b
  {
    var i :| 0 <= i < |a| && a[i] == e;
    assert Named(a, CategoryName, e.category);
    var j :| 0 <= j < |b| && CategoryName(b[j]) == e.category;
    assert b[j] in b;
  }

  lemma BreakdownUnique(
    steps: seq<WindowStep>, categorize: (string, string) -> string,
    g: seq<Group>, a: seq<CategoryCount>, h: seq<Group>, b: seq<CategoryCount>)
    requires AreGroups(steps, categorize, g) && IsBreakdown(g, a)
    requires AreGroups(steps, categorize, h) && IsBreakdown(h, b)
    ensures a == b
  {
    GroupsUnique(steps, categorize, g, h);
    LessIsStrictTotal();
    forall e: CategoryCount
      ensures e in a <==> e in b
    {
      if e in a {
        CategoryInBoth(g, a, b, e);
      }
      if e in b {
        CategoryInBoth(g, b, a, e);
      }
    }
    hide Less;
    hide AreGroups;
    hide HasKey;
    hide Sum;
    RankedUnique(a, b, CategoryName, CategoryWeight, Less);
  }

  lemma FailingInBoth(runs: seq<WindowRun>, a: seq<FailingPipeline>, b: seq<FailingPipeline>, e: FailingPipeline)
    requires IsTopFailing(runs, a) && IsTopFailing(runs, b) && e in a
    ensures e in b
  {
    var i :| 0 <= i < |a| && a[i] == e;
    assert Named(a, FailingName, e.pipeline);
    var j :| 0 <= j < |b| && FailingName(b[j]) == e.pipeline;
    assert b[j] in b;
  }

  lemma TopFailingUnique(runs: seq<WindowRun>, a: seq<FailingPipeline>, b: seq<FailingPipeline>)
    requires IsTopFailing(runs, a) && IsTopFailing(runs, b)
    ensures a == b
  {
    RefLessIsStrictTotal();
    forall e: FailingPipeline
      ensures e in a <==> e in b
    {
      if e in a {
        FailingInBoth(runs, a, b, e);
      }
      if e in b {
        FailingInBoth(runs, b, a, e);
      }
    }
    hide RefLess;
    hide HasKey;
    hide Sum;
    RankedUnique(a, b, FailingName, FailingWeight, RefLess);
  }

  /** The step view and the group view list the same steps, with the same counts, in the same order. */
  lemma ViewsAgree(
    steps: seq<WindowStep>, categorize: (string, string) -> string, d: seq<StageCount>, groups: seq<Group>)
    requires IsDistribution(steps, d) && AreGroups(steps, categorize, groups)
    ensures |d| == |groups|
    ensures forall i :: 0 <= i < |d| ==> d[i].step == groups[i].step && d[i].failures == groups[i].occurrences
  {
    LessIsStrictTotal();
    assert forall i :: 0 <= i < |d| ==> d[i] in d;
    assert forall i :: 0 <= i < |groups| ==> groups[i] in groups;
    hide Less;
    hide HasKey;
    hide Sum;
    hide SumAll;
    RankedAgree(d, StageName, StageWeight, groups, GroupName, GroupWeight, Less);
  }

  lemma RankedIsDistinct<E, K(!new)>(d: seq<E>, name: E -> K, weight: E -> int, less: (K, K) -> bool)
    requires StrictTotal(less) && Ranked(d, name, weight, less)
    requires forall i, j :: 0 <= i < |d| && 0 <= j < |d| && name(d[i]) == name(d[j]) ==> weight(d[i]) == weight(d[j])
    ensures DistinctNames(d, name)
  {
    forall i, j | 0 <= i < j < |d|
      ensures name(d[i]) != name(d[j])
    {
      assert less(name(d[i]), name(d[j])) ==> !less(name(d[j]), name(d[i]));
    }
  }

  /** The steps' failures, the groups' and the categories' all add up to the failed step occurrences. */
  lemma StageTotal(steps: seq<WindowStep>, d: seq<StageCount>)
    requires IsDistribution(steps, d)
    ensures SumOver(d, StageWeight) == AllFailures(steps)
  {
    LessIsStrictTotal();
    assert forall i :: 0 <= i < |d| ==> d[i] in d;
    hide Less;
    RankedIsDistinct(d, StageName, StageWeight, Less);
    ListTotal(steps, FailedName, UnitStep, d, StageName, StageWeight);
  }

  lemma GroupTotal(steps: seq<WindowStep>, categorize: (string, string) -> string, groups: seq<Group>)
    requires AreGroups(steps, categorize, groups)
    ensures SumOver(groups, GroupWeight) == AllFailures(steps)
  {
    LessIsStrictTotal();
    assert forall i :: 0 <= i < |groups| ==> groups[i] in groups;
    hide Less;
    RankedIsDistinct(groups, GroupName, GroupWeight, Less);
    ListTotal(steps, FailedName, UnitStep, groups, GroupName, GroupWeight);
  }

  lemma CategoryTotal(
    steps: seq<WindowStep>, categorize: (string, string) -> string, groups: seq<Group>, d: seq<CategoryCount>)
    requires AreGroups(steps, categorize, groups) && IsBreakdown(groups, d)
    ensures SumOver(d, CategoryWeight) == AllFailures(steps)
  {
    GroupTotal(steps, categorize, groups);
    LessIsStrictTotal();
    assert forall i :: 0 <= i < |d| ==> d[i] in d;
    hide Less;
    hide AreGroups;
    RankedIsDistinct(d, CategoryName, CategoryWeight, Less);
    ListTotal(groups, CategoryOf, GroupWeight, d, CategoryName, CategoryWeight);
    AllFiled(groups, CategoryOf, GroupWeight);
  }

  lemma StageShares(steps: seq<WindowStep>, d: seq<StageCount>)
    requires IsDistribution(steps, d) && AllFailures(steps) != 0
    ensures SumReals(d, StageShare) == 1.0
  {
    StageTotal(steps, d);
    assert forall i :: 0 <= i < |d| ==> d[i] in d;
    hide Sum;
    hide SumAll;
    SharesAddUp(d, StageWeight, StageShare, AllFailures(steps));
    hide SumOver;
    hide SumReals;
    Whole(AllFailures(steps));
  }

  lemma Whole(total: int)
    requires total != 0
    ensures Rate(total, total) == 1.0
  {
  }

  lemma CategoryShares(
    steps: seq<WindowStep>, categorize: (string, string) -> string, groups: seq<Group>, c: seq<CategoryCount>)
    requires AreGroups(steps, categorize, groups) && IsBreakdown(groups, c) && AllFailures(steps) != 0
    ensures SumReals(c, CategoryShare) == 1.0
  {
    GroupTotal(steps, categorize, groups);
    CategoryTotal(steps, categorize, groups, c);
    assert forall i :: 0 <= i < |c| ==> c[i] in c;
    hide AreGroups;
    hide Sum;
    hide SumAll;
    SharesAddUp(c, CategoryWeight, CategoryShare, AllFailures(steps));
    hide SumOver;
    hide SumReals;
    Whole(AllFailures(steps));
  }

  /** When anything failed, the steps' shares sum to exactly one, and so do the categories'. */
  lemma SharesSumToOne(
    steps: seq<WindowStep>, categorize: (string, string) -> string,
    d: seq<StageCount>, groups: seq<Group>, c: seq<CategoryCount>)
    requires IsDistribution(steps, d) && AreGroups(steps, categorize, groups) && IsBreakdown(groups, c)
    ensures AllFailures(steps) != 0 ==> SumReals(d, StageShare) == 1.0 && SumReals(c, CategoryShare) == 1.0
    ensures AllFailures(steps) == 0 <==> d == []
    ensures AllFailures(steps) == 0 <==> c == []
  {
    NothingFailed(steps, d);
    NoCategory(steps, categorize, d, groups, c);
    if AllFailures(steps) != 0 {
      StageShares(steps, d);
      CategoryShares(steps, categorize, groups, c);
    }
  }

  lemma {:induction false} AllFailuresPositive(steps: seq<WindowStep>)
    ensures AllFailures(steps) >= 0
    ensures AllFailures(steps) == 0 <==> forall k :: !HasKey(steps, FailedName, k)
  {
    if steps != [] {
      var init, last := steps[..|steps| - 1], steps[|steps| - 1];
      AllFailuresPositive(init);
      assert steps == init + [last];
      forall k {
        HasKeyMore(init, FailedName, last, k);
      }
      assert IsFailedStep(last.step) ==> HasKey(steps, FailedName, last.step.name);
    }
  }

  lemma NothingFailed(steps: seq<WindowStep>, d: seq<StageCount>)
    requires IsDistribution(steps, d)
    ensures AllFailures(steps) == 0 <==> d == []
  {
    AllFailuresPositive(steps);
    hide HasKey;
    if d != [] {
      assert Named(d, StageName, d[0].step);
    }
  }

  lemma NoCategory(
    steps: seq<WindowStep>, categorize: (string, string) -> string,
    d: seq<StageCount>, groups: seq<Group>, c: seq<CategoryCount>)
    requires IsDistribution(steps, d) && AreGroups(steps, categorize, groups) && IsBreakdown(groups, c)
    ensures d == [] <==> c == []
  {
    ViewsAgree(steps, categorize, d, groups);
    if groups != [] {
      assert CategoryOf(groups[0]) == Some(groups[0].category);
      assert HasKey(groups, CategoryOf, groups[0].category);
    }
    if c != [] {
      assert Named(c, CategoryName, c[0].category);
    }
  }

  /** The insights' failed-run count is the sum over the failing pipelines. */
  lemma FailedRunsTotal(runs: seq<WindowRun>, failing: seq<FailingPipeline>)
    requires IsTopFailing(runs, failing)
    ensures SumOver(failing, FailingWeight) == SumAll(runs, FailedOwner, UnitRun)
  {
    RefLessIsStrictTotal();
    assert forall i :: 0 <= i < |failing| ==> failing[i] in failing;
    hide RefLess;
    RankedIsDistinct(failing, FailingName, FailingWeight, RefLess);
    ListTotal(runs, FailedOwner, UnitRun, failing, FailingName, FailingWeight);
  }
}
