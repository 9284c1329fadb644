/**
The failure insights of one window. Each view counts the same step occurrences with a loop and
a map of its own, then ranks what it counted; every map is read back in an arbitrary order.
*/
module Insights {
  import opened Common
  import opened Ordering
  import opened Sums
  import opened Tally
  import opened MetricTypes

  datatype StageCount = StageCount(step: string, failures: int, share: real)

  datatype Group = Group(
    step: string, category: string, conclusion: string, occurrences: int, pipelines: seq<PipelineRef>)

  datatype CategoryCount = CategoryCount(category: string, occurrences: int, share: real)

  datatype FailingPipeline = FailingPipeline(pipeline: PipelineRef, runs: int, failedRuns: int)

  /** What each tally files an element under. */
  function FailedName(ws: WindowStep): Option<string> {
    if IsFailedStep(ws.step) then Some(ws.step.name) else None
  }

  function ConclusionOf(name: string): WindowStep -> Option<string> {
    (ws: WindowStep) => if FailedName(ws) == Some(name) then Some(ws.step.conclusion) else None
  }

  function PipelineOf(name: string): WindowStep -> Option<PipelineRef> {
    (ws: WindowStep) => if FailedName(ws) == Some(name) then Some(ws.pipeline) else None
  }

  function RunOwner(wr: WindowRun): Option<PipelineRef> {
    Some(wr.pipeline)
  }

  function FailedOwner(wr: WindowRun): Option<PipelineRef> {
    if IsFailed(wr.run.conclusion) then Some(wr.pipeline) else None
  }

  function UnitStep(ws: WindowStep): int { 1 }

  function UnitRun(wr: WindowRun): int { 1 }

  /** How often a step failed in the window, and how often any did. */
  function Failures(steps: seq<WindowStep>, name: string): int {
    Sum(steps, FailedName, UnitStep, name)
  }

  function AllFailures(steps: seq<WindowStep>): int {
    SumAll(steps, FailedName, UnitStep)
  }

  function StageName(e: StageCount): string { e.step }

  function StageWeight(e: StageCount): int { e.failures }

  function StageShare(e: StageCount): real { e.share }

  /** The distribution by step: one entry for each step that failed, with its exact share. */
  ghost predicate IsDistribution(steps: seq<WindowStep>, d: seq<StageCount>) {
    && Ranked(d, StageName, StageWeight, Less)
    && (forall k :: HasKey(steps, FailedName, k) <==> Named(d, StageName, k))
    && (forall e :: e in d ==> e.failures == Failures(steps, e.step) && e.share == Rate(e.failures, AllFailures(steps)))
  }

  method StageDistribution(steps: seq<WindowStep>) returns (distribution: seq<StageCount>)
    ensures IsDistribution(steps, distribution)
  {
    var counts := CountFailures(steps);
    var total := SumValues(counts);
    TallyTotal(steps, FailedName, UnitStep, counts);
    hide Sum;
    hide SumAll;
    hide HasKey;
    hide Rate;
    var unsorted := ListStages(counts, total);
    hide Named;
    distribution := SortStages(unsorted);
    hide Ranked;
  }

  method SortStages(unsorted: seq<StageCount>) returns (sorted: seq<StageCount>)
    requires DistinctNames(unsorted, StageName)
    ensures Ranked(sorted, StageName, StageWeight, Less)
    ensures forall e :: e in sorted <==> e in unsorted
    ensures forall k :: Named(sorted, StageName, k) <==> Named(unsorted, StageName, k)
  {
    LessIsStrictTotal();
    hide Less;
    ByRankIsTotal(StageName, StageWeight, Less);
    hide TotalPreorder;
    hide Named;
    sorted := Sort(ByRank(StageName, StageWeight, Less), unsorted);
    SortRanks(unsorted, sorted, StageName, StageWeight, Less);
  }

  /** The map's entries as a list, in no particular order. */
  method ListStages(counts: map<string, int>, total: int) returns (list: seq<StageCount>)
    ensures DistinctNames(list, StageName)
    ensures forall k :: Named(list, StageName, k) <==> k in counts
    ensures forall e :: e in list ==>
        e.step in counts && e.failures == counts[e.step] && e.share == Rate(e.failures, total)
  {
    list := [];
    var todo := counts.Keys;
    while todo != {}
      invariant todo <= counts.Keys
      invariant DistinctNames(list, StageName)
      invariant forall k :: Named(list, StageName, k) <==> k in counts && k !in todo
      invariant forall e :: e in list ==>
          e.step in counts && e.failures == counts[e.step] && e.share == Rate(e.failures, total)
    {
      var name :| name in todo;
      var entry := StageCount(name, counts[name], Rate(counts[name], total));
      DistinctMore(list, StageName, entry);
      forall k {
        NamedMore(list, StageName, entry, k);
      }
      list := list + [entry];
      todo := todo - {name};
    }
  }

  method CountFailures(steps: seq<WindowStep>) returns (counts: map<string, int>)
    ensures Tallies(steps, FailedName, UnitStep, counts)
  {
    counts := map[];
    var i := 0;
    while i < |steps|
      invariant 0 <= i <= |steps|
      invariant Tallies(steps[..i], FailedName, UnitStep, counts)
    {
      TallyMore(steps[..i], FailedName, UnitStep, counts, steps[i]);
      assert steps[..i + 1] == steps[..i] + [steps[i]];
      if IsFailedStep(steps[i].step) {
        var name := steps[i].step.name;
        counts := counts[name := (if name in counts then counts[name] else 0) + 1];
      }
      i := i + 1;
    }
    assert steps[..i] == steps;
  }

  /** Adding up a map's values, whatever order they come in. */
  method SumValues(counts: map<string, int>) returns (total: int)
    ensures total == Total(counts)
  {
    total := 0;
    var rest := counts;
    while rest != map[]
      invariant total + Total(rest) == Total(counts)
      decreases |rest|
    {
      var k :| k in rest;
      TotalWithout(rest, k);
      total := total + rest[k];
      rest := rest - {k};
    }
  }

  /** The most frequent key, the first in the alphabet of several; "" when nothing was counted. */
  ghost predicate IsMostCommon(counts: map<string, int>, best: string) {
    if forall k :: k in counts ==> counts[k] <= 0 then best == ""
    else best in counts && counts[best] > 0 &&
         forall k :: k in counts && k != best ==>
             counts[k] < counts[best] || (counts[k] == counts[best] && Less(best, k))
  }

  method MostCommon(counts: map<string, int>) returns (best: string)
    ensures IsMostCommon(counts, best)
  {
    best := "";
    var bestCount := 0;
    var todo := counts.Keys;
    while todo != {}
      invariant todo <= counts.Keys
      invariant bestCount >= 0
      invariant bestCount == 0 ==> best == "" && forall k :: k in counts && k !in todo ==> counts[k] <= 0
      invariant bestCount > 0 ==> best in counts && best !in todo && counts[best] == bestCount
      invariant bestCount > 0 ==> forall k :: k in counts && k !in todo && k != best ==>
        counts[k] < bestCount || (counts[k] == bestCount && Less(best, k))
    {
      var key :| key in todo;
      forall k: string
        ensures Less(best, k) || best == k || Less(k, best)
        ensures Less(key, best) && Less(best, k) ==> Less(key, k)
      {
        LessTotal(best, k);
        if Less(key, best) && Less(best, k) {
          LessTransitive(key, best, k);
        }
      }
      if counts[key] > bestCount || (counts[key] == bestCount && Less(key, best)) {
        best, bestCount := key, counts[key];
      }
      todo := todo - {key};
    }
  }

  /** The answer does not depend on the order the map is read in. */
  lemma MostCommonUnique(counts: map<string, int>, a: string, b: string)
    requires IsMostCommon(counts, a) && IsMostCommon(counts, b)
    ensures a == b
  {
    LessTotal(a, b);
  }

  /** What failureGroups collects for one step. */
  datatype Acc = Acc(occurrences: int, conclusions: map<string, int>, pipelines: set<PipelineRef>)

  const NOTHING := Acc(0, map[], {})

  ghost predicate AccOf(steps: seq<WindowStep>, name: string, acc: Acc) {
    && acc.occurrences == Failures(steps, name)
    && Tallies(steps, ConclusionOf(name), UnitStep, acc.conclusions)
    && (forall p :: p in acc.pipelines <==> HasKey(steps, PipelineOf(name), p))
  }

  function Add(acc: Acc, ws: WindowStep): Acc {
    var c := ws.step.conclusion;
    Acc(acc.occurrences + 1,
        acc.conclusions[c := (if c in acc.conclusions then acc.conclusions[c] else 0) + 1],
        acc.pipelines + {ws.pipeline})
  }

  lemma AccMore(steps: seq<WindowStep>, name: string, acc: Acc, ws: WindowStep)
    requires AccOf(steps, name, acc)
    ensures AccOf(steps + [ws], name, if FailedName(ws) == Some(name) then Add(acc, ws) else acc)
  {
    assert (steps + [ws])[..|steps|] == steps;
    TallyMore(steps, ConclusionOf(name), UnitStep, acc.conclusions, ws);
    forall p
      ensures HasKey(steps + [ws], PipelineOf(name), p) <==>
          HasKey(steps, PipelineOf(name), p) || PipelineOf(name)(ws) == Some(p)
    {
      HasKeyMore(steps, PipelineOf(name), ws, p);
    }
  }

  function AccAt(byStep: map<string, Acc>, name: string): Acc {
    if name in byStep then byStep[name] else NOTHING
  }

  ghost predicate Collected(steps: seq<WindowStep>, byStep: map<string, Acc>) {
    && (forall name :: name in byStep <==> HasKey(steps, FailedName, name))
    && (forall name :: AccOf(steps, name, AccAt(byStep, name)))
  }

  method CollectFailures(steps: seq<WindowStep>) returns (byStep: map<string, Acc>)
    ensures Collected(steps, byStep)
  {
    byStep := map[];
    var i := 0;
    while i < |steps|
      invariant 0 <= i <= |steps|
      invariant Collected(steps[..i], byStep)
    {
      var ws := steps[i];
      CollectMore(steps[..i], byStep, ws);
      assert steps[..i + 1] == steps[..i] + [ws];
      if IsFailedStep(ws.step) {
        byStep := byStep[ws.step.name := Add(AccAt(byStep, ws.step.name), ws)];
      }
      i := i + 1;
    }
    assert steps[..i] == steps;
  }

  lemma CollectMore(steps: seq<WindowStep>, byStep: map<string, Acc>, ws: WindowStep)
    requires Collected(steps, byStep)
    ensures Collected(steps + [ws],
                      if IsFailedStep(ws.step) then byStep[ws.step.name := Add(AccAt(byStep, ws.step.name), ws)]
                      else byStep)
  {
    var next := if IsFailedStep(ws.step) then byStep[ws.step.name := Add(AccAt(byStep, ws.step.name), ws)] else byStep;
    forall name
      ensures name in next <==> HasKey(steps + [ws], FailedName, name)
      ensures AccOf(steps + [ws], name, AccAt(next, name))
    {
      HasKeyMore(steps, FailedName, ws, name);
      AccMore(steps, name, AccAt(byStep, name), ws);
    }
  }

  function GroupName(g: Group): string { g.step }

  function GroupWeight(g: Group): int { g.occurrences }

  /** A group's own fields, given what was collected for its step. */
  ghost predicate IsGroup(steps: seq<WindowStep>, categorize: (string, string) -> string, g: Group) {
    && g.occurrences == Failures(steps, g.step)
    && IsMostCommon(TallyOf(steps, ConclusionOf(g.step), UnitStep), g.conclusion)
    && g.category == categorize(g.step, g.conclusion)
    && (forall p :: p in g.pipelines <==> HasKey(steps, PipelineOf(g.step), p))
    && (forall i, j :: 0 <= i < j < |g.pipelines| ==> RefLess(g.pipelines[i], g.pipelines[j]))
  }

  ghost predicate AreGroups(steps: seq<WindowStep>, categorize: (string, string) -> string, groups: seq<Group>) {
    && Ranked(groups, GroupName, GroupWeight, Less)
    && (forall k :: HasKey(steps, FailedName, k) <==> Named(groups, GroupName, k))
    && (forall g :: g in groups ==> IsGroup(steps, categorize, g))
  }

  function RefOf(p: PipelineRef): PipelineRef { p }

  function NoWeight(p: PipelineRef): int { 0 }

  lemma RefLessIsStrictTotal()
    ensures StrictTotal(RefLess)
  {
    forall a, b
      ensures RefLess(a, b) || a == b || RefLess(b, a)
      ensures RefLess(a, b) ==> !RefLess(b, a)
    {
      RefLessTotal(a, b);
    }
    forall a, b, c | RefLess(a, b) && RefLess(b, c)
      ensures RefLess(a, c)
    {
      RefLessTransitive(a, b, c);
    }
  }

  /** A set of pipelines as a sorted list. */
  method SortPipelines(refs: set<PipelineRef>) returns (sorted: seq<PipelineRef>)
    ensures forall p :: p in sorted <==> p in refs
    ensures forall i, j :: 0 <= i < j < |sorted| ==> RefLess(sorted[i], sorted[j])
  {
    var list: seq<PipelineRef> := [];
    var todo := refs;
    while todo != {}
      invariant todo <= refs
      invariant forall p :: p in list <==> p in refs && p !in todo
      invariant DistinctNames(list, RefOf)
    {
      var p :| p in todo;
      list := list + [p];
      todo := todo - {p};
    }
    RefLessIsStrictTotal();
    hide RefLess;
    ByRankIsTotal(RefOf, NoWeight, RefLess);
    sorted := Sort(ByRank(RefOf, NoWeight, RefLess), list);
    SortRanks(list, sorted, RefOf, NoWeight, RefLess);
  }

  method FailureGroups(steps: seq<WindowStep>, categorize: (string, string) -> string) returns (groups: seq<Group>)
    ensures AreGroups(steps, categorize, groups)
  {
    hide IsGroup;
    var unsorted := ListGroups(steps, categorize);
    LessIsStrictTotal();
    ByRankIsTotal(GroupName, GroupWeight, Less);
    groups := Sort(ByRank(GroupName, GroupWeight, Less), unsorted);
    SortRanks(unsorted, groups, GroupName, GroupWeight, Less);
  }

  method ListGroups(steps: seq<WindowStep>, categorize: (string, string) -> string) returns (groups: seq<Group>)
    ensures DistinctNames(groups, GroupName)
    ensures forall k :: Named(groups, GroupName, k) <==> HasKey(steps, FailedName, k)
    ensures forall g :: g in groups ==> IsGroup(steps, categorize, g)
  {
    var byStep := CollectFailures(steps);
    groups := [];
    var todo := byStep.Keys;
    while todo != {}
      invariant todo <= byStep.Keys
      invariant DistinctNames(groups, GroupName)
      invariant forall k :: Named(groups, GroupName, k) <==> k in byStep && k !in todo
      invariant forall g :: g in groups ==> IsGroup(steps, categorize, g)
    {
      hide HasKey;
      hide AccOf;
      hide IsGroup;
      var name :| name in todo;
      var group := MakeGroup(steps, categorize, byStep, name);
      DistinctMore(groups, GroupName, group);
      forall k {
        NamedMore(groups, GroupName, group, k);
      }
      groups := groups + [group];
      todo := todo - {name};
    }
  }

  method MakeGroup(
    ghost steps: seq<WindowStep>, categorize: (string, string) -> string, byStep: map<string, Acc>, name: string)
    returns (group: Group)
    requires Collected(steps, byStep) && name in byStep
    ensures group.step == name && IsGroup(steps, categorize, group)
  {
    var acc := byStep[name];
    assert AccOf(steps, name, AccAt(byStep, name));
    var conclusion := MostCommon(acc.conclusions);
    SameTally(steps, ConclusionOf(name), UnitStep, acc.conclusions, TallyOf(steps, ConclusionOf(name), UnitStep));
    var pipelines := SortPipelines(acc.pipelines);
    group := Group(name, categorize(name, conclusion), conclusion, acc.occurrences, pipelines);
  }
}
