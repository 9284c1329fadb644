/**
What the failure views say, entry by entry, in the fields of the runs and the steps they are about:
counts of list positions, shares of them, and the order the entries come in.
*/
module Readings {
  import opened Common
  import opened Ordering
  import opened Sums
  import opened Tally
  import opened MetricTypes
  import opened Insights
  import opened InsightViews

  /** The step ran to its end and that was a failure or a timeout. */
  predicate Broke(ws: WindowStep) {
    ws.step.status == "completed" && (ws.step.conclusion == "failure" || ws.step.conclusion == "timed_out")
  }

  lemma FailuresCounted(steps: seq<WindowStep>, name: string)
    ensures Failures(steps, name) == Count(steps, (ws: WindowStep) => Broke(ws) && ws.step.name == name)
    ensures AllFailures(steps) == Count(steps, Broke)
  {
    SumIsCount(steps, FailedName, UnitStep, name, (ws: WindowStep) => Broke(ws) && ws.step.name == name);
    SumAllIsCount(steps, FailedName, UnitStep, Broke);
  }

  lemma Listed<T, K>(s: seq<T>, key: T -> Option<K>, k: K)
    ensures HasKey(s, key, k) <==> exists x :: x in s && key(x) == Some(k)
  {
    if x :| x in s && key(x) == Some(k) {
      var i :| 0 <= i < |s| && s[i] == x;
      assert key(s[i]) == Some(k);
    }
  }

  lemma NamedEntry<E, K>(d: seq<E>, name: E -> K, k: K)
    ensures Named(d, name, k) <==> exists e :: e in d && name(e) == k
  {
    if e :| e in d && name(e) == k {
      var i :| 0 <= i < |d| && d[i] == e;
      assert name(d[i]) == k;
    }
  }

  lemma ShareOf(part: int, all: int, share: real)
    requires all != 0 && share == Rate(part, all)
    ensures share * all as real == part as real
  {
    assert part as real / all as real * all as real == part as real;
  }

  /** Each entry of the distribution counts the failures of one step, and has its share of all of them. */
  lemma DistributionReads(steps: seq<WindowStep>, d: seq<StageCount>)
    requires IsDistribution(steps, d)
    ensures forall e :: e in d ==>
              && e.failures == Count(steps, (ws: WindowStep) => Broke(ws) && ws.step.name == e.step)
              && 0 < e.failures <= Count(steps, Broke)
              && e.share * Count(steps, Broke) as real == e.failures as real
    ensures forall ws :: ws in steps && Broke(ws) ==> exists e :: e in d && e.step == ws.step.name
    ensures forall i, j :: 0 <= i < j < |d| ==>
              d[i].failures > d[j].failures || (d[i].failures == d[j].failures && Less(d[i].step, d[j].step))
  {
    forall e | e in d
      ensures e.failures == Count(steps, (ws: WindowStep) => Broke(ws) && ws.step.name == e.step)
      ensures 0 < e.failures <= Count(steps, Broke)
      ensures e.share * Count(steps, Broke) as real == e.failures as real
    {
      FailuresCounted(steps, e.step);
      CountSome(steps, (ws: WindowStep) => Broke(ws) && ws.step.name == e.step, Broke);
      NamedEntry(d, StageName, e.step);
      UnitSum(steps, FailedName, UnitStep, e.step);
      hide Count;
      hide Sum;
      hide SumAll;
      hide HasKey;
      hide Rate;
      ShareOf(e.failures, AllFailures(steps), e.share);
    }
    forall ws | ws in steps && Broke(ws)
      ensures exists e :: e in d && e.step == ws.step.name
    {
      Listed(steps, FailedName, ws.step.name);
      NamedEntry(d, StageName, ws.step.name);
    }
  }

  lemma ConclusionsCounted(steps: seq<WindowStep>, name: string, c: string)
    ensures Sum(steps, ConclusionOf(name), UnitStep, c) ==
            Count(steps, (ws: WindowStep) => Broke(ws) && ws.step.name == name && ws.step.conclusion == c)
  {
    SumIsCount(steps, ConclusionOf(name), UnitStep, c,
               (ws: WindowStep) => Broke(ws) && ws.step.name == name && ws.step.conclusion == c);
  }

  lemma ConclusionReads(steps: seq<WindowStep>, categorize: (string, string) -> string, g: Group, c: string)
    requires IsGroup(steps, categorize, g) && exists ws :: ws in steps && Broke(ws) && ws.step.name == g.step
    ensures var most := Count(steps, (ws: WindowStep) =>
              Broke(ws) && ws.step.name == g.step && ws.step.conclusion == g.conclusion);
            var other := Count(steps, (ws: WindowStep) =>
              Broke(ws) && ws.step.name == g.step && ws.step.conclusion == c);
            && most > 0 && other <= most && (other == most ==> c == g.conclusion || Less(g.conclusion, c))
  {
    var counts := TallyOf(steps, ConclusionOf(g.step), UnitStep);
    var ws :| ws in steps && Broke(ws) && ws.step.name == g.step;
    assert Tallies(steps, ConclusionOf(g.step), UnitStep, counts);
    forall k
      ensures k in counts ==> counts[k] > 0
      ensures k !in counts ==> Sum(steps, ConclusionOf(g.step), UnitStep, k) == 0
    {
      UnitSum(steps, ConclusionOf(g.step), UnitStep, k);
    }
    Listed(steps, ConclusionOf(g.step), ws.step.conclusion);
    assert ws.step.conclusion in counts;
    hide Sum;
    hide HasKey;
    ConclusionsCounted(steps, g.step, g.conclusion);
    ConclusionsCounted(steps, g.step, c);
    hide Count;
  }

  lemma MembersRead(steps: seq<WindowStep>, categorize: (string, string) -> string, g: Group)
    requires IsGroup(steps, categorize, g) && HasKey(steps, FailedName, g.step)
    ensures g.occurrences == Count(steps, (ws: WindowStep) => Broke(ws) && ws.step.name == g.step) > 0
    ensures forall p :: p in g.pipelines <==>
              exists ws :: ws in steps && Broke(ws) && ws.step.name == g.step && ws.pipeline == p
  {
    FailuresCounted(steps, g.step);
    UnitSum(steps, FailedName, UnitStep, g.step);
    hide Count;
    hide Sum;
    hide SumAll;
    forall p
      ensures p in g.pipelines <==>
              exists ws :: ws in steps && Broke(ws) && ws.step.name == g.step && ws.pipeline == p
    {
      Listed(steps, PipelineOf(g.step), p);
      assert forall ws :: PipelineOf(g.step)(ws) == Some(p) <==>
                          Broke(ws) && ws.step.name == g.step && ws.pipeline == p;
    }
  }

  /**
  A failure group counts the failures of one step, has their most frequent conclusion, the first in
  the alphabet of several, and lists the pipelines they happened in, by repository and by name.
  */
  lemma GroupReads(
    steps: seq<WindowStep>, categorize: (string, string) -> string, groups: seq<Group>, g: Group, c: string)
    requires AreGroups(steps, categorize, groups) && g in groups
    ensures g.occurrences == Count(steps, (ws: WindowStep) => Broke(ws) && ws.step.name == g.step) > 0
    ensures g.category == categorize(g.step, g.conclusion)
    ensures var most := Count(steps, (ws: WindowStep) =>
              Broke(ws) && ws.step.name == g.step && ws.step.conclusion == g.conclusion);
            var other := Count(steps, (ws: WindowStep) =>
              Broke(ws) && ws.step.name == g.step && ws.step.conclusion == c);
            && most > 0 && other <= most && (other == most ==> c == g.conclusion || Less(g.conclusion, c))
    ensures forall p :: p in g.pipelines <==>
              exists ws :: ws in steps && Broke(ws) && ws.step.name == g.step && ws.pipeline == p
    ensures forall i, j :: 0 <= i < j < |g.pipelines| ==>
              var p, q := g.pipelines[i], g.pipelines[j];
              Less(p.repoId, q.repoId) || (p.repoId == q.repoId && Less(p.name, q.name))
  {
    NamedEntry(groups, GroupName, g.step);
    Listed(steps, FailedName, g.step);
    hide Count;
    hide HasKey;
    hide Named;
    hide Less;
    hide IsMostCommon;
    MembersRead(steps, categorize, g);
    ConclusionReads(steps, categorize, g, c);
  }

  /** Every step that failed has its group, and the groups come with the most failures first, then by name. */
  lemma GroupsListed(steps: seq<WindowStep>, categorize: (string, string) -> string, groups: seq<Group>)
    requires AreGroups(steps, categorize, groups)
    ensures forall ws :: ws in steps && Broke(ws) ==> exists g :: g in groups && g.step == ws.step.name
    ensures forall i, j :: 0 <= i < j < |groups| ==>
              || groups[i].occurrences > groups[j].occurrences
              || (groups[i].occurrences == groups[j].occurrences && Less(groups[i].step, groups[j].step))
  {
    hide IsGroup;
    forall ws | ws in steps && Broke(ws)
      ensures exists g :: g in groups && g.step == ws.step.name
    {
      Listed(steps, FailedName, ws.step.name);
      NamedEntry(groups, GroupName, ws.step.name);
    }
  }

  lemma CategorySum(groups: seq<Group>, k: string)
    ensures Sum(groups, CategoryOf, GroupWeight, k) ==
            Total(map i | 0 <= i < |groups| && groups[i].category == k :: groups[i].occurrences)
  {
    var filed := map i | 0 <= i < |groups| && groups[i].category == k :: groups[i].occurrences;
    SumIsTotal(groups, CategoryOf, GroupWeight, k, filed);
  }

  lemma CategoriesNamed(groups: seq<Group>, k: string)
    ensures HasKey(groups, CategoryOf, k) <==> exists g :: g in groups && g.category == k
  {
    Listed(groups, CategoryOf, k);
    hide HasKey;
    assert forall g :: CategoryOf(g) == Some(k) <==> g.category == k;
  }

  /** A category's occurrences are those of its groups, and it has its share of all of them. */
  lemma CategoryReads(groups: seq<Group>, d: seq<CategoryCount>, e: CategoryCount)
    requires IsBreakdown(groups, d) && e in d
    ensures e.occurrences ==
            Total(map i | 0 <= i < |groups| && groups[i].category == e.category :: groups[i].occurrences)
    ensures SumOver(groups, GroupWeight) != 0 ==>
              e.share * SumOver(groups, GroupWeight) as real == e.occurrences as real
    ensures exists g :: g in groups && g.category == e.category
  {
    hide Ranked;
    hide Sum;
    hide SumOver;
    hide Total;
    hide Rate;
    hide HasKey;
    CategorySum(groups, e.category);
    CategoriesNamed(groups, e.category);
    NamedEntry(d, CategoryName, e.category);
    hide Named;
    if SumOver(groups, GroupWeight) != 0 {
      ShareOf(e.occurrences, SumOver(groups, GroupWeight), e.share);
    }
  }

  /** Every group has its category, and the categories come with the most occurrences first, then by name. */
  lemma CategoriesListed(groups: seq<Group>, d: seq<CategoryCount>)
    requires IsBreakdown(groups, d)
    ensures forall g :: g in groups ==> exists e :: e in d && e.category == g.category
    ensures forall i, j :: 0 <= i < j < |d| ==>
              || d[i].occurrences > d[j].occurrences
              || (d[i].occurrences == d[j].occurrences && Less(d[i].category, d[j].category))
  {
    hide Less;
    hide Sum;
    hide SumOver;
    hide Rate;
    forall g | g in groups
      ensures exists e :: e in d && e.category == g.category
    {
      NamedEntry(d, CategoryName, g.category);
      CategoriesNamed(groups, g.category);
    }
  }

  /** Each failing pipeline's runs and failed runs in the window; every pipeline with a failed run is listed. */
  lemma TopFailingReads(runs: seq<WindowRun>, d: seq<FailingPipeline>)
    requires IsTopFailing(runs, d)
    ensures forall e :: e in d ==>
              && e.runs == Count(runs, (wr: WindowRun) => wr.pipeline == e.pipeline)
              && e.failedRuns == Count(runs, (wr: WindowRun) =>
                   wr.pipeline == e.pipeline && wr.run.conclusion in ["failure", "timed_out"]) > 0
    ensures forall wr :: wr in runs && wr.run.conclusion in ["failure", "timed_out"] ==>
              exists e :: e in d && e.pipeline == wr.pipeline
    ensures forall i, j :: 0 <= i < j < |d| ==>
              var p, q := d[i].pipeline, d[j].pipeline;
              || d[i].failedRuns > d[j].failedRuns
              || (d[i].failedRuns == d[j].failedRuns
                  && (Less(p.repoId, q.repoId) || (p.repoId == q.repoId && Less(p.name, q.name))))
  {
    forall e | e in d
      ensures e.runs == Count(runs, (wr: WindowRun) => wr.pipeline == e.pipeline)
      ensures e.failedRuns == Count(runs, (wr: WindowRun) =>
                wr.pipeline == e.pipeline && wr.run.conclusion in ["failure", "timed_out"]) > 0
    {
      SumIsCount(runs, RunOwner, UnitRun, e.pipeline, (wr: WindowRun) => wr.pipeline == e.pipeline);
      SumIsCount(runs, FailedOwner, UnitRun, e.pipeline, (wr: WindowRun) =>
        wr.pipeline == e.pipeline && wr.run.conclusion in ["failure", "timed_out"]);
      NamedEntry(d, FailingName, e.pipeline);
      UnitSum(runs, FailedOwner, UnitRun, e.pipeline);
      hide Count;
      hide Sum;
    }
    forall wr | wr in runs && wr.run.conclusion in ["failure", "timed_out"]
      ensures exists e :: e in d && e.pipeline == wr.pipeline
    {
      Listed(runs, FailedOwner, wr.pipeline);
      NamedEntry(d, FailingName, wr.pipeline);
    }
  }
}
