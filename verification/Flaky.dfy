/** The flaky-step view: a second computation of flakiness, per (pipeline, step), ranked. */
module Flaky {
  import opened Common
  import opened Ordering
  import opened Sums
  import opened Tally
  import opened MetricTypes
  import opened StepMetrics

  /** How many of a step's latest runs its result matrix shows. */
  const MATRIX_RUNS := 40

  datatype Outcome = Passed | FailedOutcome | Running | Queued | Cancelled | Skipped | Unknown

  function OutcomeOf(status: string, conclusion: string): Outcome {
    if conclusion == "success" then Passed
    else if IsFailed(conclusion) then FailedOutcome
    else if conclusion == "cancelled" then Cancelled
    else if conclusion == "skipped" then Skipped
    else if conclusion != "" then Unknown
    else if status == "in_progress" then Running
    else if status == "queued" || status == "waiting" || status == "pending" || status == "requested" then Queued
    else Unknown
  }

  datatype FlakyStep = FlakyStep(
    key: StepKey, flakeRate: real, runCount: int, recent: seq<Outcome>, quarantine: Option<Quarantine>)

  /** The completed occurrences of one step, in the order given. */
  function OccurrencesOf(steps: seq<WindowStep>, key: StepKey): seq<StepOccurrence> {
    if steps == [] then []
    else
      var last := steps[|steps| - 1];
      OccurrencesOf(steps[..|steps| - 1], key) +
      if last.step.status == "completed" && StepKey(last.pipeline, last.step.name) == key then [last.step] else []
  }

  /** Oldest first, runs with no start time before any that have one. */
  predicate StartedBefore(a: StepOccurrence, b: StepOccurrence) {
    a.runStartedAt.None? || (b.runStartedAt.Some? && a.runStartedAt.value <= b.runStartedAt.value)
  }

  lemma StartedBeforeTotal()
    ensures TotalPreorder(StartedBefore)
  {
  }

  function Concluding(conclusion: string): StepOccurrence -> Option<()> {
    (occ: StepOccurrence) => if occ.conclusion == conclusion then Some(()) else None
  }

  function CountOf(occs: seq<StepOccurrence>, conclusion: string): int {
    Sum(occs, Concluding(conclusion), UnitOcc, ())
  }

  function Outcomes(occs: seq<StepOccurrence>): seq<Outcome> {
    seq(|occs|, i requires 0 <= i < |occs| => OutcomeOf(occs[i].status, occs[i].conclusion))
  }

  /** The last n of a list. */
  function Latest<T>(s: seq<T>, n: nat): seq<T> {
    if |s| > n then s[|s| - n..] else s
  }

  /** flakyStep: the entry of a step that both passed and failed. */
  ghost predicate IsEntry(occs: seq<StepOccurrence>, e: FlakyStep) {
    && e.flakeRate == Rate(CountOf(occs, "failure"), |occs|)
    && e.runCount == |occs|
    && e.recent == Outcomes(Latest(StableSort(StartedBefore, occs), MATRIX_RUNS))
  }

  ghost predicate PassedAndFailed(occs: seq<StepOccurrence>) {
    CountOf(occs, "success") > 0 && CountOf(occs, "failure") > 0
  }

  method CountConclusions(occs: seq<StepOccurrence>) returns (passed: int, failed: int)
    ensures passed == CountOf(occs, "success") && failed == CountOf(occs, "failure")
  {
    passed, failed := 0, 0;
    var i := 0;
    while i < |occs|
      invariant 0 <= i <= |occs|
      invariant passed == CountOf(occs[..i], "success") && failed == CountOf(occs[..i], "failure")
    {
      assert occs[..i + 1][..i] == occs[..i];
      if occs[i].conclusion == "success" {
        passed := passed + 1;
      } else if occs[i].conclusion == "failure" {
        failed := failed + 1;
      }
      i := i + 1;
    }
    assert occs[..i] == occs;
  }

  method ListOutcomes(recent: seq<StepOccurrence>) returns (outcomes: seq<Outcome>)
    ensures outcomes == Outcomes(recent)
  {
    outcomes := [];
    var i := 0;
    while i < |recent|
      invariant 0 <= i <= |recent| && |outcomes| == i
      invariant forall j :: 0 <= j < i ==> outcomes[j] == OutcomeOf(recent[j].status, recent[j].conclusion)
    {
      outcomes := outcomes + [OutcomeOf(recent[i].status, recent[i].conclusion)];
      i := i + 1;
    }
  }

  method MakeEntry(key: StepKey, occs: seq<StepOccurrence>) returns (entry: Option<FlakyStep>)
    ensures entry.Some? <==> PassedAndFailed(occs)
    ensures entry.Some? ==> IsEntry(occs, entry.value) && entry.value.key == key && entry.value.quarantine == None
  {
    StartedBeforeTotal();
    var sorted := SortStable(StartedBefore, occs);
    hide StableSort;
    hide StartedBefore;
    var passed, failed := CountConclusions(sorted);
    SortedCounts(occs, sorted);
    CountsArePositive(sorted);
    hide CountOf;
    if passed == 0 || failed == 0 {
      return None;
    }
    var outcomes := ListOutcomes(Latest(sorted, MATRIX_RUNS));
    return Some(FlakyStep(key, Rate(failed, |sorted|), |sorted|, outcomes, None));
  }

  lemma SortedCounts(occs: seq<StepOccurrence>, sorted: seq<StepOccurrence>)
    requires multiset(sorted) == multiset(occs)
    ensures |sorted| == |occs|
    ensures CountOf(sorted, "success") == CountOf(occs, "success")
        && CountOf(sorted, "failure") == CountOf(occs, "failure")
  {
    SameCount(occs, sorted, "success");
    SameCount(occs, sorted, "failure");
    assert |multiset(sorted)| == |sorted| && |multiset(occs)| == |occs|;
  }

  lemma CountsArePositive(occs: seq<StepOccurrence>)
    ensures CountOf(occs, "success") >= 0 && CountOf(occs, "failure") >= 0
  {
    UnitSum(occs, Concluding("success"), UnitOcc, ());
    UnitSum(occs, Concluding("failure"), UnitOcc, ());
  }

  /** A count does not see the order of what it counts. */
  lemma {:induction false} SameCount(a: seq<StepOccurrence>, b: seq<StepOccurrence>, conclusion: string)
    requires multiset(a) == multiset(b)
    ensures CountOf(a, conclusion) == CountOf(b, conclusion)
  {
    if a == [] {
      assert |multiset(b)| == 0;
    } else {
      var last := a[|a| - 1];
      var i := Find(a, b);
      Removed(a, |a| - 1, conclusion);
      Removed(b, i, conclusion);
      hide CountOf;
      assert a[..|a| - 1] + a[|a| - 1 + 1..] == a[..|a| - 1];
      SameCount(a[..|a| - 1], b[..i] + b[i + 1..], conclusion);
    }
  }

  lemma Find<T>(a: seq<T>, b: seq<T>) returns (i: nat)
    requires a != [] && multiset(a) == multiset(b)
    ensures i < |b| && b[i] == a[|a| - 1]
  {
    var last := a[|a| - 1];
    assert last in multiset(b);
    i :| 0 <= i < |b| && b[i] == last;
  }

  lemma Removed(b: seq<StepOccurrence>, i: nat, conclusion: string)
    requires i < |b|
    ensures multiset(b[..i] + b[i + 1..]) == multiset(b) - multiset{b[i]}
    ensures CountOf(b, conclusion) ==
            CountOf(b[..i] + b[i + 1..], conclusion) + if b[i].conclusion == conclusion then 1 else 0
  {
    RemovedBag(b, i);
    assert b == (b[..i] + [b[i]]) + b[i + 1..];
    CountAppend(b[..i] + [b[i]], b[i + 1..], conclusion);
    CountAppend(b[..i], b[i + 1..], conclusion);
    SumMore(b[..i], Concluding(conclusion), UnitOcc, b[i], ());
  }

  lemma RemovedBag<T>(b: seq<T>, i: nat)
    requires i < |b|
    ensures multiset(b[..i] + b[i + 1..]) == multiset(b) - multiset{b[i]}
  {
    assert b == b[..i] + [b[i]] + b[i + 1..];
  }

  lemma {:induction false} CountAppend(a: seq<StepOccurrence>, b: seq<StepOccurrence>, conclusion: string)
    ensures CountOf(a + b, conclusion) == CountOf(a, conclusion) + CountOf(b, conclusion)
  {
    if b == [] {
      assert a + b == a;
    } else {
      CountAppend(a, b[..|b| - 1], conclusion);
      assert (a + b)[..|a + b| - 1] == a + b[..|b| - 1];
    }
  }

  /** Everything the matrix leaves out started no later than everything it shows. */
  lemma MatrixShowsLatest(occs: seq<StepOccurrence>, e: FlakyStep)
    requires IsEntry(occs, e)
    ensures var s := StableSort(StartedBefore, occs);
            && multiset(s) == multiset(occs)
            && |e.recent| == (if |occs| < MATRIX_RUNS then |occs| else MATRIX_RUNS)
            && (forall i :: 0 <= i < |e.recent| ==>
                  var occ := s[|s| - |e.recent| + i];
                  e.recent[i] == OutcomeOf(occ.status, occ.conclusion))
            && (forall i, j :: 0 <= i < |s| - |e.recent| <= j < |s| ==> StartedBefore(s[i], s[j]))
  {
    StartedBeforeTotal();
    StableSortSorts(StartedBefore, occs);
    var s := StableSort(StartedBefore, occs);
    SameLength(s, occs);
    assert e.recent == Outcomes(Latest(s, MATRIX_RUNS));
    hide IsEntry;
    hide StableSort;
    hide StartedBefore;
    hide OutcomeOf;
    LatestAre(s, MATRIX_RUNS);
  }

  lemma LatestAre(s: seq<StepOccurrence>, n: nat)
    ensures var r := Outcomes(Latest(s, n));
            && |r| == (if |s| < n then |s| else n)
            && forall i :: 0 <= i < |r| ==>
                 var occ := s[|s| - |r| + i]; r[i] == OutcomeOf(occ.status, occ.conclusion)
  {
    hide OutcomeOf;
  }

  lemma SameLength<T>(a: seq<T>, b: seq<T>)
    requires multiset(a) == multiset(b)
    ensures |a| == |b|
  {
    assert |multiset(a)| == |a| && |multiset(b)| == |b|;
  }

  function KeyOf(e: FlakyStep): StepKey { e.key }

  predicate KeyLess(a: StepKey, b: StepKey) {
    RefLess(a.pipeline, b.pipeline) || (a.pipeline == b.pipeline && Less(a.step, b.step))
  }

  lemma KeyLessTotal(a: StepKey, b: StepKey)
    ensures KeyLess(a, b) || a == b || KeyLess(b, a)
    ensures !(KeyLess(a, b) && KeyLess(b, a))
    ensures !KeyLess(a, a)
  {
    RefLessTotal(a.pipeline, b.pipeline);
    LessTotal(a.step, b.step);
    LessTotal(a.step, a.step);
    RefLessTotal(a.pipeline, a.pipeline);
  }

  lemma KeyLessTransitive(a: StepKey, b: StepKey, c: StepKey)
    requires KeyLess(a, b) && KeyLess(b, c)
    ensures KeyLess(a, c)
  {
    if RefLess(a.pipeline, b.pipeline) && RefLess(b.pipeline, c.pipeline) {
      RefLessTransitive(a.pipeline, b.pipeline, c.pipeline);
    } else if a.pipeline == b.pipeline == c.pipeline {
      LessTransitive(a.step, b.step, c.step);
    }
  }

  /** Flakiest first, then by run count, then by pipeline and step name. */
  predicate RanksBefore(a: FlakyStep, b: FlakyStep) {
    || a.flakeRate > b.flakeRate
    || (a.flakeRate == b.flakeRate && a.runCount > b.runCount)
    || (a.flakeRate == b.flakeRate && a.runCount == b.runCount && KeyLess(a.key, b.key))
  }

  predicate RanksWith(a: FlakyStep, b: FlakyStep) {
    !RanksBefore(b, a)
  }

  lemma RanksTransitive(a: FlakyStep, b: FlakyStep, c: FlakyStep)
    requires RanksWith(a, b) && RanksWith(b, c)
    ensures RanksWith(a, c)
  {
    KeyLessTotal(a.key, b.key);
    KeyLessTotal(b.key, c.key);
    KeyLessTotal(a.key, c.key);
    if KeyLess(a.key, b.key) && KeyLess(b.key, c.key) {
      KeyLessTransitive(a.key, b.key, c.key);
    }
  }

  lemma RanksTotal()
    ensures TotalPreorder(RanksWith)
  {
    forall a, b
      ensures RanksWith(a, b) || RanksWith(b, a)
    {
      KeyLessTotal(a.key, b.key);
    }
    forall a, b, c | RanksWith(a, b) && RanksWith(b, c)
      ensures RanksWith(a, c)
    {
      RanksTransitive(a, b, c);
    }
  }

  ghost predicate StrictlyRanked(d: seq<FlakyStep>) {
    forall i, j :: 0 <= i < j < |d| ==> RanksBefore(d[i], d[j])
  }

  /** The whole list, before paging: exactly the steps that passed and failed, each with its mark. */
  ghost predicate IsFlakyList(steps: seq<WindowStep>, active: map<StepKey, Quarantine>, d: seq<FlakyStep>) {
    && StrictlyRanked(d)
    && (forall k :: PassedAndFailed(OccurrencesOf(steps, k)) <==> Named(d, KeyOf, k))
    && (forall e :: e in d ==>
          && IsEntry(OccurrencesOf(steps, e.key), e)
          && e.quarantine == if e.key in active then Some(active[e.key]) else None)
  }

  method GroupCompleted(steps: seq<WindowStep>) returns (byStep: map<StepKey, seq<StepOccurrence>>)
    ensures forall k :: k in byStep <==> OccurrencesOf(steps, k) != []
    ensures forall k :: k in byStep ==> byStep[k] == OccurrencesOf(steps, k)
  {
    byStep := map[];
    var i := 0;
    while i < |steps|
      invariant 0 <= i <= |steps|
      invariant forall k :: k in byStep <==> OccurrencesOf(steps[..i], k) != []
      invariant forall k :: k in byStep ==> byStep[k] == OccurrencesOf(steps[..i], k)
    {
      var ws := steps[i];
      forall k
        ensures OccurrencesOf(steps[..i + 1], k) ==
                OccurrencesOf(steps[..i], k) +
                if ws.step.status == "completed" && StepKey(ws.pipeline, ws.step.name) == k then [ws.step] else []
      {
        assert steps[..i + 1][..i] == steps[..i];
      }
      hide OccurrencesOf;
      if ws.step.status == "completed" {
        var k := StepKey(ws.pipeline, ws.step.name);
        byStep := byStep[k := (if k in byStep then byStep[k] else []) + [ws.step]];
      }
      i := i + 1;
    }
    assert steps[..i] == steps;
  }

  /** The entries in the order the map gave them up. */
  method CollectEntries(steps: seq<WindowStep>, active: map<StepKey, Quarantine>) returns (list: seq<FlakyStep>)
    ensures DistinctNames(list, KeyOf)
    ensures forall k :: PassedAndFailed(OccurrencesOf(steps, k)) <==> Named(list, KeyOf, k)
    ensures forall e :: e in list ==>
      && IsEntry(OccurrencesOf(steps, e.key), e)
      && e.quarantine == if e.key in active then Some(active[e.key]) else None
  {
    var byStep := GroupCompleted(steps);
    list := [];
    forall k | OccurrencesOf(steps, k) == []
      ensures !PassedAndFailed(OccurrencesOf(steps, k))
    {
    }
    hide OccurrencesOf;
    hide PassedAndFailed;
    hide IsEntry;
    var todo := byStep.Keys;
    while todo != {}
      invariant todo <= byStep.Keys
      invariant DistinctNames(list, KeyOf)
      invariant forall k :: Named(list, KeyOf, k) <==> k in byStep && k !in todo && PassedAndFailed(byStep[k])
      invariant forall e :: e in list ==>
        && IsEntry(OccurrencesOf(steps, e.key), e)
        && e.quarantine == if e.key in active then Some(active[e.key]) else None
    {
      var k :| k in todo;
      var made := MakeEntry(k, byStep[k]);
      if made.Some? {
        var entry := made.value.(quarantine := if k in active then Some(active[k]) else None);
        SameFigures(byStep[k], made.value, entry);
        DistinctMore(list, KeyOf, entry);
        forall other {
          NamedMore(list, KeyOf, entry, other);
        }
        list := list + [entry];
      }
      todo := todo - {k};
    }
  }

  lemma SameFigures(occs: seq<StepOccurrence>, a: FlakyStep, b: FlakyStep)
    requires IsEntry(occs, a) && b == a.(quarantine := b.quarantine)
    ensures IsEntry(occs, b)
  {
  }

  method RankFlakySteps(steps: seq<WindowStep>, active: map<StepKey, Quarantine>) returns (ranked: seq<FlakyStep>)
    ensures IsFlakyList(steps, active, ranked)
  {
    var list := CollectEntries(steps, active);
    hide IsEntry;
    hide PassedAndFailed;
    hide OccurrencesOf;
    RanksTotal();
    ranked := Sort(RanksWith, list);
    SortRanksFlaky(list, ranked);
  }

  lemma SortRanksFlaky(list: seq<FlakyStep>, ranked: seq<FlakyStep>)
    requires DistinctNames(list, KeyOf) && SortOf(RanksWith, list, ranked)
    ensures StrictlyRanked(ranked)
    ensures forall e :: e in ranked <==> e in list
    ensures forall k :: Named(ranked, KeyOf, k) <==> Named(list, KeyOf, k)
  {
    DistinctSurvives(list, ranked, KeyOf);
    forall k {
      SameNamed(list, ranked, KeyOf, k);
    }
    forall i, j | 0 <= i < j < |ranked|
      ensures RanksBefore(ranked[i], ranked[j])
    {
      assert RanksWith(ranked[i], ranked[j]);
      assert KeyOf(ranked[i]) != KeyOf(ranked[j]);
      KeyLessTotal(ranked[i].key, ranked[j].key);
    }
  }

  lemma FlakyInBoth(
    steps: seq<WindowStep>, active: map<StepKey, Quarantine>, a: seq<FlakyStep>, b: seq<FlakyStep>, e: FlakyStep)
    requires IsFlakyList(steps, active, a) && IsFlakyList(steps, active, b) && e in a
    ensures e in b
  {
    var i :| 0 <= i < |a| && a[i] == e;
    assert Named(a, KeyOf, e.key);
    var j :| 0 <= j < |b| && KeyOf(b[j]) == e.key;
    assert b[j] in b;
  }

  /** The ranking is the same whatever order the map of steps was read in. */
  lemma FlakyListUnique(
    steps: seq<WindowStep>, active: map<StepKey, Quarantine>, a: seq<FlakyStep>, b: seq<FlakyStep>)
    requires IsFlakyList(steps, active, a) && IsFlakyList(steps, active, b)
    ensures a == b
  {
    forall e: FlakyStep
      ensures e in a <==> e in b
    {
      if e in a {
        FlakyInBoth(steps, active, a, b, e);
      }
      if e in b {
        FlakyInBoth(steps, active, b, a, e);
      }
    }
    forall x, y | RanksBefore(x, y)
      ensures !RanksBefore(y, x)
    {
      KeyLessTotal(x.key, y.key);
    }
    hide RanksBefore;
    hide IsEntry;
    hide PassedAndFailed;
    StrictlySortedUnique(RanksBefore, a, b);
  }
}
