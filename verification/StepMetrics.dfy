/** One pipeline's step occurrences, grouped by step name and summarised. */
module StepMetrics {
  import opened Common
  import opened Ordering
  import opened Sums
  import opened Tally
  import opened MetricTypes

  datatype Quarantine = Quarantine(note: string, quarantinedAt: int, expiresAt: int)

  /** A step, for quarantine and flakiness: one name within one pipeline. */
  datatype StepKey = StepKey(pipeline: PipelineRef, step: string)

  datatype Step = Step(
    name: string, durationSeconds: real, queueSeconds: real, failureRate: real, failureCount: int,
    flaky: bool, quarantine: Option<Quarantine>, forgeUrl: string)

  function CompletedName(occ: StepOccurrence): Option<string> {
    if occ.status == "completed" then Some(occ.name) else None
  }

  function SuccessName(occ: StepOccurrence): Option<string> {
    if occ.status == "completed" && occ.conclusion == "success" then Some(occ.name) else None
  }

  function FailureName(occ: StepOccurrence): Option<string> {
    if occ.status == "completed" && occ.conclusion == "failure" then Some(occ.name) else None
  }

  function AnyName(occ: StepOccurrence): Option<string> {
    Some(occ.name)
  }

  function UnitOcc(occ: StepOccurrence): int { 1 }

  function Completed(occs: seq<StepOccurrence>, name: string): int {
    Sum(occs, CompletedName, UnitOcc, name)
  }

  function FailureCount(occs: seq<StepOccurrence>, name: string): int {
    Sum(occs, FailureName, UnitOcc, name)
  }

  /** Seconds between two recorded times. */
  function DurationSeconds(start: Option<int>, end: Option<int>): Option<real> {
    if start.None? || end.None? then None else Some((end.value - start.value) as real / 1000000000.0)
  }

  function AddAll(values: seq<real>): real {
    if values == [] then 0.0 else AddAll(values[..|values| - 1]) + values[|values| - 1]
  }

  function Average(values: seq<real>): real {
    if values == [] then 0.0 else AddAll(values) / |values| as real
  }

  /** The recorded durations of one step, in order. */
  function Durations(occs: seq<StepOccurrence>, name: string, of: StepOccurrence -> Option<real>): seq<real> {
    if occs == [] then []
    else
      var last := occs[|occs| - 1];
      Durations(occs[..|occs| - 1], name, of) + if last.name == name && of(last).Some? then [of(last).value] else []
  }

  function ExecOf(occ: StepOccurrence): Option<real> {
    DurationSeconds(occ.startedAt, occ.completedAt)
  }

  function QueueOf(occ: StepOccurrence): Option<real> {
    DurationSeconds(occ.jobQueuedAt, occ.jobStartedAt)
  }

  /** The first recorded page of a step, "" if none is. */
  function FirstUrl(occs: seq<StepOccurrence>, name: string): string {
    if occs == [] then ""
    else
      var url := FirstUrl(occs[..|occs| - 1], name);
      if url == "" && occs[|occs| - 1].name == name then occs[|occs| - 1].jobForgeUrl else url
  }

  /** A step is flaky when it completed with both a success and a failure. */
  ghost predicate IsFlaky(occs: seq<StepOccurrence>, name: string) {
    HasKey(occs, SuccessName, name) && HasKey(occs, FailureName, name)
  }

  datatype StepAcc = StepAcc(
    execSecs: seq<real>, queueSecs: seq<real>, total: int, failed: int,
    sawSuccess: bool, sawFailure: bool, forgeUrl: string)
  {
    /** stepAcc.add */
    function Add(occ: StepOccurrence): StepAcc {
      var completed := occ.status == "completed";
      StepAcc(
        if ExecOf(occ).Some? then execSecs + [ExecOf(occ).value] else execSecs,
        if QueueOf(occ).Some? then queueSecs + [QueueOf(occ).value] else queueSecs,
        if completed then total + 1 else total,
        if completed && occ.conclusion == "failure" then failed + 1 else failed,
        sawSuccess || (completed && occ.conclusion == "success"),
        sawFailure || (completed && occ.conclusion == "failure"),
        if forgeUrl == "" then occ.jobForgeUrl else forgeUrl)
    }
  }

  const EMPTY_ACC := StepAcc([], [], 0, 0, false, false, "")

  /** What an accumulator holds, read off the occurrences it was given. */
  ghost predicate Accumulates(occs: seq<StepOccurrence>, name: string, acc: StepAcc) {
    && acc.execSecs == Durations(occs, name, ExecOf)
    && acc.queueSecs == Durations(occs, name, QueueOf)
    && acc.total == Completed(occs, name)
    && acc.failed == FailureCount(occs, name)
    && (acc.sawSuccess <==> HasKey(occs, SuccessName, name))
    && (acc.sawFailure <==> HasKey(occs, FailureName, name))
    && acc.forgeUrl == FirstUrl(occs, name)
  }

  lemma DurationsMore(occs: seq<StepOccurrence>, name: string, of: StepOccurrence -> Option<real>, occ: StepOccurrence)
    ensures Durations(occs + [occ], name, of) ==
            Durations(occs, name, of) + if occ.name == name && of(occ).Some? then [of(occ).value] else []
  {
    assert (occs + [occ])[..|occs|] == occs;
  }

  lemma UrlMore(occs: seq<StepOccurrence>, name: string, occ: StepOccurrence)
    ensures FirstUrl(occs + [occ], name) ==
            if FirstUrl(occs, name) == "" && occ.name == name then occ.jobForgeUrl else FirstUrl(occs, name)
  {
    assert (occs + [occ])[..|occs|] == occs;
  }

  lemma AccumulatesMore(occs: seq<StepOccurrence>, name: string, acc: StepAcc, occ: StepOccurrence)
    requires Accumulates(occs, name, acc)
    ensures Accumulates(occs + [occ], name, if occ.name == name then acc.Add(occ) else acc)
  {
    DurationsMore(occs, name, ExecOf, occ);
    DurationsMore(occs, name, QueueOf, occ);
    UrlMore(occs, name, occ);
    SumMore(occs, CompletedName, UnitOcc, occ, name);
    SumMore(occs, FailureName, UnitOcc, occ, name);
    HasKeyMore(occs, SuccessName, occ, name);
    HasKeyMore(occs, FailureName, occ, name);
    hide Durations;
    hide FirstUrl;
    hide Sum;
    hide HasKey;
    hide DurationSeconds;
  }

  function StepName(s: Step): string { s.name }

  /** Longest first; nothing is promised about steps of equal duration. */
  predicate LongerFirst(a: Step, b: Step) {
    a.durationSeconds >= b.durationSeconds
  }

  ghost predicate IsSummary(occs: seq<StepOccurrence>, s: Step) {
    && s.durationSeconds == Average(Durations(occs, s.name, ExecOf))
    && s.queueSeconds == Average(Durations(occs, s.name, QueueOf))
    && s.failureRate == Rate(FailureCount(occs, s.name), Completed(occs, s.name))
    && s.failureCount == FailureCount(occs, s.name)
    && (s.flaky <==> IsFlaky(occs, s.name))
    && s.quarantine == None
    && s.forgeUrl == FirstUrl(occs, s.name)
  }

  /** aggregateSteps: one summary for each step name, longest first. */
  ghost predicate IsAggregate(occs: seq<StepOccurrence>, steps: seq<Step>) {
    && DistinctNames(steps, StepName)
    && (forall k :: HasKey(occs, AnyName, k) <==> Named(steps, StepName, k))
    && (forall s :: s in steps ==> IsSummary(occs, s))
    && Sorted(LongerFirst, steps)
  }

  function Same(name: string): string { name }

  ghost predicate Grouped(occs: seq<StepOccurrence>, byName: map<string, StepAcc>, order: seq<string>) {
    && DistinctNames(order, Same)
    && (forall k :: k in byName <==> HasKey(occs, AnyName, k))
    && (forall k :: k in byName <==> Named(order, Same, k))
    && (forall k :: Accumulates(occs, k, AccAt(byName, k)))
  }

  function AccAt(byName: map<string, StepAcc>, name: string): StepAcc {
    if name in byName then byName[name] else EMPTY_ACC
  }

  lemma GroupMore(occs: seq<StepOccurrence>, byName: map<string, StepAcc>, order: seq<string>, occ: StepOccurrence)
    requires Grouped(occs, byName, order)
    ensures Grouped(occs + [occ], byName[occ.name := AccAt(byName, occ.name).Add(occ)],
                    if occ.name in byName then order else order + [occ.name])
  {
    var next := byName[occ.name := AccAt(byName, occ.name).Add(occ)];
    hide Accumulates;
    forall k
      ensures Accumulates(occs + [occ], k, AccAt(next, k))
    {
      assert Accumulates(occs, k, AccAt(byName, k));
      AccumulatesMore(occs, k, AccAt(byName, k), occ);
    }
    forall k
      ensures HasKey(occs + [occ], AnyName, k) <==> HasKey(occs, AnyName, k) || occ.name == k
      ensures Named(order + [occ.name], Same, k) <==> Named(order, Same, k) || occ.name == k
    {
      NamedMore(order, Same, occ.name, k);
      HasKeyMore(occs, AnyName, occ, k);
    }
    hide HasKey;
    if occ.name !in byName {
      assert !Named(order, Same, Same(occ.name));
      DistinctMore(order, Same, occ.name);
    }
  }

  method GroupByName(occs: seq<StepOccurrence>) returns (byName: map<string, StepAcc>, order: seq<string>)
    ensures Grouped(occs, byName, order)
  {
    byName, order := map[], [];
    GroupNone();
    var i := 0;
    hide Grouped;
    hide StepAcc.Add;
    while i < |occs|
      invariant 0 <= i <= |occs|
      invariant Grouped(occs[..i], byName, order)
    {
      var occ := occs[i];
      GroupMore(occs[..i], byName, order, occ);
      assert occs[..i + 1] == occs[..i] + [occ];
      var acc := EMPTY_ACC;
      if occ.name in byName {
        acc := byName[occ.name];
      } else {
        order := order + [occ.name];
      }
      byName := byName[occ.name := acc.Add(occ)];
      i := i + 1;
    }
    assert occs[..i] == occs;
  }

  lemma GroupNone()
    ensures Grouped([], map[], [])
  {
  }

  function Summarise(name: string, a: StepAcc): Step {
    Step(name, Average(a.execSecs), Average(a.queueSecs), Rate(a.failed, a.total), a.failed,
         a.sawSuccess && a.sawFailure, None, a.forgeUrl)
  }

  method AggregateSteps(occs: seq<StepOccurrence>) returns (steps: seq<Step>)
    ensures IsAggregate(occs, steps)
  {
    var byName, order := GroupByName(occs);
    var unsorted := ListSummaries(occs, byName, order);
    hide IsSummary;
    steps := Sort(LongerFirst, unsorted);
    DistinctSurvives(unsorted, steps, StepName);
    forall k {
      SameNamed(unsorted, steps, StepName, k);
    }
  }

  method ListSummaries(ghost occs: seq<StepOccurrence>, byName: map<string, StepAcc>, order: seq<string>)
    returns (list: seq<Step>)
    requires Grouped(occs, byName, order)
    ensures DistinctNames(list, StepName)
    ensures forall k :: Named(list, StepName, k) <==> HasKey(occs, AnyName, k)
    ensures forall s :: s in list ==> IsSummary(occs, s)
  {
    list := [];
    var i := 0;
    while i < |order|
      invariant 0 <= i <= |order| == |order|
      invariant |list| == i && forall j :: 0 <= j < i ==> list[j].name == order[j]
      invariant forall s :: s in list ==> IsSummary(occs, s)
    {
      var name := order[i];
      assert Named(order, Same, name);
      assert Accumulates(occs, name, AccAt(byName, name));
      list := list + [Summarise(name, byName[name])];
      i := i + 1;
    }
    hide IsSummary;
    forall k
      ensures Named(list, StepName, k) <==> Named(order, Same, k)
    {
    }
    hide Accumulates;
    assert forall j, m :: 0 <= j < m < |list| ==> Same(order[j]) != Same(order[m]);
  }

  /** withQuarantines: the mark on each step that has one. */
  method WithQuarantines(steps: seq<Step>, pipeline: PipelineRef, active: map<StepKey, Quarantine>)
    returns (marked: seq<Step>)
    ensures marked == Marked(steps, pipeline, active) && |marked| == |steps|
    ensures forall i :: 0 <= i < |steps| ==>
              var key := StepKey(pipeline, steps[i].name);
              && marked[i].(quarantine := steps[i].quarantine) == steps[i]
              && marked[i].quarantine == if key in active then Some(active[key]) else steps[i].quarantine
  {
    marked := steps;
    var i := 0;
    while i < |steps|
      invariant 0 <= i <= |steps| == |marked|
      invariant forall j :: 0 <= j < i ==> marked[j] == Mark(steps[j], pipeline, active)
      invariant forall j :: i <= j < |steps| ==> marked[j] == steps[j]
    {
      var key := StepKey(pipeline, steps[i].name);
      if key in active {
        marked := marked[i := marked[i].(quarantine := Some(active[key]))];
      }
      i := i + 1;
    }
  }

  function Mark(s: Step, pipeline: PipelineRef, active: map<StepKey, Quarantine>): Step {
    var key := StepKey(pipeline, s.name);
    if key in active then s.(quarantine := Some(active[key])) else s
  }

  function Marked(steps: seq<Step>, pipeline: PipelineRef, active: map<StepKey, Quarantine>): (marked: seq<Step>)
    ensures |marked| == |steps|
  {
    seq(|steps|, i requires 0 <= i < |steps| => Mark(steps[i], pipeline, active))
  }

  predicate CountsAsFlaky(s: Step) {
    s.flaky && s.quarantine.None?
  }
}
