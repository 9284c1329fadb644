/**
What a pipeline's step summaries and the flaky-step list say, in the fields of the step occurrences
they were made from.
*/
module StepReadings {
  import opened Common
  import opened Ordering
  import opened Sums
  import opened Tally
  import opened MetricTypes
  import opened StepMetrics
  import opened Flaky
  import FlakyRatio
  import Readings

  lemma RunsCounted(occs: seq<StepOccurrence>, name: string)
    ensures FailureCount(occs, name) ==
            Count(occs, (o: StepOccurrence) => o.name == name && o.status == "completed" && o.conclusion == "failure")
    ensures Completed(occs, name) ==
            Count(occs, (o: StepOccurrence) => o.name == name && o.status == "completed")
  {
    SumIsCount(occs, FailureName, UnitOcc, name,
               (o: StepOccurrence) => o.name == name && o.status == "completed" && o.conclusion == "failure");
    SumIsCount(occs, CompletedName, UnitOcc, name, (o: StepOccurrence) => o.name == name && o.status == "completed");
  }

  /** A recorded stretch between two times of a step's occurrences. */
  function Stretch(
    name: string, from: StepOccurrence -> Option<int>, to: StepOccurrence -> Option<int>): StepOccurrence -> Option<()>
  {
    (o: StepOccurrence) => if o.name == name && from(o).Some? && to(o).Some? then Some(()) else None
  }

  function Nanos(from: StepOccurrence -> Option<int>, to: StepOccurrence -> Option<int>): StepOccurrence -> int {
    (o: StepOccurrence) => if from(o).Some? && to(o).Some? then to(o).value - from(o).value else 0
  }

  lemma {:induction false} StretchesAddUp(
    occs: seq<StepOccurrence>, name: string, of: StepOccurrence -> Option<real>,
    from: StepOccurrence -> Option<int>, to: StepOccurrence -> Option<int>)
    requires forall o :: of(o) == DurationSeconds(from(o), to(o))
    ensures AddAll(Durations(occs, name, of)) * 1000000000.0 ==
            Sum(occs, Stretch(name, from, to), Nanos(from, to), ()) as real
    ensures |Durations(occs, name, of)| ==
            Count(occs, (o: StepOccurrence) => o.name == name && from(o).Some? && to(o).Some?)
  {
    var recorded := (o: StepOccurrence) => o.name == name && from(o).Some? && to(o).Some?;
    if occs == [] {
      CountNone(recorded);
    } else {
      var init, last := occs[..|occs| - 1], occs[|occs| - 1];
      StretchesAddUp(init, name, of, from, to);
      CountMore(init, last, recorded);
      assert occs == init + [last];
      hide Count;
      if recorded(last) {
        var all, d := Durations(init, name, of), of(last).value;
        assert Durations(occs, name, of) == all + [d];
        assert (all + [d])[..|all|] == all;
      } else {
        assert Durations(init, name, of) + [] == Durations(init, name, of);
      }
    }
  }

  lemma Positions<T>(s: seq<T>, p: T -> bool, at: set<int>)
    requires forall i :: i in at <==> 0 <= i < |s| && p(s[i])
    ensures Count(s, p) == |at|
  {
    assert at == set i | 0 <= i < |s| && p(s[i]);
  }

  /** The lengths of a step's recorded stretches, by position. */
  ghost predicate Recorded(
    occs: seq<StepOccurrence>, name: string,
    from: StepOccurrence -> Option<int>, to: StepOccurrence -> Option<int>, nanos: map<int, int>)
  {
    && (forall i :: i in nanos <==> 0 <= i < |occs| && occs[i].name == name && from(occs[i]).Some? && to(occs[i]).Some?)
    && (forall i :: i in nanos ==> nanos[i] == to(occs[i]).value - from(occs[i]).value)
  }

  ghost predicate InSeconds(seconds: real, nanos: int) {
    seconds * 1000000000.0 == nanos as real
  }

  lemma StretchesCounted(
    occs: seq<StepOccurrence>, name: string, of: StepOccurrence -> Option<real>,
    from: StepOccurrence -> Option<int>, to: StepOccurrence -> Option<int>, nanos: map<int, int>)
    requires forall o :: of(o) == DurationSeconds(from(o), to(o))
    requires Recorded(occs, name, from, to, nanos)
    ensures |Durations(occs, name, of)| == |nanos|
  {
    StretchesAddUp(occs, name, of, from, to);
    Positions(occs, (o: StepOccurrence) => o.name == name && from(o).Some? && to(o).Some?, nanos.Keys);
    hide Count;
    hide Durations;
    assert |nanos.Keys| == |nanos|;
  }

  lemma StretchesSummed(
    occs: seq<StepOccurrence>, name: string, of: StepOccurrence -> Option<real>,
    from: StepOccurrence -> Option<int>, to: StepOccurrence -> Option<int>, nanos: map<int, int>)
    requires forall o :: of(o) == DurationSeconds(from(o), to(o))
    requires Recorded(occs, name, from, to, nanos)
    ensures InSeconds(AddAll(Durations(occs, name, of)), Total(nanos))
  {
    StretchesAddUp(occs, name, of, from, to);
    hide Durations;
    hide AddAll;
    SumIsTotal(occs, Stretch(name, from, to), Nanos(from, to), (), nanos);
  }

  /** The average is over the occurrences that have both times, and 0 when none has. */
  lemma AverageReads(
    occs: seq<StepOccurrence>, name: string, of: StepOccurrence -> Option<real>,
    from: StepOccurrence -> Option<int>, to: StepOccurrence -> Option<int>, nanos: map<int, int>)
    requires forall o :: of(o) == DurationSeconds(from(o), to(o))
    requires Recorded(occs, name, from, to, nanos)
    ensures IsMean(Average(Durations(occs, name, of)), |nanos|, Total(nanos))
  {
    StretchesCounted(occs, name, of, from, to, nanos);
    StretchesSummed(occs, name, of, from, to, nanos);
    hide *;
    AverageTimes(Durations(occs, name, of), |nanos|, Total(nanos));
  }

  /** A mean in seconds of n lengths that add up to some nanoseconds; 0 if there is none. */
  ghost predicate IsMean(seconds: real, n: int, nanos: int) {
    (n == 0 ==> seconds == 0.0) && seconds * n as real * 1000000000.0 == nanos as real
  }

  lemma AverageTimes(all: seq<real>, n: int, nanos: int)
    requires |all| == n && InSeconds(AddAll(all), nanos)
    ensures IsMean(Average(all), n, nanos)
  {
    if n > 0 {
      assert Average(all) * n as real == AddAll(all);
    }
  }

  /** A summary's page is the first one recorded of the step, and "" only if none is. */
  lemma {:induction false} UrlReads(occs: seq<StepOccurrence>, name: string)
    ensures var url := FirstUrl(occs, name);
            if url == "" then forall o :: o in occs && o.name == name ==> o.jobForgeUrl == ""
            else exists i :: 0 <= i < |occs| && occs[i].name == name && occs[i].jobForgeUrl == url
                             && forall j :: 0 <= j < i && occs[j].name == name ==> occs[j].jobForgeUrl == ""
  {
    if occs != [] {
      var init, last := occs[..|occs| - 1], occs[|occs| - 1];
      UrlReads(init, name);
      assert occs == init + [last];
      if FirstUrl(init, name) != "" {
        var i :| 0 <= i < |init| && init[i].name == name && init[i].jobForgeUrl == FirstUrl(init, name)
                 && forall j :: 0 <= j < i && init[j].name == name ==> init[j].jobForgeUrl == "";
        assert occs[i] == init[i];
      } else if last.name == name && last.jobForgeUrl != "" {
        assert occs[|init|] == last;
      }
    }
  }

  lemma FlakyReads(occs: seq<StepOccurrence>, name: string)
    ensures IsFlaky(occs, name) <==>
            && (exists o :: o in occs && o.name == name && o.status == "completed" && o.conclusion == "success")
            && (exists o :: o in occs && o.name == name && o.status == "completed" && o.conclusion == "failure")
  {
    Readings.Listed(occs, SuccessName, name);
    Readings.Listed(occs, FailureName, name);
    assert forall o :: SuccessName(o) == Some(name) <==>
                       o.name == name && o.status == "completed" && o.conclusion == "success";
    assert forall o :: FailureName(o) == Some(name) <==>
                       o.name == name && o.status == "completed" && o.conclusion == "failure";
    hide HasKey;
    hide SuccessName;
    hide FailureName;
  }

  /** A step's mean execution and queue time, over the occurrences that have both of the times. */
  lemma TimesRead(occs: seq<StepOccurrence>, s: Step, exec: map<int, int>, queue: map<int, int>)
    requires IsSummary(occs, s)
    requires forall i :: i in exec <==>
        0 <= i < |occs| && occs[i].name == s.name && occs[i].startedAt.Some? && occs[i].completedAt.Some?
    requires forall i :: i in exec ==> exec[i] == occs[i].completedAt.value - occs[i].startedAt.value
    requires forall i :: i in queue <==>
        0 <= i < |occs| && occs[i].name == s.name && occs[i].jobQueuedAt.Some? && occs[i].jobStartedAt.Some?
    requires forall i :: i in queue ==> queue[i] == occs[i].jobStartedAt.value - occs[i].jobQueuedAt.value
    ensures IsMean(s.durationSeconds, |exec|, Total(exec)) && IsMean(s.queueSeconds, |queue|, Total(queue))
  {
    AverageReads(occs, s.name, ExecOf, (o: StepOccurrence) => o.startedAt, (o: StepOccurrence) => o.completedAt, exec);
    AverageReads(
      occs, s.name, QueueOf, (o: StepOccurrence) => o.jobQueuedAt, (o: StepOccurrence) => o.jobStartedAt, queue);
    hide Durations;
    hide Total;
    hide Average;
    hide IsMean;
    hide Rate;
    hide FirstUrl;
  }

  /** Failures over completed runs, flaky if both results occurred, and the first page recorded. */
  lemma FiguresRead(occs: seq<StepOccurrence>, s: Step)
    requires IsSummary(occs, s)
    ensures s.failureCount ==
            Count(occs, (o: StepOccurrence) => o.name == s.name && o.status == "completed" && o.conclusion == "failure")
    ensures var completed := Count(occs, (o: StepOccurrence) => o.name == s.name && o.status == "completed");
            && (completed == 0 ==> s.failureRate == 0.0)
            && s.failureRate * completed as real == s.failureCount as real
    ensures s.flaky <==>
            && (exists o :: o in occs && o.name == s.name && o.status == "completed" && o.conclusion == "success")
            && (exists o :: o in occs && o.name == s.name && o.status == "completed" && o.conclusion == "failure")
    ensures if s.forgeUrl == "" then forall o :: o in occs && o.name == s.name ==> o.jobForgeUrl == ""
            else exists i :: 0 <= i < |occs| && occs[i].name == s.name && occs[i].jobForgeUrl == s.forgeUrl
                             && forall j :: 0 <= j < i && occs[j].name == s.name ==> occs[j].jobForgeUrl == ""
  {
    RunsCounted(occs, s.name);
    FlakyReads(occs, s.name);
    UrlReads(occs, s.name);
    CountSome(occs,
      (o: StepOccurrence) => o.name == s.name && o.status == "completed" && o.conclusion == "failure",
      (o: StepOccurrence) => o.name == s.name && o.status == "completed");
    hide Count;
    hide Sum;
    hide Durations;
    hide Average;
    hide FirstUrl;
    hide IsFlaky;
    if Completed(occs, s.name) != 0 {
      Readings.ShareOf(s.failureCount, Completed(occs, s.name), s.failureRate);
    }
  }

  /** Each step has one summary, and they come with the longest mean execution first. */
  lemma SummariesListed(occs: seq<StepOccurrence>, steps: seq<Step>)
    requires IsAggregate(occs, steps)
    ensures forall o :: o in occs ==> exists s :: s in steps && s.name == o.name
    ensures forall s :: s in steps ==> exists o :: o in occs && o.name == s.name
    ensures forall i, j :: 0 <= i < j < |steps| ==>
              steps[i].name != steps[j].name && steps[i].durationSeconds >= steps[j].durationSeconds
  {
    hide IsSummary;
    assert forall o, k :: AnyName(o) == Some(k) <==> o.name == k;
    forall o | o in occs
      ensures exists s :: s in steps && s.name == o.name
    {
      Readings.Listed(occs, AnyName, o.name);
      Readings.NamedEntry(steps, StepName, o.name);
    }
    forall s | s in steps
      ensures exists o :: o in occs && o.name == s.name
    {
      Readings.Listed(occs, AnyName, s.name);
      Readings.NamedEntry(steps, StepName, s.name);
    }
    assert forall i, j :: 0 <= i < j < |steps| ==>
        StepName(steps[i]) != StepName(steps[j]) && LongerFirst(steps[i], steps[j]);
  }

  // ---------------------------------------------------------------------------------------------
  // The flaky-step list
  // ---------------------------------------------------------------------------------------------

  /** The step ran to its end. */
  predicate Ran(ws: WindowStep, key: StepKey) {
    ws.pipeline == key.pipeline && ws.step.name == key.step && ws.step.status == "completed"
  }

  lemma RunsOfStep(steps: seq<WindowStep>, key: StepKey, conclusion: string)
    ensures |OccurrencesOf(steps, key)| == Count(steps, (ws: WindowStep) => Ran(ws, key))
    ensures CountOf(OccurrencesOf(steps, key), conclusion) ==
            Count(steps, (ws: WindowStep) => Ran(ws, key) && ws.step.conclusion == conclusion)
  {
    AllRuns(steps, key, (ws: WindowStep) => Ran(ws, key));
    RunsWith(steps, key, conclusion, (ws: WindowStep) => Ran(ws, key) && ws.step.conclusion == conclusion);
  }

  lemma {:induction false} AllRuns(steps: seq<WindowStep>, key: StepKey, p: WindowStep -> bool)
    requires forall ws :: p(ws) <==> Ran(ws, key)
    ensures |OccurrencesOf(steps, key)| == Count(steps, p)
  {
    if steps == [] {
      CountNone(p);
    } else {
      var init, last := steps[..|steps| - 1], steps[|steps| - 1];
      AllRuns(init, key, p);
      CountMore(init, last, p);
      assert steps == init + [last];
      hide Count;
      OneMoreRun(steps, key, "");
      hide OccurrencesOf;
      hide CountOf;
    }
  }

  lemma {:induction false} RunsWith(steps: seq<WindowStep>, key: StepKey, conclusion: string, p: WindowStep -> bool)
    requires forall ws :: p(ws) <==> Ran(ws, key) && ws.step.conclusion == conclusion
    ensures CountOf(OccurrencesOf(steps, key), conclusion) == Count(steps, p)
  {
    if steps == [] {
      CountNone(p);
    } else {
      var init, last := steps[..|steps| - 1], steps[|steps| - 1];
      RunsWith(init, key, conclusion, p);
      CountMore(init, last, p);
      assert steps == init + [last];
      hide Count;
      OneMoreRun(steps, key, conclusion);
      hide OccurrencesOf;
      hide CountOf;
    }
  }

  lemma OneMoreRun(steps: seq<WindowStep>, key: StepKey, conclusion: string)
    requires steps != []
    ensures var occs, last := OccurrencesOf(steps[..|steps| - 1], key), steps[|steps| - 1];
            && |OccurrencesOf(steps, key)| == |occs| + (if Ran(last, key) then 1 else 0)
            && CountOf(OccurrencesOf(steps, key), conclusion) ==
               CountOf(occs, conclusion) + (if Ran(last, key) && last.step.conclusion == conclusion then 1 else 0)
  {
    var occs, last := OccurrencesOf(steps[..|steps| - 1], key), steps[|steps| - 1];
    assert OccurrencesOf(steps, key) == if Ran(last, key) then occs + [last.step] else occs;
    hide OccurrencesOf;
    SumMore(occs, Concluding(conclusion), UnitOcc, last.step, ());
    hide Sum;
  }

  /** An entry's counts: a step is listed exactly if it both passed and failed, with its failures over its runs. */
  lemma EntryReads(steps: seq<WindowStep>, active: map<StepKey, Quarantine>, d: seq<FlakyStep>, e: FlakyStep)
    requires IsFlakyList(steps, active, d) && e in d
    ensures e.runCount == Count(steps, (ws: WindowStep) => Ran(ws, e.key))
    ensures e.flakeRate * e.runCount as real ==
            Count(steps, (ws: WindowStep) => Ran(ws, e.key) && ws.step.conclusion == "failure") as real
    ensures 0 < Count(steps, (ws: WindowStep) => Ran(ws, e.key) && ws.step.conclusion == "failure") < e.runCount
  {
    Readings.NamedEntry(d, KeyOf, e.key);
    var occs := OccurrencesOf(steps, e.key);
    RunsOfStep(steps, e.key, "success");
    RunsOfStep(steps, e.key, "failure");
    BothResults(occs);
    hide Count;
    hide CountOf;
    hide OccurrencesOf;
    hide Outcomes;
    Readings.ShareOf(CountOf(occs, "failure"), |occs|, e.flakeRate);
  }

  lemma {:induction false} BothResults(occs: seq<StepOccurrence>)
    ensures CountOf(occs, "success") + CountOf(occs, "failure") <= |occs|
  {
    if occs != [] {
      BothResults(occs[..|occs| - 1]);
    }
  }

  lemma StepsListed(steps: seq<WindowStep>, active: map<StepKey, Quarantine>, d: seq<FlakyStep>, key: StepKey)
    requires IsFlakyList(steps, active, d)
    ensures (exists e :: e in d && e.key == key) <==>
            && (exists ws :: ws in steps && Ran(ws, key) && ws.step.conclusion == "success")
            && (exists ws :: ws in steps && Ran(ws, key) && ws.step.conclusion == "failure")
  {
    Readings.NamedEntry(d, KeyOf, key);
    BothSeen(steps, key);
    hide PassedAndFailed;
    hide OccurrencesOf;
    hide IsEntry;
  }

  lemma BothSeen(steps: seq<WindowStep>, key: StepKey)
    ensures PassedAndFailed(OccurrencesOf(steps, key)) <==>
            && (exists ws :: ws in steps && Ran(ws, key) && ws.step.conclusion == "success")
            && (exists ws :: ws in steps && Ran(ws, key) && ws.step.conclusion == "failure")
  {
    RunsOfStep(steps, key, "success");
    RunsOfStep(steps, key, "failure");
    CountPositive(steps, (ws: WindowStep) => Ran(ws, key) && ws.step.conclusion == "success");
    CountPositive(steps, (ws: WindowStep) => Ran(ws, key) && ws.step.conclusion == "failure");
    hide Count;
    hide CountOf;
    hide OccurrencesOf;
  }

  /** Flakiest first, then the most runs, then by repository, pipeline and step name. */
  lemma FlakyOrder(steps: seq<WindowStep>, active: map<StepKey, Quarantine>, d: seq<FlakyStep>)
    requires IsFlakyList(steps, active, d)
    ensures forall i, j :: 0 <= i < j < |d| ==>
              var a, b := d[i].key, d[j].key;
              || d[i].flakeRate > d[j].flakeRate
              || (d[i].flakeRate == d[j].flakeRate && d[i].runCount > d[j].runCount)
              || (d[i].flakeRate == d[j].flakeRate && d[i].runCount == d[j].runCount
                  && (|| Less(a.pipeline.repoId, b.pipeline.repoId)
                      || (a.pipeline.repoId == b.pipeline.repoId
                          && (|| Less(a.pipeline.name, b.pipeline.name)
                              || (a.pipeline.name == b.pipeline.name && Less(a.step, b.step))))))
  {
    hide IsEntry;
    hide PassedAndFailed;
    hide Less;
    assert forall i, j :: 0 <= i < j < |d| ==> RanksBefore(d[i], d[j]);
  }

  /** What each cell of the result matrix shows of its run. */
  ghost predicate Cell(o: Outcome, occ: StepOccurrence) {
    && (o == Passed <==> occ.conclusion == "success")
    && (o == FailedOutcome <==> occ.conclusion in ["failure", "timed_out"])
    && (o == Cancelled <==> occ.conclusion == "cancelled")
    && (o == Skipped <==> occ.conclusion == "skipped")
    && (o == Running <==> occ.conclusion == "" && occ.status == "in_progress")
    && (o == Queued <==> occ.conclusion == "" && occ.status in ["queued", "waiting", "pending", "requested"])
  }

  lemma OutcomeReads(occ: StepOccurrence)
    ensures Cell(OutcomeOf(occ.status, occ.conclusion), occ)
  {
  }

  lemma {:induction false} OccurrencesBag(steps: seq<WindowStep>, key: StepKey, occ: StepOccurrence)
    ensures multiset(OccurrencesOf(steps, key))[occ] ==
            Count(steps, (ws: WindowStep) => Ran(ws, key) && ws.step == occ)
  {
    var same := (ws: WindowStep) => Ran(ws, key) && ws.step == occ;
    if steps == [] {
      CountNone(same);
    } else {
      var init, last := steps[..|steps| - 1], steps[|steps| - 1];
      OccurrencesBag(init, key, occ);
      CountMore(init, last, same);
      assert steps == init + [last];
      hide Count;
    }
  }

  /**
  An entry's matrix: of the step's runs, oldest start first and the ones without a start before those,
  the last forty, or all of fewer, each by its result.
  */
  lemma MatrixReads(steps: seq<WindowStep>, active: map<StepKey, Quarantine>, d: seq<FlakyStep>, e: FlakyStep)
    returns (s: seq<StepOccurrence>)
    requires IsFlakyList(steps, active, d) && e in d
    ensures forall occ :: multiset(s)[occ] == Count(steps, (ws: WindowStep) => Ran(ws, e.key) && ws.step == occ)
    ensures forall i, j :: 0 <= i < j < |s| ==>
              var a, b := s[i].runStartedAt, s[j].runStartedAt; a.None? || (b.Some? && a.value <= b.value)
    ensures |e.recent| == if |s| < 40 then |s| else 40
    ensures forall i :: 0 <= i < |e.recent| ==> Cell(e.recent[i], s[|s| - |e.recent| + i])
  {
    hide *;
    var occs := OccurrencesOf(steps, e.key);
    s := StableSort(StartedBefore, occs);
    SortedRuns(occs);
    AllOccurrences(steps, e.key);
    EntryOf(steps, active, d, e);
    ShownRuns(occs, e);
  }

  lemma AllOccurrences(steps: seq<WindowStep>, key: StepKey)
    ensures forall occ :: multiset(OccurrencesOf(steps, key))[occ] ==
                          Count(steps, (ws: WindowStep) => Ran(ws, key) && ws.step == occ)
  {
    forall occ
      ensures multiset(OccurrencesOf(steps, key))[occ] ==
              Count(steps, (ws: WindowStep) => Ran(ws, key) && ws.step == occ)
    {
      OccurrencesBag(steps, key, occ);
    }
  }

  lemma EntryOf(steps: seq<WindowStep>, active: map<StepKey, Quarantine>, d: seq<FlakyStep>, e: FlakyStep)
    requires IsFlakyList(steps, active, d) && e in d
    ensures IsEntry(OccurrencesOf(steps, e.key), e)
  {
  }

  lemma SortedRuns(occs: seq<StepOccurrence>)
    ensures var s := StableSort(StartedBefore, occs);
            && multiset(s) == multiset(occs)
            && forall i, j :: 0 <= i < j < |s| ==>
                 var a, b := s[i].runStartedAt, s[j].runStartedAt; a.None? || (b.Some? && a.value <= b.value)
  {
    StartedBeforeTotal();
    StableSortSorts(StartedBefore, occs);
    var s := StableSort(StartedBefore, occs);
    assert forall i, j :: 0 <= i < j < |s| ==> StartedBefore(s[i], s[j]);
  }

  lemma ShownRuns(occs: seq<StepOccurrence>, e: FlakyStep)
    requires IsEntry(occs, e)
    ensures var s := StableSort(StartedBefore, occs);
            && |e.recent| == (if |s| < 40 then |s| else 40)
            && forall i :: 0 <= i < |e.recent| ==> Cell(e.recent[i], s[|s| - |e.recent| + i])
  {
    hide StableSort;
    hide StartedBefore;
    hide IsEntry;
    hide OutcomeOf;
    hide Cell;
    var s := StableSort(StartedBefore, occs);
    MatrixShowsLatest(occs, e);
    SameLength(s, occs);
    forall i | 0 <= i < |e.recent|
      ensures Cell(e.recent[i], s[|s| - |e.recent| + i])
    {
      OutcomeReads(s[|s| - |e.recent| + i]);
    }
  }

  /**
  The flaky ratio: of the distinct steps of a window, run to their end or not, the part that both passed
  and failed and is not quarantined; 0 for an empty window.
  */
  lemma RatioReads(steps: seq<WindowStep>, active: map<StepKey, Quarantine>)
    returns (flaky: set<StepKey>, all: set<StepKey>)
    ensures forall k :: k in all <==> exists ws :: ws in steps && ws.pipeline == k.pipeline && ws.step.name == k.step
    ensures forall k :: k in flaky <==>
              && k !in active
              && (exists ws :: ws in steps && Ran(ws, k) && ws.step.conclusion == "success")
              && (exists ws :: ws in steps && Ran(ws, k) && ws.step.conclusion == "failure")
    ensures var ratio := Rate(|FlakyRatio.FlakyPairs(steps, active)|, |FlakyRatio.Pairs(steps)|);
            ratio * |all| as real == |flaky| as real && (steps == [] ==> ratio == 0.0)
  {
    all, flaky := FlakyRatio.Pairs(steps), FlakyRatio.FlakyPairs(steps, active);
    forall k
      ensures k in all <==> exists ws :: ws in steps && ws.pipeline == k.pipeline && ws.step.name == k.step
    {
      SeenAtAll(steps, k);
    }
    forall k
      ensures k in flaky <==>
                && k !in active
                && (exists ws :: ws in steps && Ran(ws, k) && ws.step.conclusion == "success")
                && (exists ws :: ws in steps && Ran(ws, k) && ws.step.conclusion == "failure")
    {
      FlakySeen(steps, active, k);
    }
    PartOfAll(steps, active);
    RatioOf(flaky, all);
    hide *;
  }

  lemma PartOfAll(steps: seq<WindowStep>, active: map<StepKey, Quarantine>)
    ensures FlakyRatio.FlakyPairs(steps, active) <= FlakyRatio.Pairs(steps)
    ensures steps == [] ==> FlakyRatio.Pairs(steps) == {}
  {
  }

  lemma FlakySeen(steps: seq<WindowStep>, active: map<StepKey, Quarantine>, k: StepKey)
    ensures k in FlakyRatio.FlakyPairs(steps, active) <==>
            && k !in active
            && (exists ws :: ws in steps && Ran(ws, k) && ws.step.conclusion == "success")
            && (exists ws :: ws in steps && Ran(ws, k) && ws.step.conclusion == "failure")
  {
    SeenAtAll(steps, k);
    BothSeen(steps, k);
    hide PassedAndFailed;
    hide OccurrencesOf;
  }

  lemma RatioOf(flaky: set<StepKey>, all: set<StepKey>)
    requires flaky <= all
    ensures Rate(|flaky|, |all|) * |all| as real == |flaky| as real
    ensures all == {} ==> Rate(|flaky|, |all|) == 0.0
  {
    if all != {} {
      Readings.ShareOf(|flaky|, |all|, Rate(|flaky|, |all|));
    }
  }

  lemma SeenAtAll(steps: seq<WindowStep>, k: StepKey)
    ensures k in FlakyRatio.Pairs(steps) <==>
            exists ws :: ws in steps && ws.pipeline == k.pipeline && ws.step.name == k.step
  {
    if ws :| ws in steps && ws.pipeline == k.pipeline && ws.step.name == k.step {
      assert StepKey(ws.pipeline, ws.step.name) == k;
    }
  }
}
