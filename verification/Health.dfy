/** A pipeline's health and its unhealthy steps, and what a quarantine may change of them. */
module Health {
  import opened Common
  import opened Ordering
  import opened Sums
  import opened MetricTypes
  import opened StepMetrics
  import opened Percentiles
  import opened Trends

  datatype Signal = FailureRateSignal | DurationRegression | FlakyStepSignal

  datatype Status = Healthy | Unhealthy

  const FAILURE_RATE_THRESHOLD := 0.2

  const REGRESSION_FACTOR := 1.5

  /** The ninetieth percentile duration, 0 when no run has one. */
  function P90(runs: seq<RunRecord>): real {
    Percentile(SortedDurations(runs), 0.9)
  }

  method RunsP90Duration(runs: seq<RunRecord>) returns (p90: real)
    ensures p90 == P90(runs)
  {
    AtMostTotal();
    var durations: seq<real> := [];
    var i := 0;
    while i < |runs|
      invariant 0 <= i <= |runs| && durations == DurationsOf(runs[..i])
    {
      assert runs[..i + 1][..i] == runs[..i];
      var d := DurationSeconds(runs[i].startedAt, runs[i].completedAt);
      if d.Some? {
        durations := durations + [d.value];
      }
      i := i + 1;
    }
    assert runs[..i] == runs;
    if durations == [] {
      return 0.0;
    }
    var sorted := SortStable(AtMost, durations);
    p90 := Percentile(sorted, 0.9);
  }

  /** Both windows have a duration, and the current one's is half as long again. */
  predicate Regressed(current: real, prior: real) {
    current != 0.0 && prior != 0.0 && current >= prior * REGRESSION_FACTOR
  }

  function SignalsOf(current: seq<RunRecord>, prior: seq<RunRecord>, hasFlaky: bool): seq<Signal> {
    (if Rate(FailedRuns(current), CompletedRuns(current)) >= FAILURE_RATE_THRESHOLD then [FailureRateSignal] else []) +
    (if Regressed(P90(current), P90(prior)) then [DurationRegression] else []) +
    (if hasFlaky then [FlakyStepSignal] else [])
  }

  lemma RateIsFifth(runs: seq<RunRecord>)
    ensures Rate(FailedRuns(runs), CompletedRuns(runs)) >= FAILURE_RATE_THRESHOLD <==>
            var completed := Count(runs, (r: RunRecord) => r.status == "completed");
            var failed := Count(runs, (r: RunRecord) => r.status == "completed" && r.conclusion == "failure");
            completed > 0 && 5 * failed >= completed
  {
    RunsCounted(runs);
    FailedAtMostCompleted(runs);
    Shared(FailedRuns(runs), CompletedRuns(runs));
    Fifth(FailedRuns(runs), CompletedRuns(runs));
    hide Count;
    hide Rate;
  }

  lemma Fifth(part: int, all: int)
    requires 0 <= part <= all
    ensures Rate(part, all) >= 0.2 <==> all > 0 && 5 * part >= all
  {
    if all > 0 {
      var r, n := part as real / all as real, all as real;
      assert r * n == part as real;
      Sign(r - 0.2, n);
      assert (r - 0.2) * n == part as real - 0.2 * n;
    }
  }

  lemma Sign(x: real, n: real)
    requires n > 0.0
    ensures x * n >= 0.0 <==> x >= 0.0
  {
  }

  lemma P90OfNone(runs: seq<RunRecord>)
    ensures (forall r :: r in runs ==> !Timed(r)) ==> P90(runs) == 0.0
  {
    SortedMembers(runs);
  }

  method ComputeHealth(current: seq<RunRecord>, prior: seq<RunRecord>, hasFlaky: bool)
    returns (status: Status, signals: seq<Signal>)
    ensures signals == SignalsOf(current, prior, hasFlaky)
    ensures FailureRateSignal in signals <==>
              var completed := Count(current, (r: RunRecord) => r.status == "completed");
              var failed := Count(current, (r: RunRecord) => r.status == "completed" && r.conclusion == "failure");
              completed > 0 && 5 * failed >= completed
    ensures DurationRegression in signals <==>
              && (exists r :: r in current && Timed(r)) && (exists r :: r in prior && Timed(r))
              && var now, before := Percentile(SortedDurations(current), 0.9), Percentile(SortedDurations(prior), 0.9);
                 now != 0.0 && before != 0.0 && 2.0 * now >= 3.0 * before
    ensures FlakyStepSignal in signals <==> hasFlaky
    ensures status.Healthy? <==> signals == []
  {
    RateIsFifth(current);
    P90OfNone(current);
    P90OfNone(prior);
    hide Count;
    hide SortedDurations;
    signals := [];
    var rate := OverallFailureRate(current);
    if rate >= FAILURE_RATE_THRESHOLD {
      signals := signals + [FailureRateSignal];
    }
    var now := RunsP90Duration(current);
    var before := RunsP90Duration(prior);
    if Regressed(now, before) {
      signals := signals + [DurationRegression];
    }
    if hasFlaky {
      signals := signals + [FlakyStepSignal];
    }
    status := if signals == [] then Healthy else Unhealthy;
  }

  predicate ShownUnhealthy(s: Step) {
    !(s.flaky && s.quarantine.Some?) && (s.flaky || s.failureRate > 0.0)
  }

  function UnhealthySteps(steps: seq<Step>): seq<Step> {
    Filter(steps, ShownUnhealthy)
  }

  /** The failing and the flaky steps, in order, but of the flaky ones only those without a mark. */
  lemma UnhealthyReads(steps: seq<Step>)
    ensures forall s :: multiset(UnhealthySteps(steps))[s] ==
              if if s.flaky then s.quarantine.None? else s.failureRate > 0.0 then multiset(steps)[s] else 0
    ensures exists at :: StandsAt(UnhealthySteps(steps), steps, at)
  {
    var at := FilterKeeps(steps, ShownUnhealthy);
    assert StandsAt(UnhealthySteps(steps), steps, at);
    FilterBag(steps, ShownUnhealthy);
  }

  lemma OneMoreStep(steps: seq<Step>, i: nat)
    requires i < |steps|
    ensures UnhealthySteps(steps[..i + 1]) ==
            UnhealthySteps(steps[..i]) + if ShownUnhealthy(steps[i]) then [steps[i]] else []
  {
    FilterMore(steps[..i], ShownUnhealthy, steps[i]);
    assert steps[..i + 1] == steps[..i] + [steps[i]];
  }

  method UnhealthyOf(steps: seq<Step>) returns (unhealthy: seq<Step>)
    ensures unhealthy == UnhealthySteps(steps)
    ensures forall s :: multiset(unhealthy)[s] ==
              if if s.flaky then s.quarantine.None? else s.failureRate > 0.0 then multiset(steps)[s] else 0
    ensures exists at :: StandsAt(unhealthy, steps, at)
  {
    assert UnhealthySteps([]) == [];
    hide UnhealthySteps;
    unhealthy := [];
    var i := 0;
    while i < |steps|
      invariant 0 <= i <= |steps| && unhealthy == UnhealthySteps(steps[..i])
    {
      OneMoreStep(steps, i);
      if !(steps[i].flaky && steps[i].quarantine.Some?) {
        if steps[i].flaky || steps[i].failureRate > 0.0 {
          unhealthy := unhealthy + [steps[i]];
        }
      }
      i := i + 1;
    }
    assert steps[..i] == steps;
    UnhealthyReads(steps);
    hide StandsAt;
  }

  ghost predicate AnyFlaky(steps: seq<Step>) {
    exists i :: 0 <= i < |steps| && CountsAsFlaky(steps[i])
  }

  /** A step's measured figures, without its mark. */
  function Figures(s: Step): Step {
    s.(quarantine := None)
  }

  function AllFigures(steps: seq<Step>): seq<Step> {
    seq(|steps|, i requires 0 <= i < |steps| => Figures(steps[i]))
  }

  /** a is b with some elements left out. */
  predicate Subsequence<T(==)>(a: seq<T>, b: seq<T>) {
    if a == [] then true
    else if b == [] then false
    else if a[|a| - 1] == b[|b| - 1] && Subsequence(a[..|a| - 1], b[..|b| - 1]) then true
    else Subsequence(a, b[..|b| - 1])
  }

  lemma SubsequenceMore<T>(a: seq<T>, b: seq<T>, x: T, kept: bool)
    requires Subsequence(a, b)
    ensures Subsequence(if kept then a + [x] else a, b + [x])
  {
    assert (b + [x])[..|b|] == b && (a + [x])[..|a|] == a;
  }

  /** More marks never show a step that fewer marks hid, nor change what is shown of one. */
  lemma {:induction false} MoreMarksShowLess(
    steps: seq<Step>, p: PipelineRef, few: map<StepKey, Quarantine>, many: map<StepKey, Quarantine>)
    requires few.Keys <= many.Keys
    requires forall s :: s in steps ==> s.quarantine.None?
    ensures Subsequence(AllFigures(UnhealthySteps(Marked(steps, p, many))),
        AllFigures(UnhealthySteps(Marked(steps, p, few))))
  {
    if steps != [] {
      var init, last := steps[..|steps| - 1], steps[|steps| - 1];
      MoreMarksShowLess(init, p, few, many);
      MarkedSnoc(steps, p, few);
      MarkedSnoc(steps, p, many);
      var a, b := UnhealthySteps(Marked(init, p, many)), UnhealthySteps(Marked(init, p, few));
      FiguresSnoc(a, Mark(last, p, many));
      FiguresSnoc(b, Mark(last, p, few));
      assert last in steps;
      assert Figures(Mark(last, p, many)) == Figures(Mark(last, p, few)) == last;
      assert ShownUnhealthy(Mark(last, p, many)) ==> ShownUnhealthy(Mark(last, p, few));
      hide Mark;
      hide Marked;
      hide Subsequence;
      hide AllFigures;
      if ShownUnhealthy(Mark(last, p, few)) {
        SubsequenceMore(AllFigures(a), AllFigures(b), last, ShownUnhealthy(Mark(last, p, many)));
      }
    }
  }

  lemma MarkedSnoc(steps: seq<Step>, p: PipelineRef, active: map<StepKey, Quarantine>)
    requires steps != []
    ensures var init, last := steps[..|steps| - 1], Mark(steps[|steps| - 1], p, active);
            && Marked(steps, p, active) == Marked(init, p, active) + [last]
            && UnhealthySteps(Marked(steps, p, active)) ==
               if ShownUnhealthy(last) then UnhealthySteps(Marked(init, p, active)) + [last]
               else UnhealthySteps(Marked(init, p, active))
  {
    var init, last := steps[..|steps| - 1], Mark(steps[|steps| - 1], p, active);
    assert Marked(steps, p, active) == Marked(init, p, active) + [last];
    assert (Marked(init, p, active) + [last])[..|steps| - 1] == Marked(init, p, active);
    assert UnhealthySteps(Marked(init, p, active)) + [] == UnhealthySteps(Marked(init, p, active));
  }

  lemma FiguresSnoc(steps: seq<Step>, s: Step)
    ensures AllFigures(steps + [s]) == AllFigures(steps) + [Figures(s)]
  {
  }

  /**
  Enlarging the set of marks leaves every figure as it was, and of a pipeline's signals can at
  most take the flaky-step one away; with that the only signal, the pipeline becomes healthy.
  */
  lemma MarksOnlyMute(
    steps: seq<Step>, p: PipelineRef, few: map<StepKey, Quarantine>, many: map<StepKey, Quarantine>,
    current: seq<RunRecord>, prior: seq<RunRecord>)
    requires few.Keys <= many.Keys
    requires forall s :: s in steps ==> s.quarantine.None?
    ensures AllFigures(Marked(steps, p, many)) == AllFigures(Marked(steps, p, few)) == steps
    ensures AnyFlaky(Marked(steps, p, many)) ==> AnyFlaky(Marked(steps, p, few))
    ensures var a := SignalsOf(current, prior, AnyFlaky(Marked(steps, p, few)));
            var b := SignalsOf(current, prior, AnyFlaky(Marked(steps, p, many)));
            (b == a || a == b + [FlakyStepSignal]) && (FlakyStepSignal in b ==> b == a)
  {
    assert forall i :: 0 <= i < |steps| ==> steps[i] in steps && Figures(Mark(steps[i], p, many)) == steps[i];
    assert forall i :: 0 <= i < |steps| ==> steps[i] in steps && Figures(Mark(steps[i], p, few)) == steps[i];
    if i :| 0 <= i < |steps| && CountsAsFlaky(Marked(steps, p, many)[i]) {
      assert CountsAsFlaky(Marked(steps, p, few)[i]);
    }
    hide P90;
    hide Rate;
  }
}
