/** What the metrics package computes from. Times and durations are in nanoseconds. */
module MetricTypes {
  import opened Common
  import opened Ordering

  datatype PipelineRef = PipelineRef(repoId: string, name: string)

  datatype RunRecord = RunRecord(
    id: string, status: string, conclusion: string, startedAt: Option<int>, completedAt: Option<int>)

  datatype WindowRun = WindowRun(pipeline: PipelineRef, run: RunRecord)

  datatype StepOccurrence = StepOccurrence(
    name: string, status: string, conclusion: string,
    startedAt: Option<int>, completedAt: Option<int>,
    jobQueuedAt: Option<int>, jobStartedAt: Option<int>, jobForgeUrl: string,
    runId: string, runStartedAt: Option<int>)

  datatype WindowStep = WindowStep(pipeline: PipelineRef, step: StepOccurrence)

  /** A timeout is a failure; a cancelled or skipped run is neither that nor a pass. */
  predicate IsFailed(conclusion: string) {
    conclusion == "failure" || conclusion == "timed_out"
  }

  predicate IsConcluded(conclusion: string) {
    conclusion == "success" || IsFailed(conclusion)
  }

  predicate IsFailedStep(occ: StepOccurrence) {
    occ.status == "completed" && IsFailed(occ.conclusion)
  }

  predicate RefLess(a: PipelineRef, b: PipelineRef) {
    Less(a.repoId, b.repoId) || (a.repoId == b.repoId && Less(a.name, b.name))
  }

  lemma RefLessTotal(a: PipelineRef, b: PipelineRef)
    ensures RefLess(a, b) || a == b || RefLess(b, a)
    ensures !(RefLess(a, b) && RefLess(b, a))
    ensures !RefLess(a, a)
  {
    LessTotal(a.repoId, b.repoId);
    LessTotal(a.name, b.name);
    LessTotal(a.name, a.name);
  }

  lemma RefLessTransitive(a: PipelineRef, b: PipelineRef, c: PipelineRef)
    requires RefLess(a, b) && RefLess(b, c)
    ensures RefLess(a, c)
  {
    if Less(a.repoId, b.repoId) && Less(b.repoId, c.repoId) {
      LessTransitive(a.repoId, b.repoId, c.repoId);
    } else if a.repoId == b.repoId == c.repoId {
      LessTransitive(a.name, b.name, c.name);
    }
  }
}
