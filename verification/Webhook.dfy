/** The webhook endpoint's writes: one for a workflow_run delivery, three for a workflow_job. */
module Webhook {
  import opened Common
  import opened Tables
  import opened RunStore
  import opened GithubClient
  import opened Reconcile

  datatype Delivery =
    | RunEvent(run: ForgeRun)
    | JobEvent(runId: int, workflow: string, job: JobSnapshot)
    | Malformed
    | OtherEvent

  /** What a job delivery knows of its run. */
  function Stub(workflow: string): RunData {
    RunData(workflow, "in_progress", "", None, None, "", "", "", "", "")
  }

  function DeliveryWrites(repo: string, d: Delivery): seq<Write> {
    match d
    case RunEvent(run) => [PutRun(RunKey(repo, run.id), RunOf(run))]
    case JobEvent(runId, workflow, job) =>
      [PutRun(RunKey(repo, runId), Stub(workflow))] + JobWrites(RunKey(repo, runId), job)
    case Malformed => []
    case OtherEvent => []
  }

  method ProcessGitHubEvent(store: Store, repo: string, d: Delivery) returns (ok: bool)
    requires store.Valid()
    modifies store
    ensures Kept(old(store.ids).runs, store.ids.runs) && Kept(old(store.ids).jobs, store.ids.jobs)
    ensures var p := Exec(old(store.db), DeliveryWrites(repo, d), old(store.faults));
            ok == (p.ok && !d.Malformed?) && Reached(store, old(store.log), p)
  {
    hide Tied;
    match d {
      case RunEvent(run) =>
        ok := ProcessWorkflowRun(store, repo, run);
      case JobEvent(runId, workflow, job) =>
        ok := ProcessWorkflowJob(store, repo, runId, workflow, job);
      case Malformed =>
        ok := false;
      case OtherEvent =>
        ok := true;
    }
  }

  method ProcessWorkflowRun(store: Store, repo: string, run: ForgeRun) returns (ok: bool)
    requires store.Valid()
    modifies store
    ensures Kept(old(store.ids).runs, store.ids.runs) && Kept(old(store.ids).jobs, store.ids.jobs)
    ensures var p := Exec(old(store.db), DeliveryWrites(repo, RunEvent(run)), old(store.faults));
            ok == p.ok && Reached(store, old(store.log), p)
  {
    hide Tied;
    One(store.db, PutRun(RunKey(repo, run.id), RunOf(run)), store.faults);
    var id := store.UpsertRun(RunKey(repo, run.id), RunOf(run));
    ok := id.Ok?;
  }

  method ProcessWorkflowJob(store: Store, repo: string, runId: int, workflow: string, job: JobSnapshot)
    returns (ok: bool)
    requires store.Valid()
    modifies store
    ensures Kept(old(store.ids).runs, store.ids.runs) && Kept(old(store.ids).jobs, store.ids.jobs)
    ensures var p := Exec(old(store.db), DeliveryWrites(repo, JobEvent(runId, workflow, job)), old(store.faults));
            ok == p.ok && Reached(store, old(store.log), p)
  {
    hide Tied;
    var key := RunKey(repo, runId);
    ghost var w := PutRun(key, Stub(workflow));
    Chained(store.db, [w], JobWrites(key, job), store.faults, store.log);
    One(store.db, w, store.faults);
    var run := store.UpsertRun(key, Stub(workflow));
    if run.Err? {
      return false;
    }
    store.RowOf(key);
    hide Exec;
    ok := StoreJobAndSteps(store, run.value, job);
  }
}
