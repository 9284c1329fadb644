/**
What polls and deliveries leave in the tables, column by column, against what the forge said: of a
GitHub repository, of a Forgejo one and of one without a client.
*/
module Columns {
  import opened Common
  import opened Tables
  import opened RunStore
  import opened GithubClient
  import ForgejoClient
  import opened Reconcile
  import opened Webhook
  import opened PollCache

  /** A run's job rows are the forge's, a job listed twice as its last entry has it, and no others changed. */
  ghost predicate ShowsJobs(
    after: map<JobKey, JobView>, before: map<JobKey, JobView>, key: RunKey, jobs: seq<JobSnapshot>)
  {
    && (forall i :: 0 <= i < |jobs| && (forall j :: i < j < |jobs| ==> jobs[j].id != jobs[i].id) ==>
          Lookup(after, JobKey(key, jobs[i].id)) == Some(JobView(jobs[i].data, jobs[i].steps)))
    && (forall id :: (forall i :: 0 <= i < |jobs| ==> jobs[i].id != id) ==>
          Lookup(after, JobKey(key, id)) == Lookup(before, JobKey(key, id)))
  }

  // ---------------------------------------------------------------------------------------------
  // The store's writes
  // ---------------------------------------------------------------------------------------------

  /** A run write needs its repository; it sets every column of its row but the commit metadata it lacks. */
  lemma RunWritten(db: DB, key: RunKey, run: RunData)
    ensures var after := Apply(db, PutRun(key, run));
            && (after.Some? <==> key.repo in db.repos)
            && (after.Some? ==>
                  && after.value.repos == db.repos && after.value.jobs == db.jobs
                  && (forall k :: k != key ==> Lookup(after.value.runs, k) == Lookup(db.runs, k))
                  && key in after.value.runs
                  && var row, kept := after.value.runs[key], Lookup(db.runs, key);
                     && row.pipeline == run.pipeline && row.status == run.status && row.conclusion == run.conclusion
                     && row.startedAt == run.startedAt && row.completedAt == run.completedAt && row.url == run.url
                     && row.branch == (if run.branch == "" && kept.Some? then kept.value.branch else run.branch)
                     && row.sha == (if run.sha == "" && kept.Some? then kept.value.sha else run.sha)
                     && row.message == (if run.message == "" && kept.Some? then kept.value.message else run.message)
                     && row.actor == (if run.actor == "" && kept.Some? then kept.value.actor else run.actor))
  {
  }

  /** A job write needs its run and keeps the job's steps; a step write needs its job and distinct numbers. */
  lemma JobWritten(db: DB, at: JobKey, job: JobData, steps: seq<Step>)
    ensures var after, kept := Apply(db, PutJob(at, job)), Lookup(db.jobs, at);
            && (after.Some? <==> at.key in db.runs)
            && (after.Some? ==>
                  && after.value.repos == db.repos && after.value.runs == db.runs
                  && (forall k :: k != at ==> Lookup(after.value.jobs, k) == Lookup(db.jobs, k))
                  && Lookup(after.value.jobs, at) == Some(JobView(job, if kept.Some? then kept.value.steps else [])))
    ensures var after := Apply(db, PutSteps(at, steps));
            && (after.Some? <==>
                  at in db.jobs && forall i, j :: 0 <= i < j < |steps| ==> steps[i].number != steps[j].number)
            && (after.Some? ==>
                  && after.value.repos == db.repos && after.value.runs == db.runs
                  && (forall k :: k != at ==> Lookup(after.value.jobs, k) == Lookup(db.jobs, k))
                  && Lookup(after.value.jobs, at) == Some(JobView(db.jobs[at].data, steps)))
  {
  }

  /** What is known of a repository's runs is what is stored of them. */
  lemma KnownReads(db: DB, repo: string, run: int)
    ensures var key, known := RunKey(repo, run), KnownRuns(db, repo);
            && (run in known <==> key in db.runs)
            && (run in known ==> known[run] == RunState(db.runs[key].status, db.runs[key].conclusion))
  {
    assert forall k: RunKey :: k.repo == repo && k.run == run ==> k == RunKey(repo, run);
  }

  // ---------------------------------------------------------------------------------------------
  // Polls
  // ---------------------------------------------------------------------------------------------

  /** When a listing entry says the run was over: a GitHub one by its last update, once it is completed. */
  function EndOf(client: Client, r: ForgeRun): Option<Time> {
    if client.Forgejo? then r.completedAt else if r.status == "completed" then r.updatedAt else None
  }

  lemma StoredRow(runs: map<RunKey, RunData>, key: RunKey, r: ForgeRun)
    ensures Shows(Upserted(runs, key, RunOf(r)), r, EndOf(GitHub, r), Lookup(runs, key))
    ensures Shows(Upserted(runs, key, ForgejoClient.RunOf(r)), r, r.completedAt, Lookup(runs, key))
  {
  }

  lemma StoredJobs(
    after: map<JobKey, JobView>, before: map<JobKey, JobView>, key: RunKey, jobs: seq<JobSnapshot>)
    requires forall id :: Lookup(after, JobKey(key, id)) == Lookup(StoreJobs(before, key, jobs), JobKey(key, id))
    ensures ShowsJobs(after, before, key, jobs)
  {
    forall id
      ensures Lookup(after, JobKey(key, id)) ==
              if LastJob(jobs, id) >= 0 then Some(View(jobs[LastJob(jobs, id)])) else Lookup(before, JobKey(key, id))
    {
      StoreJobsAt(before, key, jobs, JobKey(key, id));
    }
    hide StoreJobs;
    hide Lookup;
    hide LastJob;
  }

  predicate DistinctIds(runs: seq<RunSnapshot>) {
    forall i, j :: 0 <= i < j < |runs| ==> runs[i].id != runs[j].id
  }

  /** A run's row and jobs, once all the snapshots are stored. */
  lemma Stored(db: DB, repo: string, runs: seq<RunSnapshot>, i: nat)
    requires DistinctIds(runs) && i < |runs|
    ensures var key, after := RunKey(repo, runs[i].id), AbsorbAll(db, repo, runs);
            && key in after.runs && after.runs[key] == Upserted(db.runs, key, runs[i].data)
            && ShowsJobs(after.jobs, db.jobs, key, runs[i].jobs)
  {
    var key := RunKey(repo, runs[i].id);
    AbsorbAllRunAt(db, repo, runs, key);
    forall id
      ensures Lookup(AbsorbAll(db, repo, runs).jobs, JobKey(key, id)) ==
              Lookup(StoreJobs(db.jobs, key, runs[i].jobs), JobKey(key, id))
    {
      AbsorbAllAt(db, repo, runs, JobKey(key, id));
    }
    hide AbsorbAll;
    StoredJobs(AbsorbAll(db, repo, runs).jobs, db.jobs, key, runs[i].jobs);
  }

  /** A run's row and its jobs' rows are as they were. */
  ghost predicate LeavesRun(before: DB, after: DB, key: RunKey) {
    && Lookup(after.runs, key) == Lookup(before.runs, key)
    && forall id :: Lookup(after.jobs, JobKey(key, id)) == Lookup(before.jobs, JobKey(key, id))
  }

  lemma StrangersKept(db: DB, repo: string, runs: seq<RunSnapshot>, key: RunKey)
    requires DistinctIds(runs) && forall i :: 0 <= i < |runs| ==> key != RunKey(repo, runs[i].id)
    ensures LeavesRun(db, AbsorbAll(db, repo, runs), key)
  {
    AbsorbAllRunAt(db, repo, runs, key);
    forall id
      ensures Lookup(AbsorbAll(db, repo, runs).jobs, JobKey(key, id)) == Lookup(db.jobs, JobKey(key, id))
    {
      AbsorbAllAt(db, repo, runs, JobKey(key, id));
    }
    hide AbsorbAll;
  }

  /** Whether a poll leaves a run's jobs out: on GitHub, if it is stored as finished with the conclusion listed. */
  predicate Skips(db: DB, repo: string, client: Client, r: ForgeRun) {
    var key := RunKey(repo, r.id);
    && client.GitHub? && r.status == "completed" && key in db.runs
    && db.runs[key].status == "completed" && db.runs[key].conclusion == r.conclusion
  }

  /** What a poll leaves of a listed run: its row, and its jobs unless they are left out. */
  ghost predicate BringsRun(db: DB, after: DB, repo: string, forge: Forge, client: Client, r: ForgeRun)
    requires r.id in forge.jobs
  {
    var key := RunKey(repo, r.id);
    && key in after.runs && Shows(after.runs[key], r, EndOf(client, r), Lookup(db.runs, key))
    && ShowsJobs(after.jobs, db.jobs, key, if Skips(db, repo, client, r) then [] else forge.jobs[r.id])
  }

  /** All listed runs are brought so, and the rows of every other run are left as they were. */
  ghost predicate Brings(db: DB, after: DB, repo: string, forge: Forge, client: Client)
    requires Answering(forge)
  {
    && (forall r :: r in forge.listing ==> BringsRun(db, after, repo, forge, client, r))
    && (forall key :: (forall r :: r in forge.listing ==> key != RunKey(repo, r.id)) ==> LeavesRun(db, after, key))
  }

  /** The snapshots a client takes of an answering forge. */
  ghost predicate TakenBy(client: Client, db: DB, repo: string, forge: Forge, runs: seq<RunSnapshot>)
    requires Answering(forge)
  {
    && |runs| == |forge.listing|
    && forall i :: 0 <= i < |runs| ==>
         var r := forge.listing[i];
         && r in forge.listing
         && runs[i].id == r.id && runs[i].data == (if client.Forgejo? then ForgejoClient.RunOf(r) else RunOf(r))
         && runs[i].jobs == (if Skips(db, repo, client, r) then [] else forge.jobs[r.id])
  }

  lemma Brought(db: DB, repo: string, forge: Forge, client: Client, runs: seq<RunSnapshot>)
    requires Answering(forge) && client != Unregistered && TakenBy(client, db, repo, forge, runs)
    ensures Brings(db, AbsorbAll(db, repo, runs), repo, forge, client)
  {
    forall r | r in forge.listing
      ensures BringsRun(db, AbsorbAll(db, repo, runs), repo, forge, client, r)
    {
      var i :| 0 <= i < |forge.listing| && forge.listing[i] == r;
      StoredRow(db.runs, RunKey(repo, r.id), r);
      Stored(db, repo, runs, i);
      hide AbsorbAll;
      hide Upserted;
      hide Shows;
      hide ShowsJobs;
      hide Lookup;
      hide Skips;
    }
    forall key | forall r :: r in forge.listing ==> key != RunKey(repo, r.id)
      ensures LeavesRun(db, AbsorbAll(db, repo, runs), key)
    {
      StrangersKept(db, repo, runs, key);
    }
    hide AbsorbAll;
    hide BringsRun;
    hide LeavesRun;
    hide TakenBy;
  }

  lemma GitHubTakes(db: DB, repo: string, forge: Forge)
    requires Answering(forge)
    ensures TakenBy(GitHub, db, repo, forge, Trusting(forge, KnownRuns(db, repo)))
  {
    forall i | 0 <= i < |forge.listing|
      ensures UpToDate(KnownRuns(db, repo), forge.listing[i]) <==> Skips(db, repo, GitHub, forge.listing[i])
      ensures forge.listing[i] in forge.listing
    {
      KnownReads(db, repo, forge.listing[i].id);
    }
    hide KnownRuns;
    hide UpToDate;
    hide Skips;
    hide RunOf;
  }

  lemma ForgejoTakes(db: DB, repo: string, forge: Forge) returns (runs: seq<RunSnapshot>)
    requires Answering(forge)
    ensures ForgejoClient.List(forge) == Fetched("", runs)
    ensures TakenBy(Forgejo, db, repo, forge, runs) && Storable(runs)
  {
    assert forall i :: 0 <= i < |forge.listing| ==> forge.listing[i] in forge.listing;
    hide StorableSteps;
    runs := ForgejoClient.List(forge).runs;
    assert forall i :: 0 <= i < |runs| ==> runs[i].jobs == forge.jobs[forge.listing[i].id];
    hide ForgejoClient.RunOf;
  }

  /**
  A poll of a Forgejo repository stores every listed run and all of its jobs, whatever ETag, runs and
  jobs are stored already, a run stored as finished with the same conclusion among them.
  */
  lemma ForgejoFetchesAll(db: DB, repo: Repo, forge: Forge)
    requires repo.client.Forgejo? && repo.id in db.repos && Answering(forge)
    ensures var p := Poll(db, repo, forge, []);
            && p.ok && p.db.repos == db.repos && Brings(db, p.db, repo.id, forge, Forgejo)
  {
    var runs := ForgejoTakes(db, repo.id, forge);
    ExecListing(db, repo.id, Fetched("", runs));
    AbsorbAllRepos(db, repo.id, runs);
    Brought(db, repo.id, forge, Forgejo, runs);
    hide Brings;
    hide Exec;
    hide PollWrites;
    hide AbsorbAll;
    hide Storable;
    hide TakenBy;
  }

  lemma SameRows(db: DB, a: DB, b: DB, repo: string, forge: Forge, client: Client)
    requires Answering(forge) && a.runs == b.runs && a.jobs == b.jobs && Brings(db, a, repo, forge, client)
    ensures Brings(db, b, repo, forge, client)
  {
    forall r | r in forge.listing
      ensures BringsRun(db, b, repo, forge, client, r)
    {
      assert BringsRun(db, a, repo, forge, client, r);
    }
    forall key | forall r :: r in forge.listing ==> key != RunKey(repo, r.id)
      ensures LeavesRun(db, b, key)
    {
      assert LeavesRun(db, a, key);
    }
    hide Lookup;
    hide Shows;
    hide ShowsJobs;
  }

  /**
  A poll of a GitHub repository whose server does not answer 304 stores every listed run, and the jobs
  of those that were not stored as finished with the conclusion listed; it keeps the answer's ETag.
  */
  lemma GitHubFetchesNews(db: DB, repo: Repo, forge: Forge)
    requires repo.client.GitHub? && repo.id in db.repos && Answering(forge)
    requires repo.etag == "" || repo.etag != forge.etag
    ensures var p := Poll(db, repo, forge, []);
            && p.ok && Brings(db, p.db, repo.id, forge, GitHub)
            && (forall id :: id in p.db.repos <==> id in db.repos)
            && (forall id :: id in db.repos ==>
                  && p.db.repos[id].client == db.repos[id].client
                  && p.db.repos[id].etag ==
                     if id == repo.id && forge.etag != "" then forge.etag else db.repos[id].etag)
  {
    Trusted(db, repo, forge);
    var runs := Trusting(forge, KnownRuns(db, repo.id));
    AbsorbAllRepos(db, repo.id, runs);
    GitHubTakes(db, repo.id, forge);
    Brought(db, repo.id, forge, GitHub, runs);
    hide Poll;
    hide SimplePoll;
    hide AbsorbAll;
    hide Trusting;
    hide KnownRuns;
    hide TakenBy;
    SameRows(db, AbsorbAll(db, repo.id, runs), Poll(db, repo, forge, []).db, repo.id, forge, GitHub);
    hide Brings;
  }

  /** Without a client nothing is asked and nothing is written. */
  lemma UnregisteredIsLeft(db: DB, repo: Repo, forge: Forge, faults: Faults)
    requires repo.client.Unregistered?
    ensures Poll(db, repo, forge, faults) == Progress(db, [], faults, true)
  {
  }

  // ---------------------------------------------------------------------------------------------
  // Deliveries
  // ---------------------------------------------------------------------------------------------

  /** A workflow_run delivery writes the run's row and nothing else; for an unknown repository it fails. */
  lemma RunDeliveryShows(db: DB, repo: string, r: ForgeRun)
    ensures var p, key := Exec(db, DeliveryWrites(repo, RunEvent(r)), []), RunKey(repo, r.id);
            && (p.ok <==> repo in db.repos) && (!p.ok ==> p.db == db)
            && (p.ok ==>
                  && p.db.repos == db.repos && p.db.jobs == db.jobs
                  && key in p.db.runs && Shows(p.db.runs[key], r, EndOf(GitHub, r), Lookup(db.runs, key))
                  && forall k :: k != key ==> Lookup(p.db.runs, k) == Lookup(db.runs, k))
  {
    One(db, PutRun(RunKey(repo, r.id), RunOf(r)), []);
    StoredRow(db.runs, RunKey(repo, r.id), r);
    hide Exec;
    hide Shows;
  }

  /**
  A workflow_job delivery leaves the run's row as a listing entry would that only has the workflow's
  name and says it is in progress, then the job's row and its steps, and touches no other row.
  */
  lemma JobDeliveryShows(db: DB, repo: string, runId: int, workflow: string, job: JobSnapshot)
    requires repo in db.repos && DistinctNumbers(job.steps)
    ensures var p, key := Exec(db, DeliveryWrites(repo, JobEvent(runId, workflow, job)), []), RunKey(repo, runId);
            var entry := ForgeRun(runId, workflow, "in_progress", "", None, None, "", "", "", "", "", None);
            && p.ok && p.db.repos == db.repos
            && key in p.db.runs && Shows(p.db.runs[key], entry, None, Lookup(db.runs, key))
            && (forall k :: k != key ==> Lookup(p.db.runs, k) == Lookup(db.runs, k))
            && Lookup(p.db.jobs, JobKey(key, job.id)) == Some(JobView(job.data, job.steps))
            && (forall at :: at != JobKey(key, job.id) ==> Lookup(p.db.jobs, at) == Lookup(db.jobs, at))
  {
    var key := RunKey(repo, runId);
    var w := PutRun(key, Stub(workflow));
    var entry := ForgeRun(runId, workflow, "in_progress", "", None, None, "", "", "", "", "", None);
    StoredRow(db.runs, key, entry);
    assert RunOf(entry) == Stub(workflow);
    One(db, w, []);
    ExecAppend(db, [w], JobWrites(key, job), []);
    ExecOneJob(Apply(db, w).value, key, job);
    hide Exec;
    hide Shows;
  }
}
