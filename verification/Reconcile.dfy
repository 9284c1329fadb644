/**
The reconciler: one poll reads what is stored, asks the forge, stores each snapshot in turn
and records the ETag last. Any error ends that repository's poll where it stands.
*/
module Reconcile {
  import opened Common
  import opened Tables
  import opened RunStore
  import opened GithubClient
  import ForgejoClient

  function JobWrites(key: RunKey, job: JobSnapshot): seq<Write> {
    [PutJob(JobKey(key, job.id), job.data), PutSteps(JobKey(key, job.id), job.steps)]
  }

  function JobsWrites(key: RunKey, jobs: seq<JobSnapshot>): seq<Write> {
    if jobs == [] then [] else JobWrites(key, jobs[0]) + JobsWrites(key, jobs[1..])
  }

  function RunWrites(repo: string, run: RunSnapshot): seq<Write> {
    [PutRun(RunKey(repo, run.id), run.data)] + JobsWrites(RunKey(repo, run.id), run.jobs)
  }

  function RunsWrites(repo: string, runs: seq<RunSnapshot>): seq<Write> {
    if runs == [] then [] else RunWrites(repo, runs[0]) + RunsWrites(repo, runs[1..])
  }

  /** Everything a poll means to write, the ETag after all the snapshots it names. */
  function PollWrites(repo: string, result: Listing): seq<Write> {
    if !result.Fetched? then []
    else RunsWrites(repo, result.runs) + (if result.etag == "" then [] else [PutEtag(repo, result.etag)])
  }

  /** What the repository's client makes of the forge; only GitHub's looks at the ETag and at what is known. */
  function Answer(repo: Repo, forge: Forge, known: map<int, RunState>): Listing {
    match repo.client
    case GitHub => List(forge, repo.etag, known)
    case Forgejo => ForgejoClient.List(forge)
    case Unregistered => NotModified
  }

  /** One poll: the token, the known runs, the forge, then the writes. */
  function Poll(db: DB, repo: Repo, forge: Forge, faults: Faults): Progress {
    var later := Rest(Rest(faults));
    if repo.client.Unregistered? then Progress(db, [], faults, true)
    else if Failing(faults) || repo.id !in db.repos then Progress(db, [], Rest(faults), false)
    else if Failing(Rest(faults)) then Progress(db, [], later, false)
    else
      var result := Answer(repo, forge, KnownRuns(db, repo.id));
      if result.Failed? then Progress(db, [], later, false)
      else Exec(db, PollWrites(repo.id, result), later)
  }

  /** ReconcileAll over a listing: one repository's failure does not stop the next. */
  function PollAll(db: DB, repos: seq<Repo>, forges: map<string, Forge>, faults: Faults): Progress
    decreases |repos|
  {
    if repos == [] then Progress(db, [], faults, true)
    else
      var p := Poll(db, repos[0], ForgeOf(forges, repos[0].id), faults);
      var q := PollAll(p.db, repos[1..], forges, p.faults);
      Progress(q.db, p.done + q.done, q.faults, p.ok && q.ok)
  }

  function ForgeOf(forges: map<string, Forge>, repo: string): Forge {
    if repo in forges then forges[repo] else Forge(false, "", [], map[])
  }

  lemma {:induction false} JobsWritesAppend(key: RunKey, a: seq<JobSnapshot>, b: seq<JobSnapshot>)
    ensures JobsWrites(key, a + b) == JobsWrites(key, a) + JobsWrites(key, b)
  {
    if a == [] {
      assert a + b == b;
    } else {
      assert (a + b)[1..] == a[1..] + b;
      JobsWritesAppend(key, a[1..], b);
    }
  }

  lemma {:induction false} RunsWritesAppend(repo: string, a: seq<RunSnapshot>, b: seq<RunSnapshot>)
    ensures RunsWrites(repo, a + b) == RunsWrites(repo, a) + RunsWrites(repo, b)
  {
    if a == [] {
      assert a + b == b;
    } else {
      assert (a + b)[1..] == a[1..] + b;
      RunsWritesAppend(repo, a[1..], b);
    }
  }

  /** The state a store is in after `p`, begun from a store whose log was `log`. */
  ghost predicate Reached(store: Store, log: seq<Write>, p: Progress)
    reads store
  {
    store.Valid() && store.db == p.db && store.log == log + p.done && store.faults == p.faults
  }

  lemma One(db: DB, w: Write, faults: Faults)
    ensures Exec(db, [w], faults) ==
            if Failing(faults) || Apply(db, w).None? then Progress(db, [], Rest(faults), false)
            else Progress(Apply(db, w).value, [w], Rest(faults), true)
  {
  }

  /** Carrying on after a success is running the longer list; after a failure the rest is never tried. */
  lemma Chained(db: DB, a: seq<Write>, b: seq<Write>, faults: Faults, log: seq<Write>)
    ensures var p := Exec(db, a, faults);
            if !p.ok then Exec(db, a + b, faults) == p
            else
              var q := Exec(p.db, b, p.faults);
              && Exec(db, a + b, faults) == Progress(q.db, p.done + q.done, q.faults, q.ok)
              && log + (p.done + q.done) == log + p.done + q.done
  {
    ExecAppend(db, a, b, faults);
    ExecPrefix(db, a, faults);
  }

  /** A job's row, then its whole step list: what a poll and a delivery both do with a job. */
  method StoreJobAndSteps(store: Store, run: Id, job: JobSnapshot) returns (ok: bool)
    requires store.Valid() && run in store.runs
    modifies store
    ensures store.runs == old(store.runs)
    ensures Kept(old(store.ids).runs, store.ids.runs) && Kept(old(store.ids).jobs, store.ids.jobs)
    ensures var p := Exec(old(store.db), JobWrites(store.runs[run].key, job), old(store.faults));
            ok == p.ok && Reached(store, old(store.log), p)
  {
    hide Tied;
    ghost var at := JobKey(store.runs[run].key, job.id);
    ghost var w1, w2 := PutJob(at, job.data), PutSteps(at, job.steps);
    assert JobWrites(store.runs[run].key, job) == [w1] + [w2];
    Chained(store.db, [w1], [w2], store.faults, store.log);
    One(store.db, w1, store.faults);
    var id := store.UpsertJob(run, job.id, job.data);
    if id.Err? {
      return false;
    }
    var steps: seq<Step> := [];
    var i := 0;
    while i < |job.steps|
      modifies {}
      invariant 0 <= i <= |job.steps| && steps == job.steps[..i]
    {
      steps := steps + [job.steps[i]];
      i := i + 1;
    }
    assert steps == job.steps;
    One(store.db, w2, store.faults);
    ok := store.ReplaceSteps(id.value, steps);
  }

  class Reconciler {
    const store: Store

    constructor (store: Store)
      ensures this.store == store
    {
      this.store := store;
    }

    method StoreJobSnapshot(run: Id, job: JobSnapshot) returns (ok: bool)
      requires store.Valid() && run in store.runs
      modifies store
      ensures store.runs == old(store.runs)
      ensures Kept(old(store.ids).runs, store.ids.runs) && Kept(old(store.ids).jobs, store.ids.jobs)
      ensures var p := Exec(old(store.db), JobWrites(store.runs[run].key, job), old(store.faults));
              ok == p.ok && Reached(store, old(store.log), p)
    {
      hide Tied;
      hide Exec;
      ok := StoreJobAndSteps(store, run, job);
    }

    method StoreRunSnapshot(repo: string, run: RunSnapshot) returns (ok: bool)
      requires store.Valid()
      modifies store
      ensures Kept(old(store.ids).runs, store.ids.runs) && Kept(old(store.ids).jobs, store.ids.jobs)
      ensures var p := Exec(old(store.db), RunWrites(repo, run), old(store.faults));
              ok == p.ok && Reached(store, old(store.log), p)
    {
      hide Tied;
      var key := RunKey(repo, run.id);
      ghost var w := PutRun(key, run.data);
      ghost var db0, log0, faults0 := store.db, store.log, store.faults;
      assert RunWrites(repo, run) == [w] + JobsWrites(key, run.jobs);
      Chained(db0, [w], JobsWrites(key, run.jobs), faults0, log0);
      One(db0, w, faults0);
      var id := store.UpsertRun(key, run.data);
      if id.Err? {
        return false;
      }
      store.RowOf(key);
      ghost var db1, log1, faults1 := store.db, store.log, store.faults;
      hide Exec;
      ok := StoreJobSnapshots(id.value, run.jobs);
    }

    /** The loop over a run's jobs inside storeRunSnapshot. */
    method StoreJobSnapshots(run: Id, jobs: seq<JobSnapshot>) returns (ok: bool)
      requires store.Valid() && run in store.runs
      modifies store
      ensures store.runs == old(store.runs)
      ensures Kept(old(store.ids).runs, store.ids.runs) && Kept(old(store.ids).jobs, store.ids.jobs)
      ensures var p := Exec(old(store.db), JobsWrites(store.runs[run].key, jobs), old(store.faults));
              ok == p.ok && Reached(store, old(store.log), p)
    {
      hide Tied;
      ghost var key := store.runs[run].key;
      ghost var db0, log0, faults0 := store.db, store.log, store.faults;
      NoWrites(db0, faults0);
      assert jobs[..0] == [] && JobsWrites(key, []) == [];
      hide Exec;
      hide JobsWrites;
      hide JobWrites;
      var i := 0;
      while i < |jobs|
        invariant 0 <= i <= |jobs|
        invariant store.runs == old(store.runs)
        invariant Kept(old(store.ids).runs, store.ids.runs) && Kept(old(store.ids).jobs, store.ids.jobs)
        invariant Exec(db0, JobsWrites(key, jobs[..i]), faults0).ok
        invariant Reached(store, log0, Exec(db0, JobsWrites(key, jobs[..i]), faults0))
      {
        ghost var before := JobsWrites(key, jobs[..i]);
        JobsWritesSplit(key, jobs, i);
        Chained(db0, before, JobWrites(key, jobs[i]), faults0, log0);
        Chained(db0, JobsWrites(key, jobs[..i + 1]), JobsWrites(key, jobs[i + 1..]), faults0, log0);
        var stored := StoreJobSnapshot(run, jobs[i]);
        if !stored {
          return false;
        }
        i := i + 1;
      }
      assert jobs[..i] == jobs;
      return true;
    }

    method ReconcileRepo(repo: Repo, forge: Forge) returns (ok: bool)
      requires store.Valid()
      modifies store
      ensures var p := Poll(old(store.db), repo, forge, old(store.faults));
              ok == p.ok && Reached(store, old(store.log), p)
      ensures Kept(old(store.ids).runs, store.ids.runs) && Kept(old(store.ids).jobs, store.ids.jobs)
    {
      hide Tied;
      hide Exec;
      if repo.client.Unregistered? {
        return true;
      }
      var token := store.RepoToken(repo.id);
      if !token {
        return false;
      }
      var known := store.RunStates(repo.id);
      if known.Err? {
        return false;
      }
      var result: Listing;
      if repo.client.GitHub? {
        result := ListRecentRuns(forge, repo.etag, known.value);
      } else {
        result := ForgejoClient.ListRecentRuns(forge);
      }
      if result.Failed? {
        return false;
      }
      if result.NotModified? {
        NoWrites(store.db, store.faults);
        return true;
      }
      ok := StoreListing(repo.id, result.etag, result.runs);
    }

    /** The rest of ReconcileRepo once a listing has been fetched. */
    method StoreListing(repo: string, etag: string, runs: seq<RunSnapshot>) returns (ok: bool)
      requires store.Valid()
      modifies store
      ensures Kept(old(store.ids).runs, store.ids.runs) && Kept(old(store.ids).jobs, store.ids.jobs)
      ensures var p := Exec(old(store.db), PollWrites(repo, Fetched(etag, runs)), old(store.faults));
              ok == p.ok && Reached(store, old(store.log), p)
    {
      hide Tied;
      ghost var last := if etag == "" then [] else [PutEtag(repo, etag)];
      assert PollWrites(repo, Fetched(etag, runs)) == RunsWrites(repo, runs) + last;
      Chained(store.db, RunsWrites(repo, runs), last, store.faults, store.log);
      ok := StoreRunSnapshots(repo, runs);
      if !ok {
        return;
      }
      if etag == "" {
        assert RunsWrites(repo, runs) + last == RunsWrites(repo, runs);
        return;
      }
      One(store.db, PutEtag(repo, etag), store.faults);
      hide Exec;
      ok := store.SetReconcileETag(repo, etag);
    }

    method StoreRunSnapshots(repo: string, runs: seq<RunSnapshot>) returns (ok: bool)
      requires store.Valid()
      modifies store
      ensures Kept(old(store.ids).runs, store.ids.runs) && Kept(old(store.ids).jobs, store.ids.jobs)
      ensures var p := Exec(old(store.db), RunsWrites(repo, runs), old(store.faults));
              ok == p.ok && Reached(store, old(store.log), p)
    {
      hide Tied;
      ghost var db0, log0, faults0 := store.db, store.log, store.faults;
      NoWrites(db0, faults0);
      assert runs[..0] == [] && RunsWrites(repo, []) == [];
      hide Exec;
      hide RunsWrites;
      hide RunWrites;
      var i := 0;
      while i < |runs|
        invariant 0 <= i <= |runs|
        invariant Kept(old(store.ids).runs, store.ids.runs) && Kept(old(store.ids).jobs, store.ids.jobs)
        invariant Exec(db0, RunsWrites(repo, runs[..i]), faults0).ok
        invariant Reached(store, log0, Exec(db0, RunsWrites(repo, runs[..i]), faults0))
      {
        ghost var before := RunsWrites(repo, runs[..i]);
        RunsWritesSplit(repo, runs, i);
        Chained(db0, before, RunWrites(repo, runs[i]), faults0, log0);
        Chained(db0, RunsWrites(repo, runs[..i + 1]), RunsWrites(repo, runs[i + 1..]), faults0, log0);
        var stored := StoreRunSnapshot(repo, runs[i]);
        if !stored {
          return false;
        }
        i := i + 1;
      }
      assert runs[..i] == runs;
      return true;
    }

    method ReconcileAll(forges: map<string, Forge>) returns (ghost polled: seq<Repo>)
      requires store.Valid()
      modifies store
      ensures Failing(old(store.faults)) ==>
        polled == [] && Reached(store, old(store.log), Progress(old(store.db), [], Rest(old(store.faults)), false))
      ensures !Failing(old(store.faults)) ==>
        && Lists(polled, old(store.db))
        && Reached(store, old(store.log), PollAll(old(store.db), polled, forges, Rest(old(store.faults))))
      ensures Kept(old(store.ids).runs, store.ids.runs) && Kept(old(store.ids).jobs, store.ids.jobs)
    {
      hide Tied;
      hide Lists;
      hide Poll;
      var listed := store.ListRepos();
      if listed.Err? {
        return [];
      }
      var repos := listed.value;
      polled := repos;
      ghost var db0, log0, faults0 := store.db, store.log, store.faults;
      var i := 0;
      while i < |repos|
        invariant 0 <= i <= |repos|
        invariant Reached(store, log0, PollAll(db0, repos[..i], forges, faults0))
        invariant Kept(old(store.ids).runs, store.ids.runs) && Kept(old(store.ids).jobs, store.ids.jobs)
      {
        PollAllSnoc(db0, repos, i, forges, faults0, log0);
        var repo := repos[i];
        var _ := ReconcileRepo(repo, ForgeOf(forges, repo.id));
        i := i + 1;
      }
      assert repos[..i] == repos;
    }
  }

  lemma NoWrites(db: DB, faults: Faults)
    ensures Exec(db, [], faults) == Progress(db, [], faults, true)
  {
  }

  lemma JobsWritesSplit(key: RunKey, jobs: seq<JobSnapshot>, i: nat)
    requires i < |jobs|
    ensures JobsWrites(key, jobs[..i + 1]) == JobsWrites(key, jobs[..i]) + JobWrites(key, jobs[i])
    ensures JobsWrites(key, jobs) == JobsWrites(key, jobs[..i + 1]) + JobsWrites(key, jobs[i + 1..])
  {
    JobsWritesAppend(key, jobs[..i], [jobs[i]]);
    assert jobs[..i + 1] == jobs[..i] + [jobs[i]];
    assert JobsWrites(key, [jobs[i]]) == JobWrites(key, jobs[i]) + [];
    JobsWritesAppend(key, jobs[..i + 1], jobs[i + 1..]);
    assert jobs == jobs[..i + 1] + jobs[i + 1..];
  }

  lemma RunsWritesSplit(repo: string, runs: seq<RunSnapshot>, i: nat)
    requires i < |runs|
    ensures RunsWrites(repo, runs[..i + 1]) == RunsWrites(repo, runs[..i]) + RunWrites(repo, runs[i])
    ensures RunsWrites(repo, runs) == RunsWrites(repo, runs[..i + 1]) + RunsWrites(repo, runs[i + 1..])
  {
    RunsWritesAppend(repo, runs[..i], [runs[i]]);
    assert runs[..i + 1] == runs[..i] + [runs[i]];
    assert RunsWrites(repo, [runs[i]]) == RunWrites(repo, runs[i]) + [];
    RunsWritesAppend(repo, runs[..i + 1], runs[i + 1..]);
    assert runs == runs[..i + 1] + runs[i + 1..];
  }

  lemma PollAllSnoc(db: DB, repos: seq<Repo>, i: nat, forges: map<string, Forge>, faults: Faults, log: seq<Write>)
    requires i < |repos|
    ensures var p := PollAll(db, repos[..i], forges, faults);
            var q := Poll(p.db, repos[i], ForgeOf(forges, repos[i].id), p.faults);
            && PollAll(db, repos[..i + 1], forges, faults) == Progress(q.db, p.done + q.done, q.faults, p.ok && q.ok)
            && log + (p.done + q.done) == log + p.done + q.done
  {
    hide Poll;
    var p := PollAll(db, repos[..i], forges, faults);
    var q := Poll(p.db, repos[i], ForgeOf(forges, repos[i].id), p.faults);
    PollAllAppend(db, repos[..i], [repos[i]], forges, faults);
    assert repos[..i + 1] == repos[..i] + [repos[i]];
    assert PollAll(p.db, [repos[i]], forges, p.faults) == Progress(q.db, q.done + [], q.faults, q.ok);
  }

  lemma {:induction false} PollAllAppend(db: DB, a: seq<Repo>, b: seq<Repo>, forges: map<string, Forge>, faults: Faults)
    ensures var p := PollAll(db, a, forges, faults);
            var q := PollAll(p.db, b, forges, p.faults);
            PollAll(db, a + b, forges, faults) == Progress(q.db, p.done + q.done, q.faults, p.ok && q.ok)
    decreases |a|
  {
    hide Poll;
    if a == [] {
      assert a + b == b;
      var q := PollAll(db, b, forges, faults);
      assert [] + q.done == q.done;
    } else {
      assert (a + b)[1..] == a[1..] + b;
      var p := Poll(db, a[0], ForgeOf(forges, a[0].id), faults);
      PollAllAppend(p.db, a[1..], b, forges, p.faults);
      var mid := PollAll(p.db, a[1..], forges, p.faults);
      var q := PollAll(mid.db, b, forges, mid.faults);
      assert p.done + (mid.done + q.done) == p.done + mid.done + q.done;
    }
  }
}
