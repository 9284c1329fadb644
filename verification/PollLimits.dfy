/**
The edges of the polling design: exactly when a 304 or a skip is right, when a poll makes up
for a lost delivery, and how a store that once missed a run's jobs keeps missing them.
*/
module PollLimits {
  import opened Common
  import opened Tables
  import opened RunStore
  import opened GithubClient
  import opened Reconcile
  import opened Webhook
  import opened PollCache
  import opened PollTraces

  /** Exactly when a 304 is right: the store already holds everything the forge would have said. */
  lemma NotModifiedIsSafe(db: DB, repo: string, forge: Forge)
    requires repo in db.repos && db.repos[repo].client.GitHub? && Answering(forge)
    requires Unchanged(forge, db.repos[repo].etag)
    ensures Poll(db, Stored(db, repo), forge, []) == Progress(db, [], [], true)
    ensures SimplePoll(db, repo, forge).ok
    ensures SimplePoll(db, repo, forge).db == db <==> Absorbed(db, repo, forge)
  {
    Trusted(db, Stored(db, repo), forge);
    AbsorbAllRepos(db, repo, Trusting(forge, map[]));
    var after := AbsorbAll(db, repo, Trusting(forge, map[]));
    assert db.repos[repo := db.repos[repo].(etag := forge.etag)] == db.repos;
    assert SimplePoll(db, repo, forge).db == after;
    FullyAbsorbed(db, repo, forge);
    if Absorbed(db, repo, forge) {
      AbsorbedIsNoChange(db, repo, forge);
    }
  }

  /**
  A poll the server answers in full stores every listed run's row, whatever was stored before;
  it makes up for lost job deliveries exactly at the runs it does not skip.
  */
  lemma CatchesUp(db: DB, repo: Repo, forge: Forge, r: ForgeRun)
    requires repo.client.GitHub? && repo.id in db.repos && Answering(forge) && !Unchanged(forge, repo.etag)
    requires r in forge.listing
    ensures var key, after := RunKey(repo.id, r.id), Poll(db, repo, forge, []).db;
            && key in after.runs && after.runs[key] == Upserted(db.runs, key, RunOf(r))
            && (JobsMatch(after.jobs, key, forge.jobs[r.id]) <==>
                !UpToDate(KnownRuns(db, repo.id), r) || JobsMatch(db.jobs, key, forge.jobs[r.id]))
  {
    var key, known := RunKey(repo.id, r.id), KnownRuns(db, repo.id);
    Trusted(db, repo, forge);
    hide Poll;
    hide SimplePoll;
    hide KnownRuns;
    hide JobsMatch;
    hide AbsorbAll;
    hide Trusting;
    hide Upserted;
    JobsAfter(db, repo.id, forge, known, r);
    RowAfter(db, repo.id, forge, known, r);
  }

  lemma RowAfter(db: DB, repo: string, forge: Forge, known: map<int, RunState>, r: ForgeRun)
    requires Answering(forge) && r in forge.listing
    ensures var key, after := RunKey(repo, r.id), AbsorbAll(db, repo, Trusting(forge, known));
            key in after.runs && after.runs[key] == Upserted(db.runs, key, RunOf(r))
  {
    var i :| 0 <= i < |forge.listing| && forge.listing[i] == r;
    assert Trusting(forge, known)[i].id == r.id && Trusting(forge, known)[i].data == RunOf(r);
    AbsorbAllRunAt(db, repo, Trusting(forge, known), RunKey(repo, r.id));
    hide AbsorbAll;
  }

  lemma JobsAfter(db: DB, repo: string, forge: Forge, known: map<int, RunState>, r: ForgeRun)
    requires Answering(forge) && r in forge.listing
    ensures var key, after := RunKey(repo, r.id), AbsorbAll(db, repo, Trusting(forge, known));
            JobsMatch(after.jobs, key, forge.jobs[r.id]) <==>
            !UpToDate(known, r) || JobsMatch(db.jobs, key, forge.jobs[r.id])
  {
    var key, jobs := RunKey(repo, r.id), forge.jobs[r.id];
    var after := AbsorbAll(db, repo, Trusting(forge, known));
    hide AbsorbAll;
    hide Trusting;
    hide Lookup;
    hide StoreJobs;
    hide JobsMatch;
    var i :| 0 <= i < |forge.listing| && forge.listing[i] == r;
    forall id: int
      ensures Lookup(after.jobs, JobKey(key, id)) ==
              if UpToDate(known, r) then Lookup(db.jobs, JobKey(key, id))
              else Lookup(StoreJobs(db.jobs, key, jobs), JobKey(key, id))
    {
      SkippingJobs(db, repo, forge, known, JobKey(key, id));
    }
    if UpToDate(known, r) {
      MatchingSame(after.jobs, db.jobs, key, jobs);
    } else {
      StoredMatch(db.jobs, key, jobs);
      MatchingSame(after.jobs, StoreJobs(db.jobs, key, jobs), key, jobs);
    }
  }

  lemma MatchingSame(a: map<JobKey, JobView>, b: map<JobKey, JobView>, key: RunKey, jobs: seq<JobSnapshot>)
    requires forall id: int :: Lookup(a, JobKey(key, id)) == Lookup(b, JobKey(key, id))
    ensures JobsMatch(a, key, jobs) <==> JobsMatch(b, key, jobs)
  {
  }

  lemma StoredMatch(stored: map<JobKey, JobView>, key: RunKey, jobs: seq<JobSnapshot>)
    ensures JobsMatch(StoreJobs(stored, key, jobs), key, jobs)
  {
    hide StoreJobs;
    hide LastJob;
    forall j | 0 <= j < |jobs| && LastJob(jobs, jobs[j].id) == j
      ensures Lookup(StoreJobs(stored, key, jobs), JobKey(key, jobs[j].id)) == Some(View(jobs[j]))
    {
      StoreJobsAt(stored, key, jobs, JobKey(key, jobs[j].id));
    }
  }

  /** A forge lists a run as finished so, with these jobs. */
  ghost predicate ListsSo(forge: Forge, run: int, conclusion: string, jobs: seq<JobSnapshot>) {
    && Answering(forge)
    && exists r ::
         && r in forge.listing && r.id == run && r.status == "completed" && r.conclusion == conclusion
         && forge.jobs[run] == jobs
  }

  ghost predicate StoredSo(db: DB, key: RunKey, conclusion: string) {
    key in db.runs && db.runs[key].status == "completed" && db.runs[key].conclusion == conclusion
  }

  /** One poll brings a finished run's jobs up to the forge's, unless it is a 304 or skips the run. */
  lemma JobsNoticed(db: DB, repo: string, forge: Forge, run: int, conclusion: string, jobs: seq<JobSnapshot>)
    requires repo in db.repos && db.repos[repo].client.GitHub? && ListsSo(forge, run, conclusion, jobs)
    ensures var p, key := Poll(db, Stored(db, repo), forge, []), RunKey(repo, run);
            && repo in p.db.repos && p.db.repos[repo].client.GitHub?
            && (if Unchanged(forge, db.repos[repo].etag) then p.db == db
                else
                  && StoredSo(p.db, key, conclusion)
                  && (JobsMatch(p.db.jobs, key, jobs) <==>
                      !StoredSo(db, key, conclusion) || JobsMatch(db.jobs, key, jobs)))
  {
    Trusted(db, Stored(db, repo), forge);
    AbsorbAllRepos(db, repo, Trusting(forge, KnownRuns(db, repo)));
    if !Unchanged(forge, db.repos[repo].etag) {
      var r :| r in forge.listing && r.id == run && r.status == "completed" && r.conclusion == conclusion;
      CatchesUp(db, Stored(db, repo), forge, r);
      KnownAsStored(db, repo, r, conclusion);
    }
  }

  lemma KnownAsStored(db: DB, repo: string, r: ForgeRun, conclusion: string)
    requires r.status == "completed" && r.conclusion == conclusion
    ensures UpToDate(KnownRuns(db, repo), r) <==> StoredSo(db, RunKey(repo, r.id), conclusion)
  {
    var key := RunKey(repo, r.id);
    assert key in db.runs ==> r.id in KnownRuns(db, repo);
    assert forall k :: k in db.runs && k.repo == repo && k.run == r.id ==> k == key;
  }

  lemma {:induction false} JobsSettled(
    db: DB, repo: string, forges: seq<Forge>, run: int, conclusion: string, jobs: seq<JobSnapshot>)
    requires repo in db.repos && db.repos[repo].client.GitHub? && StoredSo(db, RunKey(repo, run), conclusion)
    requires forall f :: f in forges ==> ListsSo(f, run, conclusion, jobs)
    ensures JobsMatch(CachedPolls(db, repo, forges).jobs, RunKey(repo, run), jobs) <==>
            JobsMatch(db.jobs, RunKey(repo, run), jobs)
    decreases |forges|
  {
    if forges != [] {
      assert forges[0] in forges;
      JobsNoticed(db, repo, forges[0], run, conclusion, jobs);
      hide Poll;
      hide Unchanged;
      hide StoredSo;
      hide JobsMatch;
      hide ListsSo;
      JobsSettled(Poll(db, Stored(db, repo), forges[0], []).db, repo, forges[1..], run, conclusion, jobs);
    }
  }

  /**
  Exactly when polling makes up for a finished run's lost job deliveries. Over a run of undisturbed
  polls that list it so, its jobs end up matching the forge's if and only if they did already, or the
  run was not stored as finished so and some poll is not a 304.
  */
  lemma {:induction false} JobsCaughtUp(
    db: DB, repo: string, forges: seq<Forge>, run: int, conclusion: string, jobs: seq<JobSnapshot>)
    requires repo in db.repos && db.repos[repo].client.GitHub?
    requires forall f :: f in forges ==> ListsSo(f, run, conclusion, jobs)
    ensures var key := RunKey(repo, run);
            JobsMatch(CachedPolls(db, repo, forges).jobs, key, jobs) <==>
            || JobsMatch(db.jobs, key, jobs)
            || (!StoredSo(db, key, conclusion) && exists f :: f in forges && !Unchanged(f, db.repos[repo].etag))
    decreases |forges|
  {
    if forges != [] {
      assert forges[0] in forges && forges == [forges[0]] + forges[1..];
      JobsNoticed(db, repo, forges[0], run, conclusion, jobs);
      var next := Poll(db, Stored(db, repo), forges[0], []).db;
      hide Poll;
      hide StoredSo;
      hide JobsMatch;
      hide ListsSo;
      if Unchanged(forges[0], db.repos[repo].etag) {
        JobsCaughtUp(db, repo, forges[1..], run, conclusion, jobs);
      } else {
        JobsSettled(next, repo, forges[1..], run, conclusion, jobs);
      }
    }
  }

  /** A write that leaves a run completed with a conclusion and stays away from its jobs. */
  predicate Harmless(w: Write, key: RunKey, conclusion: string) {
    match w
    case PutRun(k, run) => k == key ==> run.status == "completed" && run.conclusion == conclusion
    case PutJob(at, _) => at.key != key
    case PutSteps(at, _) => at.key != key
    case PutEtag(_, _) => true
  }

  ghost predicate Frozen(before: DB, after: DB, key: RunKey, conclusion: string) {
    && key in after.runs && after.runs[key].status == "completed" && after.runs[key].conclusion == conclusion
    && (forall at: JobKey :: at.key == key ==> Lookup(after.jobs, at) == Lookup(before.jobs, at))
    && after.repos.Keys == before.repos.Keys
    && (forall id :: id in after.repos ==> after.repos[id].client == before.repos[id].client)
  }

  lemma {:induction false} HarmlessWrites(db: DB, ws: seq<Write>, faults: Faults, key: RunKey, conclusion: string)
    requires forall w :: w in ws ==> Harmless(w, key, conclusion)
    requires key in db.runs && db.runs[key].status == "completed" && db.runs[key].conclusion == conclusion
    ensures Frozen(db, Exec(db, ws, faults).db, key, conclusion)
    decreases |ws|
  {
    if ws != [] && !Failing(faults) && Apply(db, ws[0]).Some? {
      var next := Apply(db, ws[0]).value;
      assert Harmless(ws[0], key, conclusion);
      assert Frozen(db, next, key, conclusion);
      HarmlessWrites(next, ws[1..], Rest(faults), key, conclusion);
    }
  }

  lemma {:induction false} OtherRunsWrites(key: RunKey, jobs: seq<JobSnapshot>, other: RunKey, conclusion: string)
    requires other != key
    ensures forall w :: w in JobsWrites(key, jobs) ==> Harmless(w, other, conclusion)
  {
    if jobs != [] {
      OtherRunsWrites(key, jobs[1..], other, conclusion);
    }
  }

  lemma {:induction false} SnapshotsHarmless(repo: string, runs: seq<RunSnapshot>, key: RunKey, conclusion: string)
    requires forall s :: s in runs && RunKey(repo, s.id) == key ==>
      s.jobs == [] && s.data.status == "completed" && s.data.conclusion == conclusion
    ensures forall w :: w in RunsWrites(repo, runs) ==> Harmless(w, key, conclusion)
  {
    if runs != [] {
      var s := runs[0];
      SnapshotsHarmless(repo, runs[1..], key, conclusion);
      if RunKey(repo, s.id) != key {
        OtherRunsWrites(RunKey(repo, s.id), s.jobs, key, conclusion);
      }
    }
  }

  /** Every listing of the trace, if it shows the run at all, shows it completed so. */
  ghost predicate AlwaysFinished(forges: seq<Forge>, run: int, conclusion: string) {
    forall f :: f in forges ==>
      forall r :: r in f.listing && r.id == run ==> r.status == "completed" && r.conclusion == conclusion
  }

  lemma PollFreezes(db: DB, repo: string, forge: Forge, faults: Faults, run: int, conclusion: string)
    requires repo in db.repos && db.repos[repo].client.GitHub?
    requires var key := RunKey(repo, run);
             key in db.runs && db.runs[key].status == "completed" && db.runs[key].conclusion == conclusion
    requires AlwaysFinished([forge], run, conclusion)
    ensures Frozen(db, Poll(db, Stored(db, repo), forge, faults).db, RunKey(repo, run), conclusion)
  {
    var key, known := RunKey(repo, run), KnownRuns(db, repo);
    var result := List(forge, Stored(db, repo).etag, known);
    assert run in known && known[run] == RunState("completed", conclusion);
    if result.Fetched? {
      SnapshotsAt(forge, known, forge.listing);
      assert forge in [forge];
      forall s | s in result.runs && RunKey(repo, s.id) == key
        ensures s.jobs == [] && s.data.status == "completed" && s.data.conclusion == conclusion
      {
        var i :| 0 <= i < |result.runs| && result.runs[i] == s;
        assert forge.listing[i] in forge.listing;
      }
      SnapshotsHarmless(repo, result.runs, key, conclusion);
    }
    HarmlessWrites(db, PollWrites(repo, result), Rest(Rest(faults)), key, conclusion);
  }

  /** Polls with any faults, one script for each. */
  function Polls(db: DB, repo: string, forges: seq<Forge>, scripts: seq<Faults>): DB
    requires |scripts| == |forges|
    decreases |forges|
  {
    if forges == [] || repo !in db.repos then db
    else Polls(Poll(db, Stored(db, repo), forges[0], scripts[0]).db, repo, forges[1..], scripts[1..])
  }

  /**
  Once stored as completed with a conclusion, a run's jobs are never touched again by any
  number of polls, in whatever they differ from the forge's, while the forge goes on listing
  it so: neither later polls nor their errors repair what is missing.
  */
  lemma {:induction false} SkippedForever(
    db: DB, repo: string, forges: seq<Forge>, scripts: seq<Faults>, run: int, conclusion: string)
    requires |scripts| == |forges| && repo in db.repos && db.repos[repo].client.GitHub?
    requires var key := RunKey(repo, run);
             key in db.runs && db.runs[key].status == "completed" && db.runs[key].conclusion == conclusion
    requires AlwaysFinished(forges, run, conclusion)
    ensures Frozen(db, Polls(db, repo, forges, scripts), RunKey(repo, run), conclusion)
    decreases |forges|
  {
    if forges != [] {
      PollFreezes(db, repo, forges[0], scripts[0], run, conclusion);
      hide Poll;
      var next := Poll(db, Stored(db, repo), forges[0], scripts[0]).db;
      SkippedForever(next, repo, forges[1..], scripts[1..], run, conclusion);
    }
  }

  /** The fourth store call of a poll is the first listed run's first job. */
  lemma OnlyTheRow(db: DB, repo: string, forge: Forge)
    requires repo in db.repos && db.repos[repo].client.GitHub?
    requires Answering(forge) && !Unchanged(forge, db.repos[repo].etag) && forge.listing != []
    requires forge.jobs[forge.listing[0].id] != [] && RunKey(repo, forge.listing[0].id) !in db.runs
    ensures var r, p := forge.listing[0], Poll(db, Stored(db, repo), forge, [false, false, false, true]);
            !p.ok && Some(p.db) == Apply(db, PutRun(RunKey(repo, r.id), RunOf(r)))
  {
    var r, known := forge.listing[0], KnownRuns(db, repo);
    var key, jobs := RunKey(repo, r.id), forge.jobs[r.id];
    TrustingIs(forge, known);
    assert !UpToDate(known, r);
    var runs := Trusting(forge, known);
    assert runs[0] == RunSnapshot(r.id, RunOf(r), jobs);
    var ws := PollWrites(repo, Fetched(forge.etag, runs));
    assert ws[0] == PutRun(key, RunOf(r));
    assert ws[1] == PutJob(JobKey(key, jobs[0].id), jobs[0].data);
    FaultsAfterReads();
    SecondFails(db, ws);
    hide Exec;
    hide PollWrites;
    hide KnownRuns;
    hide Trusting;
  }

  lemma FaultsAfterReads()
    ensures Rest([false, false, false, true]) == [false, false, true]
    ensures Rest([false, false, true]) == [false, true]
  {
  }

  lemma SecondFails(db: DB, ws: seq<Write>)
    requires |ws| > 1 && Apply(db, ws[0]).Some?
    ensures Exec(db, ws, [false, true]).db == Apply(db, ws[0]).value && !Exec(db, ws, [false, true]).ok
  {
    assert Rest([false, true]) == [true];
    var db1 := Apply(db, ws[0]).value;
    assert Exec(db1, ws[1..], [true]) == Progress(db1, [], Rest([true]), false);
  }

  ghost predicate NoJobs(db: DB, key: RunKey) {
    forall at: JobKey :: at.key == key ==> at !in db.jobs
  }

  /**
  A storage error between a finished run's row and its first job loses the jobs for good: the
  next poll finds the run up to date.
  */
  lemma MidPollErrorSticks(db: DB, repo: string, forge: Forge, later: seq<Forge>, scripts: seq<Faults>)
    requires repo in db.repos && db.repos[repo].client.GitHub?
    requires Answering(forge) && !Unchanged(forge, db.repos[repo].etag) && forge.listing != []
    requires var r := forge.listing[0];
             && r.status == "completed" && forge.jobs[r.id] != []
             && RunKey(repo, r.id) !in db.runs && NoJobs(db, RunKey(repo, r.id))
             && AlwaysFinished(later, r.id, r.conclusion)
    requires |scripts| == |later|
    ensures var r := forge.listing[0];
            var p := Poll(db, Stored(db, repo), forge, [false, false, false, true]);
            && !p.ok && RunKey(repo, r.id) in p.db.runs
            && NoJobs(Polls(p.db, repo, later, scripts), RunKey(repo, r.id))
  {
    var r := forge.listing[0];
    var db1 := Apply(db, PutRun(RunKey(repo, r.id), RunOf(r))).value;
    OnlyTheRow(db, repo, forge);
    hide Poll;
    SkippedForever(db1, repo, later, scripts, r.id, r.conclusion);
    AbsentStays(db1, Polls(db1, repo, later, scripts), RunKey(repo, r.id), r.conclusion);
  }

  lemma AbsentStays(before: DB, after: DB, key: RunKey, conclusion: string)
    requires NoJobs(before, key) && Frozen(before, after, key, conclusion)
    ensures NoJobs(after, key)
  {
    forall at: JobKey | at.key == key
      ensures at !in after.jobs
    {
      assert Lookup(after.jobs, at) == Lookup(before.jobs, at);
    }
  }

  /**
  When every job delivery of a run is lost and its completion is delivered, polling never
  stores the jobs.
  */
  lemma LostJobDeliveriesStick(db: DB, repo: string, r: ForgeRun, later: seq<Forge>, scripts: seq<Faults>)
    requires repo in db.repos && db.repos[repo].client.GitHub?
    requires r.status == "completed" && NoJobs(db, RunKey(repo, r.id))
    requires |scripts| == |later| && AlwaysFinished(later, r.id, r.conclusion)
    ensures var p := Exec(db, DeliveryWrites(repo, RunEvent(r)), []);
            p.ok && NoJobs(Polls(p.db, repo, later, scripts), RunKey(repo, r.id))
  {
    var key := RunKey(repo, r.id);
    One(db, PutRun(key, RunOf(r)), []);
    var db1 := Exec(db, DeliveryWrites(repo, RunEvent(r)), []).db;
    SkippedForever(db1, repo, later, scripts, r.id, r.conclusion);
    AbsentStays(db1, Polls(db1, repo, later, scripts), key, r.conclusion);
  }

  /**
  A job delivery replaces whatever the run's row said of its name, status, conclusion, times and page
  by a stub's values, keeping only the commit columns and the stored ETag; so a poll the server
  answers in full fetches the run's jobs again.
  */
  lemma JobDeliveryReopens(db: DB, repo: string, runId: int, workflow: string, job: JobSnapshot, r: ForgeRun)
    requires repo in db.repos && DistinctNumbers(job.steps) && r.id == runId
    ensures var p := Exec(db, DeliveryWrites(repo, JobEvent(runId, workflow, job)), []);
            var key := RunKey(repo, runId);
            && p.ok && key in p.db.runs && p.db.repos == db.repos
            && p.db.runs[key].pipeline == workflow
            && p.db.runs[key].status == "in_progress" && p.db.runs[key].conclusion == ""
            && p.db.runs[key].startedAt == p.db.runs[key].completedAt == None && p.db.runs[key].url == ""
            && (key in db.runs ==>
                  && p.db.runs[key].branch == db.runs[key].branch && p.db.runs[key].sha == db.runs[key].sha
                  && p.db.runs[key].message == db.runs[key].message && p.db.runs[key].actor == db.runs[key].actor)
            && Lookup(p.db.jobs, JobKey(key, job.id)) == Some(View(job))
            && !UpToDate(KnownRuns(p.db, repo), r)
  {
    var key := RunKey(repo, runId);
    var w := PutRun(key, Stub(workflow));
    var db1 := Apply(db, w).value;
    One(db, w, []);
    ExecAppend(db, [w], JobWrites(key, job), []);
    ExecOneJob(db1, key, job);
    var after := Exec(db, DeliveryWrites(repo, JobEvent(runId, workflow, job)), []).db;
    assert after == db1.(jobs := db1.jobs[JobKey(key, job.id) := View(job)]);
    hide Exec;
    assert forall k :: k in after.runs && k.repo == repo && k.run == runId ==> k == key;
  }

  ghost predicate ListsFinished(forge: Forge, run: int) {
    exists r :: r in forge.listing && r.id == run && r.status == "completed"
  }

  ghost predicate StoredFinished(db: DB, key: RunKey) {
    key in db.runs && db.runs[key].status == "completed"
  }

  /** Exactly when one poll notices that a run is finished: when it is not answered 304. */
  lemma FinishNoticed(db: DB, repo: string, forge: Forge, run: int)
    requires repo in db.repos && db.repos[repo].client.GitHub?
    requires Answering(forge) && ListsFinished(forge, run)
    ensures var p := Poll(db, Stored(db, repo), forge, []);
            && repo in p.db.repos && p.db.repos[repo].client.GitHub?
            && (if Unchanged(forge, db.repos[repo].etag) then p.db == db else StoredFinished(p.db, RunKey(repo, run)))
  {
    Trusted(db, Stored(db, repo), forge);
    AbsorbAllRepos(db, repo, Trusting(forge, KnownRuns(db, repo)));
    if !Unchanged(forge, db.repos[repo].etag) {
      var r :| r in forge.listing && r.id == run && r.status == "completed";
      CatchesUp(db, Stored(db, repo), forge, r);
    }
  }

  lemma {:induction false} StaysFinished(db: DB, repo: string, forges: seq<Forge>, run: int)
    requires repo in db.repos && db.repos[repo].client.GitHub? && StoredFinished(db, RunKey(repo, run))
    requires forall f :: f in forges ==> Answering(f) && ListsFinished(f, run)
    ensures StoredFinished(CachedPolls(db, repo, forges), RunKey(repo, run))
    decreases |forges|
  {
    if forges != [] {
      assert forges[0] in forges;
      FinishNoticed(db, repo, forges[0], run);
      hide Poll;
      hide Unchanged;
      hide StoredFinished;
      StaysFinished(Poll(db, Stored(db, repo), forges[0], []).db, repo, forges[1..], run);
    }
  }

  lemma {:induction false} NoticedAtLast(db: DB, repo: string, forges: seq<Forge>, run: int)
    requires repo in db.repos && db.repos[repo].client.GitHub? && !StoredFinished(db, RunKey(repo, run))
    requires forall f :: f in forges ==> Answering(f) && ListsFinished(f, run)
    ensures StoredFinished(CachedPolls(db, repo, forges), RunKey(repo, run)) <==>
            exists f :: f in forges && !Unchanged(f, db.repos[repo].etag)
    decreases |forges|
  {
    if forges != [] {
      assert forges[0] in forges && forges == [forges[0]] + forges[1..];
      FinishNoticed(db, repo, forges[0], run);
      var next := Poll(db, Stored(db, repo), forges[0], []).db;
      hide Poll;
      hide StoredFinished;
      hide ListsFinished;
      hide Answering;
      if Unchanged(forges[0], db.repos[repo].etag) {
        NoticedAtLast(db, repo, forges[1..], run);
      } else {
        StaysFinished(next, repo, forges[1..], run);
      }
    }
  }

  /**
  Exactly when polling fills in what a job delivery wiped: a finished run the delivery reset is
  stored as finished again after a run of undisturbed polls if and only if one of them is answered
  with something other than the ETag that was stored before the delivery.
  */
  lemma ReopenedUntilAnswered(
    db: DB, repo: string, runId: int, workflow: string, job: JobSnapshot, forges: seq<Forge>)
    requires repo in db.repos && db.repos[repo].client.GitHub? && DistinctNumbers(job.steps)
    requires forall f :: f in forges ==> Answering(f) && ListsFinished(f, runId)
    ensures var p := Exec(db, DeliveryWrites(repo, JobEvent(runId, workflow, job)), []);
            && p.ok && repo in p.db.repos && !StoredFinished(p.db, RunKey(repo, runId))
            && (StoredFinished(CachedPolls(p.db, repo, forges), RunKey(repo, runId)) <==>
                exists f :: f in forges && !Unchanged(f, db.repos[repo].etag))
  {
    var r := ForgeRun(runId, "", "", "", None, None, "", "", "", "", "", None);
    JobDeliveryReopens(db, repo, runId, workflow, job, r);
    hide Exec;
    hide DeliveryWrites;
    var p := Exec(db, DeliveryWrites(repo, JobEvent(runId, workflow, job)), []);
    NoticedAtLast(p.db, repo, forges, runId);
  }

  /** A poll that meets the ETag it sent writes nothing, whatever storage calls fail. */
  lemma NothingNew(db: DB, repo: string, forge: Forge, faults: Faults)
    requires repo in db.repos && db.repos[repo].client.GitHub? && Unchanged(forge, db.repos[repo].etag)
    ensures Poll(db, Stored(db, repo), forge, faults).db == db
  {
    hide KnownRuns;
    hide Snapshots;
  }

  lemma {:induction false} NothingEverNew(db: DB, repo: string, forges: seq<Forge>, scripts: seq<Faults>)
    requires |scripts| == |forges| && repo in db.repos && db.repos[repo].client.GitHub?
    requires forall f :: f in forges ==> Unchanged(f, db.repos[repo].etag)
    ensures Polls(db, repo, forges, scripts) == db
    decreases |forges|
  {
    if forges != [] {
      assert forges[0] in forges;
      NothingNew(db, repo, forges[0], scripts[0]);
      hide Poll;
      NothingEverNew(db, repo, forges[1..], scripts[1..]);
    }
  }

  /**
  A job delivery that comes after its run's completion was polled leaves the finished run in
  progress for all later polls, and whatever they fail at, as long as the forge's ETag stays the one
  stored: the stub is not filled in.
  */
  lemma StubSticks(
    db: DB, repo: string, runId: int, workflow: string, job: JobSnapshot, later: seq<Forge>, scripts: seq<Faults>)
    requires repo in db.repos && db.repos[repo].client.GitHub? && DistinctNumbers(job.steps)
    requires |scripts| == |later| && forall f :: f in later ==> Unchanged(f, db.repos[repo].etag)
    ensures var p := Exec(db, DeliveryWrites(repo, JobEvent(runId, workflow, job)), []);
            var key := RunKey(repo, runId);
            && p.ok && key in Polls(p.db, repo, later, scripts).runs
            && Polls(p.db, repo, later, scripts).runs[key].status == "in_progress"
            && Polls(p.db, repo, later, scripts).runs[key].conclusion == ""
  {
    var r := ForgeRun(runId, "", "", "", None, None, "", "", "", "", "", None);
    JobDeliveryReopens(db, repo, runId, workflow, job, r);
    hide Exec;
    hide DeliveryWrites;
    NothingEverNew(Exec(db, DeliveryWrites(repo, JobEvent(runId, workflow, job)), []).db, repo, later, scripts);
  }

  /** The ETag stored once a poll that fetched an answer is done. */
  function EtagAfter(stored: string, forge: Forge): string {
    if forge.etag == "" then stored else forge.etag
  }

  /**
  Two polls, the second a 304: exactly when they still leave what two polls without caches leave.
  It is when the store the first one left has all of the second answer.
  */
  lemma SecondUnseen(db: DB, repo: string, a: Forge, b: Forge)
    requires repo in db.repos && db.repos[repo].client.GitHub? && Answering(a) && Answering(b)
    requires !Unchanged(a, db.repos[repo].etag) && SkippedMatch(db, repo, a)
    requires Unchanged(b, EtagAfter(db.repos[repo].etag, a))
    ensures var first := Poll(db, Stored(db, repo), a, []).db;
            && first == SimplePoll(db, repo, a).db
            && CachedPolls(db, repo, [a, b]) == first
            && (CachedPolls(db, repo, [a, b]) == SimplePolls(db, repo, [a, b]) <==> Absorbed(first, repo, b))
  {
    var first := Poll(db, Stored(db, repo), a, []).db;
    SkippingIsSafe(db, Stored(db, repo), a);
    AnsweredEtag(db, repo, a);
    hide Poll;
    hide SimplePoll;
    hide SkippedMatch;
    hide Absorbed;
    hide Answering;
    NotModifiedIsSafe(first, repo, b);
    TwoPolls(db, repo, a, b);
    hide CachedPolls;
    hide SimplePolls;
  }

  lemma AnsweredEtag(db: DB, repo: string, forge: Forge)
    requires repo in db.repos && db.repos[repo].client.GitHub? && Answering(forge)
    requires !Unchanged(forge, db.repos[repo].etag)
    ensures var after := Poll(db, Stored(db, repo), forge, []).db;
            repo in after.repos && after.repos[repo] == RepoRow(GitHub, EtagAfter(db.repos[repo].etag, forge))
  {
    Trusted(db, Stored(db, repo), forge);
    AbsorbAllRepos(db, repo, Trusting(forge, KnownRuns(db, repo)));
    hide Poll;
    hide SimplePoll;
    hide AbsorbAll;
    hide Trusting;
    hide KnownRuns;
  }

  lemma TwoPolls(db: DB, repo: string, a: Forge, b: Forge)
    requires repo in db.repos && repo in Poll(db, Stored(db, repo), a, []).db.repos
    ensures var first := Poll(db, Stored(db, repo), a, []).db;
            CachedPolls(db, repo, [a, b]) == Poll(first, Stored(first, repo), b, []).db
    ensures SimplePolls(db, repo, [a, b]) == SimplePoll(SimplePoll(db, repo, a).db, repo, b).db
  {
    hide Poll;
    hide SimplePoll;
    assert [a, b][1..] == [b] && [b][1..] == [];
    var first, simple := Poll(db, Stored(db, repo), a, []).db, SimplePoll(db, repo, a).db;
    assert CachedPolls(first, repo, [b]) == Poll(first, Stored(first, repo), b, []).db;
    assert SimplePolls(simple, repo, [b]) == SimplePoll(simple, repo, b).db;
  }

  /**
  Why an answer must carry an ETag: after one that does not, the stored ETag still names an older
  answer, and when the forge is back at that one its 304 keeps the newer one stored. That is right
  if and only if the newer answer left the older one absorbed.
  */
  lemma UnnamedAnswerLingers(db: DB, repo: string, named: Forge, unnamed: Forge)
    requires repo in db.repos && db.repos[repo] == RepoRow(GitHub, named.etag) && named.etag != ""
    requires Answering(named) && Answering(unnamed) && unnamed.etag == "" && SkippedMatch(db, repo, unnamed)
    ensures CachedPolls(db, repo, [unnamed, named]) == SimplePolls(db, repo, [unnamed, named]) <==>
            Absorbed(Poll(db, Stored(db, repo), unnamed, []).db, repo, named)
  {
    SecondUnseen(db, repo, unnamed, named);
  }

  /** What a forge answers of one run alone. */
  function Alone(etag: string, r: ForgeRun, jobs: seq<JobSnapshot>): Forge {
    Forge(true, etag, [r], map[r.id := jobs])
  }

  /** It does linger: whenever a run's status was another in the answer without an ETag. */
  lemma UnnamedStatusLingers(db: DB, repo: string, etag: string, now: ForgeRun, before: ForgeRun)
    requires repo in db.repos && db.repos[repo] == RepoRow(GitHub, etag) && etag != ""
    requires now.id == before.id && now.status != before.status && before.status != "completed"
    ensures var named, unnamed := Alone(etag, now, []), Alone("", before, []);
            CachedPolls(db, repo, [unnamed, named]) != SimplePolls(db, repo, [unnamed, named])
  {
    var named, unnamed := Alone(etag, now, []), Alone("", before, []);
    assert forall r :: r in unnamed.listing ==> r == before;
    assert now in named.listing && before in unnamed.listing;
    UnnamedAnswerLingers(db, repo, named, unnamed);
    CatchesUp(db, Stored(db, repo), unnamed, before);
    hide Poll;
    hide SimplePolls;
    hide CachedPolls;
  }

  lemma NoJobGained(db: DB, repo: string, etag: string, r: ForgeRun, at: JobKey)
    requires repo in db.repos && db.repos[repo] == RepoRow(GitHub, "") && r.status != "completed"
    requires at.key == RunKey(repo, r.id) && at !in db.jobs
    ensures at !in Poll(db, Stored(db, repo), Alone(etag, r, []), []).db.jobs
  {
    var a := Alone(etag, r, []);
    assert r in a.listing && a.listing[0] == r;
    Trusted(db, Stored(db, repo), a);
    hide Poll;
    hide SimplePoll;
    hide AbsorbAll;
    hide KnownRuns;
    hide Trusting;
    SkippingJobs(db, repo, a, KnownRuns(db, repo), at);
    NothingStored(db.jobs, at.key);
    hide StoreJobs;
  }

  lemma MissingJob(stored: map<JobKey, JobView>, key: RunKey, job: JobSnapshot)
    requires JobKey(key, job.id) !in stored
    ensures !JobsMatch(stored, key, [job])
  {
    assert LastJob([job], [job][0].id) == 0;
  }

  /**
  And why the two caches together need an ETag that stands for the jobs of running runs too. Here
  every finished run is kept, and the run list with its ETag is the same; a running run has gained a
  job. The second poll is a 304 and misses it.
  */
  lemma RunningJobsGoUnseen(w: World, db: DB, repo: string, etag: string, r: ForgeRun, job: JobSnapshot)
    requires repo in db.repos && db.repos[repo] == RepoRow(GitHub, "") && etag != ""
    requires r.status != "completed" && DistinctNumbers(job.steps) && JobKey(RunKey(repo, r.id), job.id) !in db.jobs
    ensures var a, b := Alone(etag, r, []), Alone(etag, r, [job]);
            && KeepsFinished(w, a) && KeepsFinished(w, b)
            && CachedPolls(db, repo, [a, b]) != SimplePolls(db, repo, [a, b])
  {
    var a, b := Alone(etag, r, []), Alone(etag, r, [job]);
    hide Poll;
    hide SimplePoll;
    hide SimplePolls;
    hide CachedPolls;
    assert r in b.listing;
    SecondUnseen(db, repo, a, b);
    NoJobGained(db, repo, etag, r, JobKey(RunKey(repo, r.id), job.id));
    hide KnownRuns;
    MissingJob(Poll(db, Stored(db, repo), a, []).db.jobs, RunKey(repo, r.id), job);
    hide JobsMatch;
  }
}
