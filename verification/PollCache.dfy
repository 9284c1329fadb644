/**
The two caches of a GitHub poll, the listing's ETag and the jobs of a finished run, against
the poll that keeps neither.
*/
module PollCache {
  import opened Common
  import opened Tables
  import opened RunStore
  import opened GithubClient
  import opened Reconcile

  function Lookup<K, V>(m: map<K, V>, k: K): Option<V> {
    if k in m then Some(m[k]) else None
  }

  lemma SameMap<K, V>(a: map<K, V>, b: map<K, V>)
    ensures a == b <==> forall k :: Lookup(a, k) == Lookup(b, k)
  {
    if forall k :: Lookup(a, k) == Lookup(b, k) {
      forall k
        ensures k in a <==> k in b
        ensures k in a ==> a[k] == b[k]
      {
        assert Lookup(a, k) == Lookup(b, k);
      }
    }
  }

  function View(job: JobSnapshot): JobView {
    JobView(job.data, job.steps)
  }

  /** The last snapshot of a job in a jobs listing, or -1. */
  function LastJob(jobs: seq<JobSnapshot>, id: int): (i: int)
    ensures -1 <= i < |jobs|
    ensures i >= 0 ==> jobs[i].id == id
    ensures forall j :: i < j < |jobs| ==> jobs[j].id != id
  {
    if jobs == [] then -1
    else if jobs[|jobs| - 1].id == id then |jobs| - 1
    else LastJob(jobs[..|jobs| - 1], id)
  }

  predicate StorableSteps(jobs: seq<JobSnapshot>) {
    forall j :: j in jobs ==> DistinctNumbers(j.steps)
  }

  function StoreJobs(stored: map<JobKey, JobView>, key: RunKey, jobs: seq<JobSnapshot>): map<JobKey, JobView>
    decreases |jobs|
  {
    if jobs == [] then stored
    else StoreJobs(stored[JobKey(key, jobs[0].id) := View(jobs[0])], key, jobs[1..])
  }

  /** Storing a run: its row, then its jobs. */
  function Absorb(db: DB, repo: string, run: RunSnapshot): DB {
    var key := RunKey(repo, run.id);
    DB(db.repos, db.runs[key := Upserted(db.runs, key, run.data)], StoreJobs(db.jobs, key, run.jobs))
  }

  function AbsorbAll(db: DB, repo: string, runs: seq<RunSnapshot>): DB
    decreases |runs|
  {
    if runs == [] then db else AbsorbAll(Absorb(db, repo, runs[0]), repo, runs[1..])
  }

  lemma {:induction false} StoreJobsAt(stored: map<JobKey, JobView>, key: RunKey, jobs: seq<JobSnapshot>, at: JobKey)
    ensures Lookup(StoreJobs(stored, key, jobs), at) ==
            if at.key == key && LastJob(jobs, at.jobId) >= 0 then Some(View(jobs[LastJob(jobs, at.jobId)]))
            else Lookup(stored, at)
    decreases |jobs|
  {
    if jobs != [] {
      StoreJobsAt(stored[JobKey(key, jobs[0].id) := View(jobs[0])], key, jobs[1..], at);
      var i, k := LastJob(jobs[1..], at.jobId), LastJob(jobs, at.jobId);
      assert forall j :: 0 < j < |jobs| ==> jobs[1..][j - 1] == jobs[j];
      assert i >= 0 ==> k == i + 1;
    }
  }

  lemma ExecOneJob(db: DB, key: RunKey, job: JobSnapshot)
    requires key in db.runs
    ensures var p := Exec(db, JobWrites(key, job), []);
            p.ok == DistinctNumbers(job.steps) && p.faults == [] &&
            (p.ok ==> p.db == db.(jobs := db.jobs[JobKey(key, job.id) := View(job)]))
  {
    var at := JobKey(key, job.id);
    var w1, w2 := PutJob(at, job.data), PutSteps(at, job.steps);
    assert JobWrites(key, job) == [w1] + [w2];
    hide Exec;
    hide DistinctNumbers;
    hide JobWrites;
    ExecAppend(db, [w1], [w2], []);
    One(db, w1, []);
    One(Apply(db, w1).value, w2, []);
    PutTwice(db, at, job);
  }

  lemma PutTwice(db: DB, at: JobKey, job: JobSnapshot)
    requires at.key in db.runs
    ensures var mid := Apply(db, PutJob(at, job.data));
            && mid.Some?
            && Apply(mid.value, PutSteps(at, job.steps)) ==
               if DistinctNumbers(job.steps) then Some(db.(jobs := db.jobs[at := View(job)])) else None
  {
    hide DistinctNumbers;
    var mid := JobView(job.data, StepsAt(db.jobs, at));
    assert db.jobs[at := mid][at := View(job)] == db.jobs[at := View(job)];
  }

  lemma {:induction false} ExecJobs(db: DB, key: RunKey, jobs: seq<JobSnapshot>)
    requires key in db.runs
    ensures var p := Exec(db, JobsWrites(key, jobs), []);
            p.ok == StorableSteps(jobs)
                && (p.ok ==> p.faults == [] && p.db == db.(jobs := StoreJobs(db.jobs, key, jobs)))
    decreases |jobs|
  {
    if jobs == [] {
    } else {
      assert jobs == [jobs[0]] + jobs[1..];
      ExecOneJob(db, key, jobs[0]);
      ExecAppend(db, JobWrites(key, jobs[0]), JobsWrites(key, jobs[1..]), []);
      hide Exec;
      if DistinctNumbers(jobs[0].steps) {
        ExecJobs(db.(jobs := db.jobs[JobKey(key, jobs[0].id) := View(jobs[0])]), key, jobs[1..]);
      }
    }
  }

  lemma ExecRun(db: DB, repo: string, run: RunSnapshot)
    requires repo in db.repos
    ensures var p := Exec(db, RunWrites(repo, run), []);
            p.ok == StorableSteps(run.jobs) && (p.ok ==> p.faults == [] && p.db == Absorb(db, repo, run))
  {
    var key := RunKey(repo, run.id);
    var w := PutRun(key, run.data);
    ExecAppend(db, [w], JobsWrites(key, run.jobs), []);
    One(db, w, []);
    hide Exec;
    ExecJobs(Apply(db, w).value, key, run.jobs);
  }

  predicate Storable(runs: seq<RunSnapshot>) {
    forall r :: r in runs ==> StorableSteps(r.jobs)
  }

  lemma {:induction false} ExecRuns(db: DB, repo: string, runs: seq<RunSnapshot>)
    requires repo in db.repos
    ensures var p := Exec(db, RunsWrites(repo, runs), []);
            p.ok == Storable(runs) && (p.ok ==> p.faults == [] && p.db == AbsorbAll(db, repo, runs))
    decreases |runs|
  {
    hide StorableSteps;
    if runs == [] {
    } else {
      assert runs == [runs[0]] + runs[1..];
      ExecRun(db, repo, runs[0]);
      ExecAppend(db, RunWrites(repo, runs[0]), RunsWrites(repo, runs[1..]), []);
      hide Exec;
      if Exec(db, RunWrites(repo, runs[0]), []).ok {
        ExecRuns(Absorb(db, repo, runs[0]), repo, runs[1..]);
      }
    }
  }

  function Finished(db: DB, repo: string, result: Listing): DB
    requires repo in db.repos
  {
    if !result.Fetched? then db
    else
      var after := AbsorbAll(db, repo, result.runs);
      if result.etag == "" then after
      else DB(db.repos[repo := db.repos[repo].(etag := result.etag)], after.runs, after.jobs)
  }

  lemma {:induction false} AbsorbAllRepos(db: DB, repo: string, runs: seq<RunSnapshot>)
    ensures AbsorbAll(db, repo, runs).repos == db.repos
    decreases |runs|
  {
    if runs != [] {
      AbsorbAllRepos(Absorb(db, repo, runs[0]), repo, runs[1..]);
    }
  }

  /** A poll that no store call disturbs, in one step; it goes through exactly when its steps can be stored. */
  lemma ExecListing(db: DB, repo: string, result: Listing)
    requires repo in db.repos
    ensures var p := Exec(db, PollWrites(repo, result), []);
            && (p.ok <==> !result.Fetched? || Storable(result.runs))
            && (p.ok ==> p.db == Finished(db, repo, result))
  {
    if result.Fetched? {
      ExecRuns(db, repo, result.runs);
      AbsorbAllRepos(db, repo, result.runs);
      var last := if result.etag == "" then [] else [PutEtag(repo, result.etag)];
      ExecAppend(db, RunsWrites(repo, result.runs), last, []);
      if Storable(result.runs) && result.etag != "" {
        One(AbsorbAll(db, repo, result.runs), PutEtag(repo, result.etag), []);
      }
    }
  }

  predicate DistinctRuns(listing: seq<ForgeRun>) {
    forall i, j :: 0 <= i < j < |listing| ==> listing[i].id != listing[j].id
  }

  /** A forge that answers every request, lists a run once, and numbers a job's steps apart. */
  predicate Answering(forge: Forge) {
    && forge.up
    && DistinctRuns(forge.listing)
    && (forall r :: r in forge.listing ==> r.id in forge.jobs && StorableSteps(forge.jobs[r.id]))
  }

  /** The jobs a store holds for a run are the ones a jobs listing gives, last entry first. */
  predicate JobsMatch(stored: map<JobKey, JobView>, key: RunKey, jobs: seq<JobSnapshot>) {
    forall i :: 0 <= i < |jobs| && LastJob(jobs, jobs[i].id) == i ==>
      Lookup(stored, JobKey(key, jobs[i].id)) == Some(View(jobs[i]))
  }

  /** Distinct runs are stored independently of each other. */
  lemma {:induction false} AbsorbAllAt(db: DB, repo: string, runs: seq<RunSnapshot>, at: JobKey)
    requires forall i, j :: 0 <= i < j < |runs| ==> runs[i].id != runs[j].id
    ensures forall i :: 0 <= i < |runs| && at.key == RunKey(repo, runs[i].id) ==>
      Lookup(AbsorbAll(db, repo, runs).jobs, at) == Lookup(StoreJobs(db.jobs, at.key, runs[i].jobs), at)
    ensures (forall i :: 0 <= i < |runs| ==> at.key != RunKey(repo, runs[i].id)) ==>
      Lookup(AbsorbAll(db, repo, runs).jobs, at) == Lookup(db.jobs, at)
    decreases |runs|
  {
    if runs != [] {
      var key := RunKey(repo, runs[0].id);
      AbsorbAllAt(Absorb(db, repo, runs[0]), repo, runs[1..], at);
      StoreJobsAt(db.jobs, key, runs[0].jobs, at);
      assert forall i :: 0 < i < |runs| ==> runs[1..][i - 1] == runs[i];
      forall i | 0 <= i < |runs| && at.key == RunKey(repo, runs[i].id)
        ensures Lookup(AbsorbAll(db, repo, runs).jobs, at) == Lookup(StoreJobs(db.jobs, at.key, runs[i].jobs), at)
      {
        if i > 0 {
          assert at.key == RunKey(repo, runs[1..][i - 1].id);
          StoreJobsAt(db.jobs, at.key, runs[i].jobs, at);
          StoreJobsAt(Absorb(db, repo, runs[0]).jobs, at.key, runs[i].jobs, at);
        } else {
          assert forall j :: 0 <= j < |runs[1..]| ==> at.key != RunKey(repo, runs[1..][j].id);
        }
      }
    }
  }

  lemma {:induction false} AbsorbAllRunAt(db: DB, repo: string, runs: seq<RunSnapshot>, key: RunKey)
    requires forall i, j :: 0 <= i < j < |runs| ==> runs[i].id != runs[j].id
    ensures forall i :: 0 <= i < |runs| && key == RunKey(repo, runs[i].id) ==>
      Lookup(AbsorbAll(db, repo, runs).runs, key) == Some(Upserted(db.runs, key, runs[i].data))
    ensures (forall i :: 0 <= i < |runs| ==> key != RunKey(repo, runs[i].id)) ==>
      Lookup(AbsorbAll(db, repo, runs).runs, key) == Lookup(db.runs, key)
    decreases |runs|
  {
    if runs != [] {
      AbsorbAllRunAt(Absorb(db, repo, runs[0]), repo, runs[1..], key);
      assert forall i :: 0 < i < |runs| ==> runs[1..][i - 1] == runs[i];
      forall i | 0 <= i < |runs| && key == RunKey(repo, runs[i].id)
        ensures Lookup(AbsorbAll(db, repo, runs).runs, key) == Some(Upserted(db.runs, key, runs[i].data))
      {
        if i > 0 {
          assert key == RunKey(repo, runs[1..][i - 1].id);
        } else {
          assert forall j :: 0 <= j < |runs[1..]| ==> key != RunKey(repo, runs[1..][j].id);
        }
      }
    }
  }

  /** The snapshots of a poll that trusts `known`. */
  function Trusting(forge: Forge, known: map<int, RunState>): seq<RunSnapshot>
    requires Answering(forge)
  {
    seq(|forge.listing|, i requires 0 <= i < |forge.listing| =>
      RunSnapshot(forge.listing[i].id, RunOf(forge.listing[i]),
                  if UpToDate(known, forge.listing[i]) then [] else forge.jobs[forge.listing[i].id]))
  }

  lemma TrustingIs(forge: Forge, known: map<int, RunState>)
    requires Answering(forge)
    ensures Snapshots(forge, known, forge.listing) == Some(Trusting(forge, known))
    ensures Storable(Trusting(forge, known))
  {
    SnapshotsAt(forge, known, forge.listing);
    var runs := Snapshots(forge, known, forge.listing).value;
    assert forall i :: 0 <= i < |runs| ==>
        forge.listing[i] in forge.listing && Snapshot(forge, known, forge.listing[i]) == Some(runs[i]);
    assert runs == Trusting(forge, known);
  }

  /** The poll with both caches off: no ETag sent, nothing known, every run's jobs fetched. */
  function SimplePoll(db: DB, repo: string, forge: Forge): Progress {
    Exec(db, PollWrites(repo, List(forge, "", map[])), [])
  }

  /** What the store holds of the runs a poll skips, against the forge. */
  predicate SkippedMatch(db: DB, repo: string, forge: Forge)
    requires Answering(forge)
  {
    forall r :: r in forge.listing && UpToDate(KnownRuns(db, repo), r) ==>
      JobsMatch(db.jobs, RunKey(repo, r.id), forge.jobs[r.id])
  }

  lemma Trusted(db: DB, repo: Repo, forge: Forge)
    requires repo.client.GitHub? && repo.id in db.repos && Answering(forge)
    ensures var p := Poll(db, repo, forge, []);
            p.ok && p.db == if Unchanged(forge, repo.etag) then db
                            else Finished(db, repo.id, Fetched(forge.etag, Trusting(forge, KnownRuns(db, repo.id))))
    ensures var p := SimplePoll(db, repo.id, forge);
            p.ok && p.db == Finished(db, repo.id, Fetched(forge.etag, Trusting(forge, map[])))
  {
    hide Exec;
    hide PollWrites;
    hide Snapshots;
    hide AbsorbAll;
    hide Storable;
    hide Trusting;
    hide KnownRuns;
    TrustingIs(forge, KnownRuns(db, repo.id));
    TrustingIs(forge, map[]);
    ExecListing(db, repo.id, List(forge, repo.etag, KnownRuns(db, repo.id)));
    ExecListing(db, repo.id, List(forge, "", map[]));
  }

  /** The two polls store the same run rows. */
  lemma SkippingRuns(db: DB, repo: string, forge: Forge, known: map<int, RunState>, key: RunKey)
    requires Answering(forge)
    ensures var skip, full := AbsorbAll(db, repo, Trusting(forge, known)), AbsorbAll(db, repo, Trusting(forge, map[]));
            Lookup(skip.runs, key) == Lookup(full.runs, key)
  {
    var a, b := Trusting(forge, known), Trusting(forge, map[]);
    assert forall i :: 0 <= i < |forge.listing| ==> a[i].id == b[i].id == forge.listing[i].id && a[i].data == b[i].data;
    AbsorbAllRunAt(db, repo, a, key);
    AbsorbAllRunAt(db, repo, b, key);
    hide AbsorbAll;
    if i :| 0 <= i < |forge.listing| && key == RunKey(repo, forge.listing[i].id) {
      assert key == RunKey(repo, a[i].id) == RunKey(repo, b[i].id);
    }
  }

  /** A poll stores a listed run's jobs, unless it skips them, and no other run's. */
  lemma SkippingJobs(db: DB, repo: string, forge: Forge, known: map<int, RunState>, at: JobKey)
    requires Answering(forge)
    ensures var after := AbsorbAll(db, repo, Trusting(forge, known));
            && (forall i :: 0 <= i < |forge.listing| && at.key == RunKey(repo, forge.listing[i].id) ==>
                  var r := forge.listing[i];
                  && r in forge.listing
                  && Lookup(after.jobs, at) ==
                     if UpToDate(known, r) then Lookup(db.jobs, at)
                 else Lookup(StoreJobs(db.jobs, at.key, forge.jobs[r.id]), at))
            && ((forall i :: 0 <= i < |forge.listing| ==> at.key != RunKey(repo, forge.listing[i].id)) ==>
                  Lookup(after.jobs, at) == Lookup(db.jobs, at))
  {
    var a := Trusting(forge, known);
    assert forall i :: 0 <= i < |forge.listing| ==> a[i].id == forge.listing[i].id;
    AbsorbAllAt(db, repo, a, at);
    hide AbsorbAll;
    forall i | 0 <= i < |forge.listing| && at.key == RunKey(repo, forge.listing[i].id)
      ensures var r := forge.listing[i];
              && r in forge.listing
              && Lookup(AbsorbAll(db, repo, a).jobs, at) ==
                 if UpToDate(known, r) then Lookup(db.jobs, at)
                     else Lookup(StoreJobs(db.jobs, at.key, forge.jobs[r.id]), at)
    {
      assert at.key == RunKey(repo, a[i].id);
      NothingStored(db.jobs, at.key);
    }
  }

  lemma NothingStored(stored: map<JobKey, JobView>, key: RunKey)
    ensures StoreJobs(stored, key, []) == stored
  {
  }

  lemma MatchIsNoChange(stored: map<JobKey, JobView>, key: RunKey, jobs: seq<JobSnapshot>)
    ensures JobsMatch(stored, key, jobs) <==>
            forall id :: Lookup(StoreJobs(stored, key, jobs), JobKey(key, id)) == Lookup(stored, JobKey(key, id))
  {
    forall id {:trigger JobKey(key, id)}
      ensures Lookup(StoreJobs(stored, key, jobs), JobKey(key, id)) ==
              if LastJob(jobs, id) >= 0 then Some(View(jobs[LastJob(jobs, id)])) else Lookup(stored, JobKey(key, id))
    {
      StoreJobsAt(stored, key, jobs, JobKey(key, id));
    }
    hide StoreJobs;
    if forall id :: Lookup(StoreJobs(stored, key, jobs), JobKey(key, id)) == Lookup(stored, JobKey(key, id)) {
      forall i | 0 <= i < |jobs| && LastJob(jobs, jobs[i].id) == i
        ensures Lookup(stored, JobKey(key, jobs[i].id)) == Some(View(jobs[i]))
      {
        assert Lookup(StoreJobs(stored, key, jobs), JobKey(key, jobs[i].id)) == Lookup(stored, JobKey(key, jobs[i].id));
      }
    }
  }

  lemma SameJobsMatch(db: DB, repo: string, forge: Forge, known: map<int, RunState>, r: ForgeRun)
    requires Answering(forge) && r in forge.listing && UpToDate(known, r)
    requires AbsorbAll(db, repo, Trusting(forge, known)).jobs == AbsorbAll(db, repo, Trusting(forge, map[])).jobs
    ensures JobsMatch(db.jobs, RunKey(repo, r.id), forge.jobs[r.id])
  {
    var key := RunKey(repo, r.id);
    var i :| 0 <= i < |forge.listing| && forge.listing[i] == r;
    hide AbsorbAll;
    hide Trusting;
    hide Lookup;
    forall id {:trigger JobKey(key, id)}
      ensures Lookup(StoreJobs(db.jobs, key, forge.jobs[r.id]), JobKey(key, id)) == Lookup(db.jobs, JobKey(key, id))
    {
      SkippingJobs(db, repo, forge, known, JobKey(key, id));
      SkippingJobs(db, repo, forge, map[], JobKey(key, id));
    }
    MatchIsNoChange(db.jobs, key, forge.jobs[r.id]);
    hide StoreJobs;
    hide JobsMatch;
  }

  lemma MatchSameJobs(db: DB, repo: string, forge: Forge, at: JobKey)
    requires Answering(forge) && SkippedMatch(db, repo, forge)
    ensures Lookup(AbsorbAll(db, repo, Trusting(forge, KnownRuns(db, repo))).jobs, at) ==
            Lookup(AbsorbAll(db, repo, Trusting(forge, map[])).jobs, at)
  {
    SkippingJobs(db, repo, forge, KnownRuns(db, repo), at);
    SkippingJobs(db, repo, forge, map[], at);
    hide AbsorbAll;
    hide Trusting;
    hide KnownRuns;
    hide StoreJobs;
    hide JobsMatch;
    hide Lookup;
    if i :| 0 <= i < |forge.listing| && at.key == RunKey(repo, forge.listing[i].id) {
      var r := forge.listing[i];
      MatchIsNoChange(db.jobs, at.key, forge.jobs[r.id]);
      assert at == JobKey(at.key, at.jobId);
    }
  }

  /**
  Exactly when skipping is safe. A poll the server answers in full leaves the store a poll with
  no caches would leave, if and only if the jobs already stored for each run it skips are the
  ones the forge lists.
  */
  lemma SkippingIsSafe(db: DB, repo: Repo, forge: Forge)
    requires repo.client.GitHub? && repo.id in db.repos && Answering(forge) && !Unchanged(forge, repo.etag)
    ensures Poll(db, repo, forge, []).ok && SimplePoll(db, repo.id, forge).ok
    ensures Poll(db, repo, forge, []).db == SimplePoll(db, repo.id, forge).db <==> SkippedMatch(db, repo.id, forge)
  {
    var known := KnownRuns(db, repo.id);
    Trusted(db, repo, forge);
    var skip, full := AbsorbAll(db, repo.id, Trusting(forge, known)), AbsorbAll(db, repo.id, Trusting(forge, map[]));
    AbsorbAllRepos(db, repo.id, Trusting(forge, known));
    AbsorbAllRepos(db, repo.id, Trusting(forge, map[]));
    hide Poll;
    hide SimplePoll;
    hide AbsorbAll;
    hide KnownRuns;
    hide Trusting;
    hide JobsMatch;
    forall key: RunKey
      ensures Lookup(skip.runs, key) == Lookup(full.runs, key)
    {
      SkippingRuns(db, repo.id, forge, known, key);
    }
    SameMap(skip.runs, full.runs);
    SameMap(skip.jobs, full.jobs);
    hide Lookup;
    if skip.jobs == full.jobs {
      forall r | r in forge.listing && UpToDate(known, r)
        ensures JobsMatch(db.jobs, RunKey(repo.id, r.id), forge.jobs[r.id])
      {
        SameJobsMatch(db, repo.id, forge, known, r);
      }
    }
    if SkippedMatch(db, repo.id, forge) {
      forall at: JobKey
        ensures Lookup(skip.jobs, at) == Lookup(full.jobs, at)
      {
        MatchSameJobs(db, repo.id, forge, at);
      }
    }
  }
}
