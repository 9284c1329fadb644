/**
Repositories do not disturb each other: what ReconcileAll leaves of one repository is what a
poll of it alone would leave, whatever the others' polls do or fail at.
*/
module Isolation {
  import opened Common
  import opened Tables
  import opened RunStore
  import opened GithubClient
  import opened Reconcile
  import opened PollCache

  /** Two stores hold the same rows for a repository. */
  ghost predicate Agree(a: DB, b: DB, repo: string) {
    && Lookup(a.repos, repo) == Lookup(b.repos, repo)
    && (forall k: RunKey :: k.repo == repo ==> Lookup(a.runs, k) == Lookup(b.runs, k))
    && (forall at: JobKey :: at.key.repo == repo ==> Lookup(a.jobs, at) == Lookup(b.jobs, at))
  }

  lemma AgreeTransitive(a: DB, b: DB, c: DB, repo: string)
    requires Agree(a, b, repo) && Agree(b, c, repo)
    ensures Agree(a, c, repo)
  {
    forall k: RunKey | k.repo == repo
      ensures Lookup(a.runs, k) == Lookup(c.runs, k)
    {
      assert Lookup(a.runs, k) == Lookup(b.runs, k) == Lookup(c.runs, k);
    }
    forall at: JobKey | at.key.repo == repo
      ensures Lookup(a.jobs, at) == Lookup(c.jobs, at)
    {
      assert Lookup(a.jobs, at) == Lookup(b.jobs, at) == Lookup(c.jobs, at);
    }
  }

  lemma ApplyElsewhere(db: DB, w: Write, repo: string)
    requires Owner(w) != repo && Apply(db, w).Some?
    ensures Agree(Apply(db, w).value, db, repo)
  {
  }

  lemma ApplyHere(a: DB, b: DB, w: Write)
    requires Agree(a, b, Owner(w))
    ensures Apply(a, w).Some? <==> Apply(b, w).Some?
    ensures Apply(a, w).Some? ==> Agree(Apply(a, w).value, Apply(b, w).value, Owner(w))
  {
    match w
    case PutRun(key, run) =>
      assert Lookup(a.repos, key.repo) == Lookup(b.repos, key.repo) && Lookup(a.runs, key) == Lookup(b.runs, key);
      if Apply(a, w).Some? {
        PutRunHere(a, b, key, Upserted(a.runs, key, run));
      }
    case PutJob(at, job) =>
      assert Lookup(a.runs, at.key) == Lookup(b.runs, at.key) && Lookup(a.jobs, at) == Lookup(b.jobs, at);
      PutJobHere(a, b, at, JobView(job, StepsAt(a.jobs, at)));
    case PutSteps(at, steps) =>
      assert Lookup(a.jobs, at) == Lookup(b.jobs, at);
      if Apply(a, w).Some? {
        PutJobHere(a, b, at, JobView(a.jobs[at].data, steps));
      }
    case PutEtag(repo, _) =>
      assert Lookup(a.repos, repo) == Lookup(b.repos, repo);
  }

  lemma PutRunHere(a: DB, b: DB, key: RunKey, run: RunData)
    requires Agree(a, b, key.repo)
    ensures Agree(a.(runs := a.runs[key := run]), b.(runs := b.runs[key := run]), key.repo)
  {
    forall k: RunKey | k.repo == key.repo
      ensures Lookup(a.runs[key := run], k) == Lookup(b.runs[key := run], k)
    {
      assert Lookup(a.runs, k) == Lookup(b.runs, k);
    }
  }

  lemma PutJobHere(a: DB, b: DB, at: JobKey, view: JobView)
    requires Agree(a, b, at.key.repo)
    ensures Agree(a.(jobs := a.jobs[at := view]), b.(jobs := b.jobs[at := view]), at.key.repo)
  {
    forall other: JobKey | other.key.repo == at.key.repo
      ensures Lookup(a.jobs[at := view], other) == Lookup(b.jobs[at := view], other)
    {
      assert Lookup(a.jobs, other) == Lookup(b.jobs, other);
    }
  }

  lemma {:induction false} ExecElsewhere(db: DB, ws: seq<Write>, faults: Faults, repo: string)
    requires forall w :: w in ws ==> Owner(w) != repo
    ensures Agree(Exec(db, ws, faults).db, db, repo)
    decreases |ws|
  {
    if ws != [] && !Failing(faults) && Apply(db, ws[0]).Some? {
      var next := Apply(db, ws[0]).value;
      ApplyElsewhere(db, ws[0], repo);
      hide Apply;
      ExecElsewhere(next, ws[1..], Rest(faults), repo);
      hide Agree;
      AgreeTransitive(Exec(next, ws[1..], Rest(faults)).db, next, db, repo);
    }
  }

  /** Writes to one repository see and change nothing else. */
  lemma {:induction false} ExecHere(a: DB, b: DB, ws: seq<Write>, faults: Faults, repo: string)
    requires forall w :: w in ws ==> Owner(w) == repo
    requires Agree(a, b, repo)
    ensures var p, q := Exec(a, ws, faults), Exec(b, ws, faults);
            p.ok == q.ok && p.done == q.done && p.faults == q.faults && Agree(p.db, q.db, repo)
    decreases |ws|
  {
    if ws != [] {
      assert Owner(ws[0]) == repo;
      ApplyHere(a, b, ws[0]);
      if !Failing(faults) && Apply(a, ws[0]).Some? {
        ExecHere(Apply(a, ws[0]).value, Apply(b, ws[0]).value, ws[1..], Rest(faults), repo);
      }
    }
  }

  lemma {:induction false} JobsWritesOwner(key: RunKey, jobs: seq<JobSnapshot>)
    ensures forall w :: w in JobsWrites(key, jobs) ==> Owner(w) == key.repo
  {
    if jobs != [] {
      JobsWritesOwner(key, jobs[1..]);
    }
  }

  lemma {:induction false} PollWritesOwner(repo: string, runs: seq<RunSnapshot>)
    ensures forall w :: w in RunsWrites(repo, runs) ==> Owner(w) == repo
  {
    if runs != [] {
      JobsWritesOwner(RunKey(repo, runs[0].id), runs[0].jobs);
      PollWritesOwner(repo, runs[1..]);
    }
  }

  lemma WritesOwner(repo: string, result: Listing)
    ensures forall w :: w in PollWrites(repo, result) ==> Owner(w) == repo
  {
    if result.Fetched? {
      PollWritesOwner(repo, result.runs);
    }
  }

  lemma KnownRunsHere(a: DB, b: DB, repo: string)
    requires Agree(a, b, repo)
    ensures KnownRuns(a, repo) == KnownRuns(b, repo)
  {
    forall run: int
      ensures Lookup(KnownRuns(a, repo), run) == Lookup(KnownRuns(b, repo), run)
    {
      var k := RunKey(repo, run);
      assert Lookup(a.runs, k) == Lookup(b.runs, k);
      KnownRunAt(a, repo, run);
      KnownRunAt(b, repo, run);
    }
    SameMap(KnownRuns(a, repo), KnownRuns(b, repo));
  }

  lemma KnownRunAt(db: DB, repo: string, run: int)
    ensures Lookup(KnownRuns(db, repo), run) ==
            if RunKey(repo, run) in db.runs
            then Some(RunState(db.runs[RunKey(repo, run)].status, db.runs[RunKey(repo, run)].conclusion))
            else None
  {
    if RunKey(repo, run) in db.runs {
      assert run in KnownRuns(db, repo);
    }
  }

  lemma PollElsewhere(db: DB, repo: Repo, forge: Forge, faults: Faults, other: string)
    requires other != repo.id
    ensures Agree(Poll(db, repo, forge, faults).db, db, other)
  {
    var result := Answer(repo, forge, KnownRuns(db, repo.id));
    WritesOwner(repo.id, result);
    ExecElsewhere(db, PollWrites(repo.id, result), Rest(Rest(faults)), other);
  }

  lemma PollHere(a: DB, b: DB, repo: Repo, forge: Forge, faults: Faults)
    requires Agree(a, b, repo.id)
    ensures Agree(Poll(a, repo, forge, faults).db, Poll(b, repo, forge, faults).db, repo.id)
    ensures Poll(a, repo, forge, faults).done == Poll(b, repo, forge, faults).done
  {
    KnownRunsHere(a, b, repo.id);
    TrackedHere(a, b, repo.id);
    hide Agree;
    hide KnownRuns;
    hide Exec;
    hide PollWrites;
    hide Answer;
    hide Rest;
    hide Failing;
    var result := Answer(repo, forge, KnownRuns(a, repo.id));
    if !(repo.client.Unregistered? || Failing(faults) || repo.id !in a.repos
         || Failing(Rest(faults)) || result.Failed?) {
      WritesHere(a, b, repo.id, result, Rest(Rest(faults)));
    }
  }

  lemma WritesHere(a: DB, b: DB, repo: string, result: Listing, faults: Faults)
    requires Agree(a, b, repo)
    ensures var p, q := Exec(a, PollWrites(repo, result), faults), Exec(b, PollWrites(repo, result), faults);
            p.done == q.done && Agree(p.db, q.db, repo)
  {
    WritesOwner(repo, result);
    ExecHere(a, b, PollWrites(repo, result), faults, repo);
  }

  lemma TrackedHere(a: DB, b: DB, repo: string)
    requires Agree(a, b, repo)
    ensures repo in a.repos <==> repo in b.repos
  {
    assert Lookup(a.repos, repo) == Lookup(b.repos, repo);
  }

  ghost predicate DistinctRepos(repos: seq<Repo>) {
    forall i, j :: 0 <= i < j < |repos| ==> repos[i].id != repos[j].id
  }

  lemma {:induction false} UnlistedUntouched(
    db: DB, repos: seq<Repo>, forges: map<string, Forge>, faults: Faults, other: string)
    requires forall r :: r in repos ==> r.id != other
    ensures Agree(PollAll(db, repos, forges, faults).db, db, other)
    decreases |repos|
  {
    if repos != [] {
      var forge := ForgeOf(forges, repos[0].id);
      PollElsewhere(db, repos[0], forge, faults, other);
      hide Poll;
      hide Agree;
      var p := Poll(db, repos[0], forge, faults);
      UnlistedUntouched(p.db, repos[1..], forges, p.faults, other);
      AgreeTransitive(PollAll(db, repos, forges, faults).db, p.db, db, other);
    }
  }

  /** Once a repository's own turn is over, the later turns leave its rows alone. */
  lemma LaterTurns(db: DB, repos: seq<Repo>, forges: map<string, Forge>, faults: Faults, i: nat)
    requires DistinctRepos(repos) && i < |repos|
    ensures Agree(PollAll(db, repos, forges, faults).db, PollAll(db, repos[..i + 1], forges, faults).db, repos[i].id)
  {
    hide Agree;
    hide PollAll;
    PollAllAppend(db, repos[..i + 1], repos[i + 1..], forges, faults);
    assert repos == repos[..i + 1] + repos[i + 1..];
    var upTo := PollAll(db, repos[..i + 1], forges, faults);
    UnlistedUntouched(upTo.db, repos[i + 1..], forges, upTo.faults, repos[i].id);
  }

  /** A repository's turn starts from its rows as they were before any turn. */
  lemma EarlierTurns(db: DB, repos: seq<Repo>, forges: map<string, Forge>, faults: Faults, i: nat)
    requires DistinctRepos(repos) && i < |repos|
    ensures Agree(PollAll(db, repos[..i], forges, faults).db, db, repos[i].id)
  {
    UnlistedUntouched(db, repos[..i], forges, faults, repos[i].id);
  }

  /**
  After ReconcileAll, each repository's rows are what its own poll, run on the store as it was
  before any of the polls and meeting the faults its turn met, would have left.
  */
  lemma PolledAsIfAlone(db: DB, repos: seq<Repo>, forges: map<string, Forge>, faults: Faults, i: nat)
    requires DistinctRepos(repos) && i < |repos|
    ensures var repo := repos[i];
            var met := PollAll(db, repos[..i], forges, faults).faults;
            Agree(PollAll(db, repos, forges, faults).db, Poll(db, repo, ForgeOf(forges, repo.id), met).db, repo.id)
  {
    LaterTurns(db, repos, forges, faults, i);
    EarlierTurns(db, repos, forges, faults, i);
    hide Agree;
    hide PollAll;
    hide Poll;
    hide DistinctRepos;
    var repo, before := repos[i], PollAll(db, repos[..i], forges, faults);
    var forge := ForgeOf(forges, repo.id);
    hide ForgeOf;
    PollAllSnoc(db, repos, i, forges, faults, []);
    PollHere(before.db, db, repo, forge, before.faults);
    AgreeTransitive(
      PollAll(db, repos, forges, faults).db, PollAll(db, repos[..i + 1], forges, faults).db,
      Poll(db, repo, forge, before.faults).db, repo.id);
  }

  /** Snapshots of different runs can be stored in either order. */
  lemma SnapshotsCommute(db: DB, repo: string, a: RunSnapshot, b: RunSnapshot)
    requires repo in db.repos && a.id != b.id && StorableSteps(a.jobs) && StorableSteps(b.jobs)
    ensures var p := Exec(db, RunWrites(repo, a) + RunWrites(repo, b), []);
            var q := Exec(db, RunWrites(repo, b) + RunWrites(repo, a), []);
            p.ok && q.ok && p.db == q.db
  {
    ExecRun(db, repo, a);
    ExecRun(db, repo, b);
    ExecRun(Absorb(db, repo, a), repo, b);
    ExecRun(Absorb(db, repo, b), repo, a);
    ExecAppend(db, RunWrites(repo, a), RunWrites(repo, b), []);
    ExecAppend(db, RunWrites(repo, b), RunWrites(repo, a), []);
    AbsorbCommutes(db, repo, a, b);
  }

  lemma AbsorbCommutes(db: DB, repo: string, a: RunSnapshot, b: RunSnapshot)
    requires a.id != b.id
    ensures Absorb(Absorb(db, repo, a), repo, b) == Absorb(Absorb(db, repo, b), repo, a)
  {
    var p, q := Absorb(Absorb(db, repo, a), repo, b), Absorb(Absorb(db, repo, b), repo, a);
    var ka, kb := RunKey(repo, a.id), RunKey(repo, b.id);
    forall at: JobKey
      ensures Lookup(p.jobs, at) == Lookup(q.jobs, at)
    {
      StoreJobsAt(db.jobs, ka, a.jobs, at);
      StoreJobsAt(db.jobs, kb, b.jobs, at);
      StoreJobsAt(Absorb(db, repo, a).jobs, kb, b.jobs, at);
      StoreJobsAt(Absorb(db, repo, b).jobs, ka, a.jobs, at);
    }
    hide StoreJobs;
    SameMap(p.jobs, q.jobs);
    assert p.runs == q.runs;
  }
}
