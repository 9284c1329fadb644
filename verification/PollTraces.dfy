/**
Whole runs of polls: when both caches together stay invisible for ever, what breaks them, and
that once broken they stay so.
*/
module PollTraces {
  import opened Common
  import opened Tables
  import opened RunStore
  import opened GithubClient
  import opened Reconcile
  import opened PollCache

  /**
  What a forge would have to keep to for the caches to be sound: `final` gives the jobs of a
  run that has completed with a conclusion, `named` everything an ETag stands for.
  */
  datatype World = World(final: map<(int, string), seq<JobSnapshot>>, named: map<string, Forge>)

  /** A forge whose finished runs stay as they are; what it says of the others, and its ETags, are free. */
  ghost predicate KeepsFinished(w: World, forge: Forge) {
    && Answering(forge)
    && (forall r :: r in forge.listing && r.status == "completed" ==>
          (r.id, r.conclusion) in w.final && w.final[(r.id, r.conclusion)] == forge.jobs[r.id])
  }

  /** A forge whose ETag, besides, stands for its whole answer, the jobs of running runs included. */
  ghost predicate Honest(w: World, forge: Forge) {
    && KeepsFinished(w, forge)
    && forge.etag in w.named && forge.etag != "" && w.named[forge.etag] == forge
  }

  /** Each completed run a store holds has the jobs it finished with. */
  ghost predicate FinishedRunsMatch(w: World, db: DB, repo: string) {
    forall k :: k in db.runs && k.repo == repo && db.runs[k].status == "completed" ==>
      && (k.run, db.runs[k].conclusion) in w.final
      && JobsMatch(db.jobs, k, w.final[(k.run, db.runs[k].conclusion)])
  }

  /** Storing all of a forge's answer again would change nothing. */
  ghost predicate Absorbed(db: DB, repo: string, forge: Forge) {
    && Answering(forge)
    && (forall r :: r in forge.listing ==>
          && RunKey(repo, r.id) in db.runs
          && Merge(db.runs[RunKey(repo, r.id)], RunOf(r)) == db.runs[RunKey(repo, r.id)]
          && JobsMatch(db.jobs, RunKey(repo, r.id), forge.jobs[r.id]))
  }

  ghost predicate EtagAbsorbed(w: World, db: DB, repo: string)
    requires repo in db.repos
  {
    var etag := db.repos[repo].etag;
    etag != "" ==> etag in w.named && Absorbed(db, repo, w.named[etag])
  }

  ghost predicate Sound(w: World, db: DB, repo: string) {
    && repo in db.repos && db.repos[repo].client.GitHub?
    && FinishedRunsMatch(w, db, repo)
    && EtagAbsorbed(w, db, repo)
  }

  function Stored(db: DB, repo: string): Repo
    requires repo in db.repos
  {
    Repo(repo, db.repos[repo].client, db.repos[repo].etag)
  }

  lemma MergeTwice(kept: RunData, incoming: RunData)
    ensures Merge(Merge(kept, incoming), incoming) == Merge(kept, incoming)
    ensures Merge(incoming, incoming) == incoming
  {
  }

  /** Absorbing an answer that is already absorbed leaves the store as it is. */
  lemma AbsorbedIsNoChange(db: DB, repo: string, forge: Forge)
    requires Absorbed(db, repo, forge)
    ensures AbsorbAll(db, repo, Trusting(forge, map[])) == db
  {
    var full := Trusting(forge, map[]);
    var after := AbsorbAll(db, repo, full);
    AbsorbAllRepos(db, repo, full);
    assert forall i :: 0 <= i < |full| ==> full[i].id == forge.listing[i].id && full[i].data == RunOf(forge.listing[i]);
    forall at: JobKey
      ensures Lookup(after.jobs, at) == Lookup(db.jobs, at) && Lookup(after.runs, at.key) == Lookup(db.runs, at.key)
    {
      SkippingJobs(db, repo, forge, map[], at);
      AbsorbAllRunAt(db, repo, full, at.key);
      hide AbsorbAll;
      if i :| 0 <= i < |forge.listing| && at.key == RunKey(repo, forge.listing[i].id) {
        MatchIsNoChange(db.jobs, at.key, forge.jobs[forge.listing[i].id]);
        assert at == JobKey(at.key, at.jobId) && at.key == RunKey(repo, full[i].id);
      }
    }
    hide AbsorbAll;
    SameMap(after.jobs, db.jobs);
    forall key: RunKey
      ensures Lookup(after.runs, key) == Lookup(db.runs, key)
    {
      assert Lookup(after.runs, JobKey(key, 0).key) == Lookup(db.runs, JobKey(key, 0).key);
    }
    SameMap(after.runs, db.runs);
  }

  /** A full poll leaves its whole answer absorbed. */
  lemma FullyAbsorbed(db: DB, repo: string, forge: Forge)
    requires Answering(forge)
    ensures var after := AbsorbAll(db, repo, Trusting(forge, map[]));
            && (forall r :: r in forge.listing ==>
                  && RunKey(repo, r.id) in after.runs
                  && after.runs[RunKey(repo, r.id)] == Upserted(db.runs, RunKey(repo, r.id), RunOf(r))
                  && JobsMatch(after.jobs, RunKey(repo, r.id), forge.jobs[r.id]))
            && Absorbed(after, repo, forge)
  {
    var full := Trusting(forge, map[]);
    var after := AbsorbAll(db, repo, full);
    assert forall i :: 0 <= i < |full| ==> full[i].id == forge.listing[i].id && full[i].data == RunOf(forge.listing[i]);
    forall r | r in forge.listing
      ensures
        && RunKey(repo, r.id) in after.runs
        && after.runs[RunKey(repo, r.id)] == Upserted(db.runs, RunKey(repo, r.id), RunOf(r))
        && JobsMatch(after.jobs, RunKey(repo, r.id), forge.jobs[r.id])
        && Merge(after.runs[RunKey(repo, r.id)], RunOf(r)) == after.runs[RunKey(repo, r.id)]
    {
      var key := RunKey(repo, r.id);
      var i :| 0 <= i < |forge.listing| && forge.listing[i] == r;
      AbsorbAllRunAt(db, repo, full, key);
      assert key == RunKey(repo, full[i].id);
      hide AbsorbAll;
      assert Lookup(after.runs, key) == Some(Upserted(db.runs, key, RunOf(r)));
      if key in db.runs {
        MergeTwice(db.runs[key], RunOf(r));
      } else {
        MergeTwice(RunOf(r), RunOf(r));
      }
      forall j | 0 <= j < |forge.jobs[r.id]| && LastJob(forge.jobs[r.id], forge.jobs[r.id][j].id) == j
        ensures Lookup(after.jobs, JobKey(key, forge.jobs[r.id][j].id)) == Some(View(forge.jobs[r.id][j]))
      {
        var at := JobKey(key, forge.jobs[r.id][j].id);
        SkippingJobs(db, repo, forge, map[], at);
        StoreJobsAt(db.jobs, key, forge.jobs[r.id], at);
      }
    }
  }

  /** Runs the poll does not list keep their row and their jobs. */
  lemma OthersKept(db: DB, repo: string, forge: Forge, at: JobKey)
    requires Answering(forge)
    requires forall r :: r in forge.listing ==> at.key != RunKey(repo, r.id)
    ensures var after := AbsorbAll(db, repo, Trusting(forge, map[]));
            Lookup(after.runs, at.key) == Lookup(db.runs, at.key) && Lookup(after.jobs, at) == Lookup(db.jobs, at)
  {
    var full := Trusting(forge, map[]);
    assert forall i :: 0 <= i < |full| ==> full[i].id == forge.listing[i].id && forge.listing[i] in forge.listing;
    AbsorbAllRunAt(db, repo, full, at.key);
    AbsorbAllAt(db, repo, full, at);
  }

  lemma FinishedAfter(w: World, db: DB, repo: string, forge: Forge)
    requires FinishedRunsMatch(w, db, repo) && KeepsFinished(w, forge)
    ensures FinishedRunsMatch(w, AbsorbAll(db, repo, Trusting(forge, map[])), repo)
  {
    var after := AbsorbAll(db, repo, Trusting(forge, map[]));
    FullyAbsorbed(db, repo, forge);
    forall k | k in after.runs && k.repo == repo && after.runs[k].status == "completed"
      ensures (k.run, after.runs[k].conclusion) in w.final
      ensures JobsMatch(after.jobs, k, w.final[(k.run, after.runs[k].conclusion)])
    {
      if r :| r in forge.listing && k == RunKey(repo, r.id) {
      } else {
        forall at: JobKey | at.key == k
          ensures Lookup(after.runs, k) == Lookup(db.runs, k) && Lookup(after.jobs, at) == Lookup(db.jobs, at)
        {
          OthersKept(db, repo, forge, at);
        }
        assert JobKey(k, 0).key == k;
        assert Lookup(after.runs, k) == Lookup(db.runs, k);
        hide AbsorbAll;
        assert after.runs[k] == db.runs[k];
      }
    }
  }

  lemma SkipsWhatMatches(w: World, db: DB, repo: string, forge: Forge)
    requires KeepsFinished(w, forge) && FinishedRunsMatch(w, db, repo)
    ensures SkippedMatch(db, repo, forge)
  {
    forall r | r in forge.listing && UpToDate(KnownRuns(db, repo), r)
      ensures JobsMatch(db.jobs, RunKey(repo, r.id), forge.jobs[r.id])
    {
      var k :| k in db.runs && k.repo == repo && k.run == r.id;
      assert k == RunKey(repo, r.id);
      assert w.final[(r.id, r.conclusion)] == forge.jobs[r.id];
    }
  }

  /**
  The skip of finished runs needs no more than that they stay as they are: a poll that is not
  answered 304 leaves exactly what a poll without caches leaves, and after any poll each completed
  run a store holds still has the jobs it finished with.
  */
  lemma FrozenStep(w: World, db: DB, repo: string, forge: Forge)
    requires repo in db.repos && db.repos[repo].client.GitHub?
    requires KeepsFinished(w, forge) && FinishedRunsMatch(w, db, repo)
    ensures var p := Poll(db, Stored(db, repo), forge, []);
            && p.ok && FinishedRunsMatch(w, p.db, repo)
            && repo in p.db.repos && p.db.repos[repo].client.GitHub?
            && (if Unchanged(forge, db.repos[repo].etag) then p.db == db
                else SimplePoll(db, repo, forge).ok && p.db == SimplePoll(db, repo, forge).db)
  {
    Trusted(db, Stored(db, repo), forge);
    if !Unchanged(forge, db.repos[repo].etag) {
      SkipsWhatMatches(w, db, repo, forge);
      SkippingIsSafe(db, Stored(db, repo), forge);
      FinishedAfter(w, db, repo, forge);
      AbsorbAllRepos(db, repo, Trusting(forge, map[]));
      var p, after := Poll(db, Stored(db, repo), forge, []).db, AbsorbAll(db, repo, Trusting(forge, map[]));
      hide SkippedMatch;
      hide Poll;
      hide SimplePoll;
      hide AbsorbAll;
      assert p.runs == after.runs && p.jobs == after.jobs;
    }
  }

  /** The store before poll i of a run of undisturbed polls. */
  function Before(db: DB, repo: string, forges: seq<Forge>, i: nat): DB
    requires repo in db.repos && i <= |forges|
  {
    CachedPolls(db, repo, forges[..i])
  }

  lemma BeforeNext(db: DB, repo: string, forges: seq<Forge>, i: nat)
    requires repo in db.repos && 0 < i <= |forges|
    requires repo in Poll(db, Stored(db, repo), forges[0], []).db.repos
    ensures Before(db, repo, forges, i) ==
        Before(Poll(db, Stored(db, repo), forges[0], []).db, repo, forges[1..], i - 1)
  {
    hide Poll;
    assert forges[..i][1..] == forges[1..][..i - 1] && forges[..i][0] == forges[0];
  }

  /** What one poll did: nothing on a 304, else what a poll without caches does. */
  predicate Polled(before: DB, after: DB, repo: string, forge: Forge)
    requires repo in before.repos
  {
    if Unchanged(forge, before.repos[repo].etag) then after == before else after == SimplePoll(before, repo, forge).db
  }

  /**
  So over every run of undisturbed polls of a forge that keeps its finished runs, whatever its ETags
  are and however its other runs move on: each poll either is a 304, or leaves what a poll without
  caches of the same store leaves.
  */
  lemma {:induction false} SkippingStaysSafe(w: World, db: DB, repo: string, forges: seq<Forge>, i: nat)
    requires repo in db.repos && db.repos[repo].client.GitHub? && FinishedRunsMatch(w, db, repo)
    requires (forall f :: f in forges ==> KeepsFinished(w, f)) && i < |forges|
    ensures var before, after := Before(db, repo, forges, i), Before(db, repo, forges, i + 1);
            && repo in before.repos && Polled(before, after, repo, forges[i])
            && FinishedRunsMatch(w, before, repo) && FinishedRunsMatch(w, after, repo)
    decreases i
  {
    hide *;
    FirstPoll(w, db, repo, forges);
    var next := Poll(db, Stored(db, repo), forges[0], []).db;
    BeforeNext(db, repo, forges, i + 1);
    if i == 0 {
      BeforeAny(db, repo, forges);
      BeforeAny(next, repo, forges[1..]);
    } else {
      BeforeNext(db, repo, forges, i);
      assert forall f :: f in forges[1..] ==> f in forges;
      SkippingStaysSafe(w, next, repo, forges[1..], i - 1);
    }
  }

  lemma FirstPoll(w: World, db: DB, repo: string, forges: seq<Forge>)
    requires repo in db.repos && db.repos[repo].client.GitHub? && FinishedRunsMatch(w, db, repo)
    requires (forall f :: f in forges ==> KeepsFinished(w, f)) && forges != []
    ensures var next := Poll(db, Stored(db, repo), forges[0], []).db;
            && repo in next.repos && next.repos[repo].client.GitHub?
            && Polled(db, next, repo, forges[0]) && FinishedRunsMatch(w, next, repo)
  {
    assert forges[0] in forges;
    FrozenStep(w, db, repo, forges[0]);
    hide FinishedRunsMatch;
    hide KeepsFinished;
    hide Poll;
    hide SimplePoll;
  }

  lemma BeforeAny(db: DB, repo: string, forges: seq<Forge>)
    requires repo in db.repos
    ensures Before(db, repo, forges, 0) == db
  {
  }

  /** One undisturbed poll: the caches change nothing, and stay sound. */
  lemma CachedStep(w: World, db: DB, repo: string, forge: Forge)
    requires Sound(w, db, repo) && Honest(w, forge)
    ensures var p, q := Poll(db, Stored(db, repo), forge, []), SimplePoll(db, repo, forge);
            p.ok && q.ok && p.db == q.db && Sound(w, p.db, repo)
  {
    Trusted(db, Stored(db, repo), forge);
    var after := AbsorbAll(db, repo, Trusting(forge, map[]));
    AbsorbAllRepos(db, repo, Trusting(forge, map[]));
    if Unchanged(forge, db.repos[repo].etag) {
      AbsorbedIsNoChange(db, repo, forge);
      assert db.repos[repo := db.repos[repo].(etag := forge.etag)] == db.repos;
    } else {
      SkipsWhatMatches(w, db, repo, forge);
      SkippingIsSafe(db, Stored(db, repo), forge);
      FinishedAfter(w, db, repo, forge);
      FullyAbsorbed(db, repo, forge);
    }
  }

  function CachedPolls(db: DB, repo: string, forges: seq<Forge>): DB
    requires repo in db.repos
    decreases |forges|
  {
    if forges == [] then db
    else
      var next := Poll(db, Stored(db, repo), forges[0], []).db;
      if repo in next.repos then CachedPolls(next, repo, forges[1..]) else next
  }

  function SimplePolls(db: DB, repo: string, forges: seq<Forge>): DB
    decreases |forges|
  {
    if forges == [] then db else SimplePolls(SimplePoll(db, repo, forges[0]).db, repo, forges[1..])
  }

  /**
  Over every run of undisturbed polls of a forge that keeps its finished runs frozen and its
  ETags honest, polling with both caches and polling with neither leave the same store.
  */
  lemma {:induction false} CachesAreInvisible(w: World, db: DB, repo: string, forges: seq<Forge>)
    requires Sound(w, db, repo)
    requires forall f :: f in forges ==> Honest(w, f)
    ensures CachedPolls(db, repo, forges) == SimplePolls(db, repo, forges)
    ensures Sound(w, CachedPolls(db, repo, forges), repo)
    decreases |forges|
  {
    if forges != [] {
      assert Honest(w, forges[0]);
      CachedStep(w, db, repo, forges[0]);
      hide Sound;
      hide Honest;
      hide Poll;
      hide SimplePoll;
      assert Sound(w, Poll(db, Stored(db, repo), forges[0], []).db, repo);
      SoundRepo(w, Poll(db, Stored(db, repo), forges[0], []).db, repo);
      CachesAreInvisible(w, Poll(db, Stored(db, repo), forges[0], []).db, repo, forges[1..]);
    }
  }

  lemma SoundRepo(w: World, db: DB, repo: string)
    requires Sound(w, db, repo)
    ensures repo in db.repos
  {
  }

  /** A repository just tracked is sound whatever the forge will say. */
  lemma NewlyTrackedIsSound(w: World, db: DB, repo: string)
    requires repo in db.repos && db.repos[repo] == RepoRow(GitHub, "")
    requires forall k :: k in db.runs ==> k.repo != repo
    ensures Sound(w, db, repo)
  {
  }
}
