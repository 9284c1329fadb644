/**
Polls that storage errors cut short: which writes were made, and which finished runs are left with
the jobs they finished with.
*/
module PollFaults {
  import opened Common
  import opened Tables
  import opened RunStore
  import opened GithubClient
  import opened Reconcile
  import opened PollCache
  import opened PollTraces
  import opened PollLimits

  /** How many of n store calls succeed before the first that fails. */
  function Clear(faults: Faults, n: nat): (c: nat)
    ensures c <= n
  {
    if n == 0 || Failing(faults) then 0 else 1 + Clear(Rest(faults), n - 1)
  }

  /** Of writes no constraint refuses, the ones made are those before the first fault. */
  lemma {:induction false} MadeUntilFault(db: DB, ws: seq<Write>, faults: Faults)
    requires Exec(db, ws, []).ok
    ensures Exec(db, ws, faults).done == ws[..Clear(faults, |ws|)]
    decreases |ws|
  {
    if ws != [] && !Failing(faults) {
      var next := Apply(db, ws[0]).value;
      MadeUntilFault(next, ws[1..], Rest(faults));
      hide Apply;
      var n := Clear(Rest(faults), |ws| - 1);
      assert ws[..n + 1] == [ws[0]] + ws[1..][..n];
    }
  }

  /** What is stored for a run's jobs after the first n of their writes, two for each. */
  function Torn(stored: map<JobKey, JobView>, key: RunKey, jobs: seq<JobSnapshot>, n: nat): map<JobKey, JobView>
    decreases |jobs|
  {
    if jobs == [] || n == 0 then stored
    else
      var at := JobKey(key, jobs[0].id);
      if n == 1 then stored[at := JobView(jobs[0].data, StepsAt(stored, at))]
      else Torn(stored[at := View(jobs[0])], key, jobs[1..], n - 2)
  }

  /** How many writes storing a run takes. */
  function Calls(run: RunSnapshot): nat {
    1 + 2 * |run.jobs|
  }

  /** The store after the first n writes of a listing. */
  function AbsorbSome(db: DB, repo: string, runs: seq<RunSnapshot>, n: nat): DB
    decreases |runs|
  {
    if runs == [] || n == 0 then db
    else if n >= Calls(runs[0]) then AbsorbSome(Absorb(db, repo, runs[0]), repo, runs[1..], n - Calls(runs[0]))
    else
      var key := RunKey(repo, runs[0].id);
      DB(db.repos, db.runs[key := Upserted(db.runs, key, runs[0].data)], Torn(db.jobs, key, runs[0].jobs, n - 1))
  }

  lemma {:induction false} JobsCalls(key: RunKey, jobs: seq<JobSnapshot>)
    ensures |JobsWrites(key, jobs)| == 2 * |jobs|
  {
    if jobs != [] {
      JobsCalls(key, jobs[1..]);
    }
  }

  lemma {:induction false} ExecTorn(db: DB, key: RunKey, jobs: seq<JobSnapshot>, n: nat)
    requires key in db.runs && StorableSteps(jobs) && n <= |JobsWrites(key, jobs)|
    ensures var p := Exec(db, JobsWrites(key, jobs)[..n], []);
            p.ok && p.faults == [] && p.db == db.(jobs := Torn(db.jobs, key, jobs, n))
    decreases |jobs|
  {
    var ws := JobsWrites(key, jobs);
    if jobs == [] || n == 0 {
      assert ws[..n] == [];
    } else {
      var job, rest := jobs[0], JobsWrites(key, jobs[1..]);
      var at := JobKey(key, job.id);
      var w1, w2 := PutJob(at, job.data), PutSteps(at, job.steps);
      assert ws == JobWrites(key, job) + rest && JobWrites(key, job) == [w1, w2];
      assert job in jobs && forall j :: j in jobs[1..] ==> j in jobs;
      if n == 1 {
        assert ws[..1] == [w1];
        One(db, w1, []);
      } else {
        assert ws[..n] == [w1, w2] + rest[..n - 2];
        ExecOneJob(db, key, job);
        ExecAppend(db, [w1, w2], rest[..n - 2], []);
        var next := db.(jobs := db.jobs[at := View(job)]);
        hide Exec;
        ExecTorn(next, key, jobs[1..], n - 2);
      }
    }
  }

  lemma ExecCut(db: DB, repo: string, run: RunSnapshot, n: nat)
    requires repo in db.repos && StorableSteps(run.jobs) && 0 < n < Calls(run)
    ensures |RunWrites(repo, run)| == Calls(run)
    ensures var p, key := Exec(db, RunWrites(repo, run)[..n], []), RunKey(repo, run.id);
            && p.ok && p.faults == []
            && p.db == DB(db.repos, db.runs[key := Upserted(db.runs, key, run.data)],
                          Torn(db.jobs, key, run.jobs, n - 1))
  {
    var key := RunKey(repo, run.id);
    var w, rest := PutRun(key, run.data), JobsWrites(key, run.jobs);
    JobsCalls(key, run.jobs);
    assert RunWrites(repo, run)[..n] == [w] + rest[..n - 1];
    One(db, w, []);
    ExecAppend(db, [w], rest[..n - 1], []);
    hide Exec;
    ExecTorn(Apply(db, w).value, key, run.jobs, n - 1);
    hide Torn;
  }

  lemma {:induction false} ExecSome(db: DB, repo: string, runs: seq<RunSnapshot>, n: nat)
    requires repo in db.repos && Storable(runs) && n <= |RunsWrites(repo, runs)|
    ensures var p := Exec(db, RunsWrites(repo, runs)[..n], []);
            p.ok && p.faults == [] && p.db == AbsorbSome(db, repo, runs, n)
    decreases |runs|
  {
    var ws := RunsWrites(repo, runs);
    if runs == [] || n == 0 {
      assert ws[..n] == [];
    } else {
      var run, rest := runs[0], RunsWrites(repo, runs[1..]);
      var first := RunWrites(repo, run);
      assert ws == first + rest && run in runs && forall r :: r in runs[1..] ==> r in runs;
      JobsCalls(RunKey(repo, run.id), run.jobs);
      assert |first| == Calls(run);
      hide RunsWrites;
      hide RunWrites;
      hide JobsWrites;
      if n < Calls(run) {
        assert ws[..n] == first[..n];
        ExecCut(db, repo, run, n);
      } else {
        assert ws[..n] == first + rest[..n - Calls(run)];
        ExecRun(db, repo, run);
        ExecAppend(db, first, rest[..n - Calls(run)], []);
        hide Exec;
        hide Absorb;
        AbsorbRepos(db, repo, run);
        ExecSome(Absorb(db, repo, run), repo, runs[1..], n - Calls(run));
      }
    }
  }

  lemma AbsorbRepos(db: DB, repo: string, run: RunSnapshot)
    ensures Absorb(db, repo, run).repos == db.repos
  {
  }

  // ---------------------------------------------------------------------------------------------
  // What a cut leaves of the finished runs
  // ---------------------------------------------------------------------------------------------

  /** A snapshot of a run that ended carries the jobs it ended with, or was skipped with these stored. */
  ghost predicate Fits(w: World, db: DB, repo: string, run: RunSnapshot) {
    run.data.status == "completed" ==>
      var end := (run.id, run.data.conclusion);
      && end in w.final
      && (run.jobs == w.final[end] ||
          (run.jobs == [] && StoredSo(db, RunKey(repo, run.id), run.data.conclusion)))
  }

  ghost predicate AllFit(w: World, db: DB, repo: string, runs: seq<RunSnapshot>) {
    && (forall i, j :: 0 <= i < j < |runs| ==> runs[i].id != runs[j].id)
    && (forall r :: r in runs ==> Fits(w, db, repo, r))
  }

  lemma TrustingFits(w: World, db: DB, repo: string, forge: Forge)
    requires KeepsFinished(w, forge)
    ensures AllFit(w, db, repo, Trusting(forge, KnownRuns(db, repo)))
  {
    var runs := Trusting(forge, KnownRuns(db, repo));
    forall i | 0 <= i < |runs|
      ensures Fits(w, db, repo, runs[i])
    {
      var r := forge.listing[i];
      assert r in forge.listing;
      if r.status == "completed" {
        KnownAsStored(db, repo, r, r.conclusion);
      }
      hide KnownRuns;
    }
  }

  lemma FitsStays(w: World, db: DB, repo: string, run: RunSnapshot, other: RunSnapshot)
    requires Fits(w, db, repo, other) && other.id != run.id
    ensures Fits(w, Absorb(db, repo, run), repo, other)
  {
    hide StoreJobs;
  }

  lemma OtherRunsKept(db: DB, repo: string, run: RunSnapshot, key: RunKey)
    requires key != RunKey(repo, run.id)
    ensures forall id: int ::
              Lookup(Absorb(db, repo, run).jobs, JobKey(key, id)) == Lookup(db.jobs, JobKey(key, id))
    ensures Lookup(Absorb(db, repo, run).runs, key) == Lookup(db.runs, key)
  {
    forall id: int
      ensures Lookup(Absorb(db, repo, run).jobs, JobKey(key, id)) == Lookup(db.jobs, JobKey(key, id))
    {
      StoreJobsAt(db.jobs, RunKey(repo, run.id), run.jobs, JobKey(key, id));
    }
  }

  /** A run stored whole keeps each finished run with its jobs. */
  lemma WholeKeeps(w: World, db: DB, repo: string, run: RunSnapshot)
    requires FinishedRunsMatch(w, db, repo) && Fits(w, db, repo, run)
    ensures FinishedRunsMatch(w, Absorb(db, repo, run), repo)
  {
    var after, key := Absorb(db, repo, run), RunKey(repo, run.id);
    StoredMatch(db.jobs, key, run.jobs);
    NothingStored(db.jobs, key);
    assert after.runs[key].status == run.data.status && after.runs[key].conclusion == run.data.conclusion;
    forall k | k in after.runs && k.repo == repo && after.runs[k].status == "completed"
      ensures (k.run, after.runs[k].conclusion) in w.final
      ensures JobsMatch(after.jobs, k, w.final[(k.run, after.runs[k].conclusion)])
    {
      if k != key {
        OtherRunsKept(db, repo, run, k);
        hide StoreJobs;
        assert Lookup(after.runs, k) == Lookup(db.runs, k);
        MatchingSame(after.jobs, db.jobs, k, w.final[(k.run, db.runs[k].conclusion)]);
      }
    }
  }

  lemma {:induction false} TornElsewhere(
    stored: map<JobKey, JobView>, key: RunKey, jobs: seq<JobSnapshot>, n: nat, at: JobKey)
    requires at.key != key
    ensures Lookup(Torn(stored, key, jobs, n), at) == Lookup(stored, at)
    decreases |jobs|
  {
    if jobs != [] && n > 1 {
      TornElsewhere(stored[JobKey(key, jobs[0].id) := View(jobs[0])], key, jobs[1..], n - 2, at);
    }
  }

  /** A run stored in part keeps the others, and itself exactly when what is there now matches. */
  lemma CutKeeps(w: World, db: DB, repo: string, run: RunSnapshot, n: nat)
    requires FinishedRunsMatch(w, db, repo) && Fits(w, db, repo, run) && 0 < n < Calls(run)
    ensures var key := RunKey(repo, run.id);
            FinishedRunsMatch(w, AbsorbSome(db, repo, [run], n), repo) <==>
            run.data.status != "completed" || JobsMatch(Torn(db.jobs, key, run.jobs, n - 1), key, run.jobs)
  {
    var after, key := AbsorbSome(db, repo, [run], n), RunKey(repo, run.id);
    assert run.jobs != [];
    assert after.runs[key].status == run.data.status && after.runs[key].conclusion == run.data.conclusion;
    forall k | k in after.runs && k.repo == repo && after.runs[k].status == "completed" && k != key
      ensures (k.run, after.runs[k].conclusion) in w.final
      ensures JobsMatch(after.jobs, k, w.final[(k.run, after.runs[k].conclusion)])
    {
      forall id: int
        ensures Lookup(after.jobs, JobKey(k, id)) == Lookup(db.jobs, JobKey(k, id))
      {
        TornElsewhere(db.jobs, key, run.jobs, n - 1, JobKey(k, id));
      }
      hide Torn;
      assert k in db.runs && after.runs[k] == db.runs[k];
      MatchingSame(after.jobs, db.jobs, k, w.final[(k.run, db.runs[k].conclusion)]);
    }
    hide Torn;
    hide JobsMatch;
    hide Upserted;
    assert key.repo == repo && key in after.runs;
  }

  /** The run that n writes of a listing store in part, and how many of its jobs' writes they make. */
  function CutRun(runs: seq<RunSnapshot>, n: nat): Option<(RunSnapshot, nat)> {
    if runs == [] || n == 0 then None
    else if n >= Calls(runs[0]) then CutRun(runs[1..], n - Calls(runs[0]))
    else Some((runs[0], n - 1))
  }

  /** Whether the run cut, if any, is left right: it is unfinished, or what is stored of its jobs by then matches. */
  predicate CutIsHarmless(db: DB, repo: string, runs: seq<RunSnapshot>, n: nat) {
    var cut := CutRun(runs, n);
    cut.Some? && cut.value.0.data.status == "completed" ==>
      var (run, made) := cut.value;
      JobsMatch(Torn(db.jobs, RunKey(repo, run.id), run.jobs, made), RunKey(repo, run.id), run.jobs)
  }

  lemma {:induction false} TornAlike(
    a: map<JobKey, JobView>, b: map<JobKey, JobView>, key: RunKey, jobs: seq<JobSnapshot>, n: nat)
    requires forall id: int :: Lookup(a, JobKey(key, id)) == Lookup(b, JobKey(key, id))
    ensures forall id: int ::
        Lookup(Torn(a, key, jobs, n), JobKey(key, id)) == Lookup(Torn(b, key, jobs, n), JobKey(key, id))
    decreases |jobs|
  {
    if jobs != [] && n > 0 {
      var at := JobKey(key, jobs[0].id);
      assert Lookup(a, at) == Lookup(b, at);
      if n > 1 {
        TornAlike(a[at := View(jobs[0])], b[at := View(jobs[0])], key, jobs[1..], n - 2);
      }
    }
  }

  lemma {:induction false} CutIsOneOf(runs: seq<RunSnapshot>, n: nat)
    ensures CutRun(runs, n).Some? ==> CutRun(runs, n).value.0 in runs
  {
    if runs != [] && n >= Calls(runs[0]) {
      CutIsOneOf(runs[1..], n - Calls(runs[0]));
    }
  }

  lemma HarmlessAlike(db: DB, repo: string, run: RunSnapshot, runs: seq<RunSnapshot>, n: nat)
    requires forall r :: r in runs ==> r.id != run.id
    ensures CutIsHarmless(Absorb(db, repo, run), repo, runs, n) == CutIsHarmless(db, repo, runs, n)
  {
    CutIsOneOf(runs, n);
    var cut := CutRun(runs, n);
    hide CutRun;
    if cut.Some? {
      var (other, made) := cut.value;
      var key := RunKey(repo, other.id);
      OtherRunsKept(db, repo, run, key);
      hide Absorb;
      TornAlike(Absorb(db, repo, run).jobs, db.jobs, key, other.jobs, made);
      hide Torn;
      MatchingSame(
        Torn(Absorb(db, repo, run).jobs, key, other.jobs, made), Torn(db.jobs, key, other.jobs, made), key, other.jobs);
      hide JobsMatch;
    }
  }

  lemma CutFirst(db: DB, repo: string, runs: seq<RunSnapshot>, n: nat)
    requires runs != [] && 0 < n < Calls(runs[0])
    ensures AbsorbSome(db, repo, runs, n) == AbsorbSome(db, repo, [runs[0]], n)
    ensures var run, key := runs[0], RunKey(repo, runs[0].id);
            CutIsHarmless(db, repo, runs, n) <==>
            run.data.status != "completed" || JobsMatch(Torn(db.jobs, key, run.jobs, n - 1), key, run.jobs)
  {
    hide Torn;
    hide JobsMatch;
  }

  lemma CutLater(db: DB, repo: string, runs: seq<RunSnapshot>, n: nat)
    requires runs != [] && n >= Calls(runs[0])
    ensures AbsorbSome(db, repo, runs, n) == AbsorbSome(Absorb(db, repo, runs[0]), repo, runs[1..], n - Calls(runs[0]))
    ensures CutIsHarmless(db, repo, runs, n) == CutIsHarmless(db, repo, runs[1..], n - Calls(runs[0]))
  {
    hide Torn;
    hide JobsMatch;
    hide Absorb;
  }

  lemma AllFitLater(w: World, db: DB, repo: string, runs: seq<RunSnapshot>)
    requires runs != [] && AllFit(w, db, repo, runs)
    ensures AllFit(w, Absorb(db, repo, runs[0]), repo, runs[1..])
    ensures forall r :: r in runs[1..] ==> r.id != runs[0].id
  {
    var run, rest := runs[0], runs[1..];
    hide Fits;
    hide Absorb;
    forall r | r in rest
      ensures r.id != run.id && Fits(w, Absorb(db, repo, run), repo, r)
    {
      assert r in runs && Fits(w, db, repo, r);
      FitsStays(w, db, repo, run, r);
    }
  }

  lemma {:induction false} SomeKeeps(w: World, db: DB, repo: string, runs: seq<RunSnapshot>, n: nat)
    requires FinishedRunsMatch(w, db, repo) && AllFit(w, db, repo, runs)
    ensures FinishedRunsMatch(w, AbsorbSome(db, repo, runs, n), repo) <==> CutIsHarmless(db, repo, runs, n)
    decreases |runs|
  {
    hide FinishedRunsMatch;
    hide Fits;
    hide Absorb;
    if runs != [] && n > 0 {
      var run, rest := runs[0], runs[1..];
      assert run in runs && Fits(w, db, repo, run);
      AllFitLater(w, db, repo, runs);
      hide AllFit;
      if n < Calls(run) {
        CutFirst(db, repo, runs, n);
        CutKeeps(w, db, repo, run, n);
        hide AbsorbSome;
        hide CutIsHarmless;
      } else {
        CutLater(db, repo, runs, n);
        WholeKeeps(w, db, repo, run);
        hide AbsorbSome;
        hide CutIsHarmless;
        SomeKeeps(w, Absorb(db, repo, run), repo, rest, n - Calls(run));
        HarmlessAlike(db, repo, run, rest, n - Calls(run));
      }
    }
  }

  // ---------------------------------------------------------------------------------------------
  // The whole poll
  // ---------------------------------------------------------------------------------------------

  /** How many writes a poll makes under a fault script: none if a read fails or there is nothing new. */
  function Made(db: DB, repo: string, forge: Forge, faults: Faults): nat
    requires repo in db.repos && Answering(forge)
  {
    if Failing(faults) || Failing(Rest(faults)) || Unchanged(forge, db.repos[repo].etag) then 0
    else
      Clear(Rest(Rest(faults)),
            |PollWrites(repo, Fetched(forge.etag, Trusting(forge, KnownRuns(db, repo))))|)
  }

  lemma CutPoll(db: DB, repo: string, forge: Forge, faults: Faults)
    requires repo in db.repos && db.repos[repo].client.GitHub? && Answering(forge)
    ensures var p, runs := Poll(db, Stored(db, repo), forge, faults), Trusting(forge, KnownRuns(db, repo));
            && |p.done| == Made(db, repo, forge, faults)
            && p.db.runs == AbsorbSome(db, repo, runs, |p.done|).runs
            && p.db.jobs == AbsorbSome(db, repo, runs, |p.done|).jobs
  {
    var runs := Trusting(forge, KnownRuns(db, repo));
    TrustingIs(forge, KnownRuns(db, repo));
    hide Trusting;
    hide KnownRuns;
    hide Snapshots;
    if !(Failing(faults) || Failing(Rest(faults)) || Unchanged(forge, db.repos[repo].etag)) {
      CutWrites(db, repo, Fetched(forge.etag, runs), Rest(Rest(faults)));
      hide Exec;
      hide PollWrites;
      hide AbsorbSome;
    }
  }

  lemma CutWrites(db: DB, repo: string, result: Listing, faults: Faults)
    requires repo in db.repos && result.Fetched? && Storable(result.runs)
    ensures var ws := PollWrites(repo, result);
            var p, some := Exec(db, ws, faults), AbsorbSome(db, repo, result.runs, Clear(faults, |ws|));
            && |p.done| == Clear(faults, |ws|) && p.db.runs == some.runs && p.db.jobs == some.jobs
  {
    var ws, all := PollWrites(repo, result), RunsWrites(repo, result.runs);
    ExecListing(db, repo, result);
    MadeUntilFault(db, ws, faults);
    ExecPrefix(db, ws, faults);
    var n := Clear(faults, |ws|);
    if n <= |all| {
      ExecSome(db, repo, result.runs, n);
      assert ws[..n] == all[..n];
    } else {
      ExecSome(db, repo, result.runs, |all|);
      ExecRuns(db, repo, result.runs);
      assert all[..|all|] == all && ws[..n] == ws;
      AbsorbedWhole(db, repo, result.runs, n);
    }
  }

  lemma {:induction false} AbsorbedWhole(db: DB, repo: string, runs: seq<RunSnapshot>, n: nat)
    requires n >= |RunsWrites(repo, runs)|
    ensures AbsorbSome(db, repo, runs, n) == AbsorbAll(db, repo, runs)
    decreases |runs|
  {
    if runs != [] {
      JobsCalls(RunKey(repo, runs[0].id), runs[0].jobs);
      assert |RunWrites(repo, runs[0])| == Calls(runs[0]);
      hide Absorb;
      AbsorbedWhole(Absorb(db, repo, runs[0]), repo, runs[1..], n - Calls(runs[0]));
    }
  }

  /**
  Exactly what storage errors do to the finished runs. A poll that stops anywhere leaves each stored
  finished run with the jobs it finished with, if and only if the one run it stopped in the middle of
  is unfinished, or has them anyhow: by what was stored before and the jobs it had come to.
  */
  lemma FaultyPoll(w: World, db: DB, repo: string, forge: Forge, faults: Faults)
    requires repo in db.repos && db.repos[repo].client.GitHub?
    requires KeepsFinished(w, forge) && FinishedRunsMatch(w, db, repo)
    ensures var p := Poll(db, Stored(db, repo), forge, faults);
            FinishedRunsMatch(w, p.db, repo) <==>
            CutIsHarmless(db, repo, Trusting(forge, KnownRuns(db, repo)), Made(db, repo, forge, faults))
  {
    var runs := Trusting(forge, KnownRuns(db, repo));
    TrustingFits(w, db, repo, forge);
    CutPoll(db, repo, forge, faults);
    SomeKeeps(w, db, repo, runs, Made(db, repo, forge, faults));
    hide Poll;
    hide AbsorbSome;
    hide CutIsHarmless;
    hide Trusting;
    hide KnownRuns;
    hide JobsMatch;
  }
}
