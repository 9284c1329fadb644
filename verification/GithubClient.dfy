/**
The forge as its API shows it, and the GitHub client's poll of it: a conditional request for
the run listing, then one request for the jobs of each run not already known to be finished.
*/
module GithubClient {
  import opened Common
  import opened Tables
  import opened RunStore

  /** One entry of a run listing; a completion time is something only Forgejo's entries have. */
  datatype ForgeRun = ForgeRun(
    id: int, name: string, status: string, conclusion: string,
    startedAt: Option<Time>, updatedAt: Option<Time>, url: string,
    branch: string, sha: string, message: string, actor: string, completedAt: Option<Time>)

  datatype JobSnapshot = JobSnapshot(id: int, data: JobData, steps: seq<Step>)

  datatype RunSnapshot = RunSnapshot(id: int, data: RunData, jobs: seq<JobSnapshot>)

  /**
  What the forge would answer during one poll. `up` is false when the listing request fails;
  a run with no entry in `jobs` is one whose jobs request fails.
  */
  datatype Forge = Forge(up: bool, etag: string, listing: seq<ForgeRun>, jobs: map<int, seq<JobSnapshot>>)

  datatype Listing = Failed | NotModified | Fetched(etag: string, runs: seq<RunSnapshot>)

  /** The server answers 304 to a conditional request that names its current ETag. */
  predicate Unchanged(forge: Forge, ifNoneMatch: string) {
    ifNoneMatch != "" && ifNoneMatch == forge.etag
  }

  predicate UpToDate(known: map<int, RunState>, run: ForgeRun) {
    && run.id in known
    && known[run.id].status == "completed"
    && run.status == "completed"
    && known[run.id].conclusion == run.conclusion
  }

  function RunOf(run: ForgeRun): RunData {
    RunData(run.name, run.status, run.conclusion, run.startedAt,
            if run.status == "completed" then run.updatedAt else None,
            run.url, run.branch, run.sha, run.message, run.actor)
  }

  /**
  A row shows a listing entry, column by column: what a forge always sends is the entry's own, and commit
  metadata the entry lacks is what was kept.
  */
  predicate Shows(row: RunData, run: ForgeRun, completedAt: Option<Time>, kept: Option<RunData>) {
    && row.pipeline == run.name && row.status == run.status && row.conclusion == run.conclusion
    && row.startedAt == run.startedAt && row.completedAt == completedAt && row.url == run.url
    && row.branch == (if run.branch == "" && kept.Some? then kept.value.branch else run.branch)
    && row.sha == (if run.sha == "" && kept.Some? then kept.value.sha else run.sha)
    && row.message == (if run.message == "" && kept.Some? then kept.value.message else run.message)
    && row.actor == (if run.actor == "" && kept.Some? then kept.value.actor else run.actor)
  }

  function Snapshot(forge: Forge, known: map<int, RunState>, run: ForgeRun): Option<RunSnapshot> {
    if UpToDate(known, run) then Some(RunSnapshot(run.id, RunOf(run), []))
    else if run.id in forge.jobs then Some(RunSnapshot(run.id, RunOf(run), forge.jobs[run.id]))
    else None
  }

  /** The snapshots of a listing, or None once a jobs request fails. */
  function Snapshots(forge: Forge, known: map<int, RunState>, listing: seq<ForgeRun>): Option<seq<RunSnapshot>> {
    if listing == [] then Some([])
    else
      var head, tail := Snapshot(forge, known, listing[0]), Snapshots(forge, known, listing[1..]);
      if head.None? || tail.None? then None else Some([head.value] + tail.value)
  }

  function List(forge: Forge, ifNoneMatch: string, known: map<int, RunState>): Listing {
    if !forge.up then Failed
    else if Unchanged(forge, ifNoneMatch) then NotModified
    else
      var runs := Snapshots(forge, known, forge.listing);
      if runs.None? then Failed else Fetched(forge.etag, runs.value)
  }

  lemma {:induction false} SnapshotsAt(forge: Forge, known: map<int, RunState>, listing: seq<ForgeRun>)
    ensures Snapshots(forge, known, listing).Some? <==>
            forall r :: r in listing ==> UpToDate(known, r) || r.id in forge.jobs
    ensures Snapshots(forge, known, listing).Some? ==>
              var runs := Snapshots(forge, known, listing).value;
              && |runs| == |listing|
              && forall i :: 0 <= i < |runs| ==> Snapshot(forge, known, listing[i]) == Some(runs[i])
  {
    if listing != [] {
      SnapshotsAt(forge, known, listing[1..]);
      assert listing == [listing[0]] + listing[1..];
    }
  }

  lemma {:induction false} SnapshotsAppend(forge: Forge, known: map<int, RunState>, a: seq<ForgeRun>, b: seq<ForgeRun>)
    ensures var p, q, r := Snapshots(forge, known, a), Snapshots(forge, known, b), Snapshots(forge, known, a + b);
            r == if p.None? || q.None? then None else Some(p.value + q.value)
  {
    if a == [] {
      assert a + b == b;
      var q := Snapshots(forge, known, b);
      assert q.Some? ==> [] + q.value == q.value;
    } else {
      assert (a + b)[1..] == a[1..] + b;
      SnapshotsAppend(forge, known, a[1..], b);
      assert (a + b)[0] == a[0];
      var p, q := Snapshots(forge, known, a), Snapshots(forge, known, b);
      if p.Some? && q.Some? {
        assert p.value == [Snapshot(forge, known, a[0]).value] + Snapshots(forge, known, a[1..]).value;
        assert [p.value[0]] + (p.value[1..] + q.value) == p.value + q.value;
      }
    }
  }

  lemma SnapshotsSnoc(forge: Forge, known: map<int, RunState>, i: nat)
    requires i < |forge.listing|
    ensures var p, s := Snapshots(forge, known, forge.listing[..i]), Snapshot(forge, known, forge.listing[i]);
            Snapshots(forge, known, forge.listing[..i + 1]) ==
            if p.None? || s.None? then None else Some(p.value + [s.value])
  {
    var run := forge.listing[i];
    SnapshotsAppend(forge, known, forge.listing[..i], [run]);
    assert forge.listing[..i + 1] == forge.listing[..i] + [run];
    assert Snapshots(forge, known, [run][1..]) == Some([]);
    var s := Snapshot(forge, known, run);
    assert s.Some? ==> [s.value] + [] == [s.value];
  }

  /** ListRecentRuns: stops at the first jobs request that fails, with nothing to store. */
  method ListRecentRuns(forge: Forge, ifNoneMatch: string, known: map<int, RunState>) returns (result: Listing)
    ensures result == List(forge, ifNoneMatch, known)
    ensures result.NotModified? <==> forge.up && ifNoneMatch != "" && forge.etag == ifNoneMatch
    ensures result.Fetched? ==>
              && result.etag == forge.etag && |result.runs| == |forge.listing|
              && forall i :: 0 <= i < |forge.listing| ==>
                   var run, entry := result.runs[i], forge.listing[i];
                   && run.id == entry.id
                   && (entry.status == "completed" ==> Shows(run.data, entry, entry.updatedAt, None))
                   && (entry.status != "completed" ==> Shows(run.data, entry, None, None))
                   && (if entry.status == "completed" && entry.id in known
                          && known[entry.id] == RunState("completed", entry.conclusion)
                       then run.jobs == [] else entry.id in forge.jobs && run.jobs == forge.jobs[entry.id])
    ensures result.Failed? <==>
              || !forge.up
              || (!result.NotModified?
                  && exists run ::
                       && run in forge.listing && run.id !in forge.jobs
                       && !(run.status == "completed" && run.id in known
                            && known[run.id] == RunState("completed", run.conclusion)))
  {
    SnapshotsAt(forge, known, forge.listing);
    if !forge.up {
      return Failed;
    }
    if Unchanged(forge, ifNoneMatch) {
      return NotModified;
    }
    var runs: seq<RunSnapshot> := [];
    var i := 0;
    while i < |forge.listing|
      invariant 0 <= i <= |forge.listing|
      invariant Snapshots(forge, known, forge.listing[..i]) == Some(runs)
    {
      var run := forge.listing[i];
      SnapshotsSnoc(forge, known, i);
      var jobs: seq<JobSnapshot> := [];
      if !UpToDate(known, run) {
        if run.id !in forge.jobs {
          return Failed;
        }
        jobs := forge.jobs[run.id];
      }
      runs := runs + [RunSnapshot(run.id, RunOf(run), jobs)];
      i := i + 1;
    }
    assert forge.listing[..i] == forge.listing;
    return Fetched(forge.etag, runs);
  }
}
