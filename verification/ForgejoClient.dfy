/**
The Forgejo client's poll: the run listing, then one request for the jobs of every run, with neither an
ETag nor any regard to what is stored.
*/
module ForgejoClient {
  import opened Common
  import opened Tables
  import opened GithubClient

  /** Forgejo's entries carry a completion time of their own. */
  function RunOf(run: ForgeRun): RunData {
    RunData(run.name, run.status, run.conclusion, run.startedAt, run.completedAt,
            run.url, run.branch, run.sha, run.message, run.actor)
  }

  function Snapshot(forge: Forge, run: ForgeRun): RunSnapshot
    requires run.id in forge.jobs
  {
    RunSnapshot(run.id, RunOf(run), forge.jobs[run.id])
  }

  /** All of the listing's snapshots, unless a listing or jobs request fails. */
  function List(forge: Forge): Listing {
    var listing := forge.listing;
    if !forge.up || exists i :: 0 <= i < |listing| && listing[i].id !in forge.jobs then Failed
    else Fetched("", seq(|listing|, i requires 0 <= i < |listing| => Snapshot(forge, listing[i])))
  }

  /** ListRecentRuns: stops at the first jobs request that fails, with nothing to store. */
  method ListRecentRuns(forge: Forge) returns (result: Listing)
    ensures result == List(forge)
    ensures result.Failed? <==> !forge.up || exists run :: run in forge.listing && run.id !in forge.jobs
    ensures !result.Failed? ==>
              && result.Fetched? && result.etag == "" && |result.runs| == |forge.listing|
              && forall i :: 0 <= i < |forge.listing| ==>
                   var run, entry := result.runs[i], forge.listing[i];
                   && run.id == entry.id && Shows(run.data, entry, entry.completedAt, None)
                   && entry.id in forge.jobs && run.jobs == forge.jobs[entry.id]
  {
    if !forge.up {
      return Failed;
    }
    var runs: seq<RunSnapshot> := [];
    var i := 0;
    while i < |forge.listing|
      invariant 0 <= i <= |forge.listing| && |runs| == i
      invariant forall j :: 0 <= j < i ==>
                  forge.listing[j].id in forge.jobs && runs[j] == Snapshot(forge, forge.listing[j])
    {
      var run := forge.listing[i];
      assert run in forge.listing;
      if run.id !in forge.jobs {
        return Failed;
      }
      runs := runs + [RunSnapshot(run.id, RunOf(run), forge.jobs[run.id])];
      i := i + 1;
    }
    return Fetched("", runs);
  }
}
