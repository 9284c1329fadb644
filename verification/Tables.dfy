/**
The ingestion tables as a value. A run is named by its repository and the id the forge
gave it, a job by its run and the forge's job id, so nothing here mentions the internal row
ids: two stores with the same value answer every question the same way.
*/
module Tables {
  import opened Common

  type Time = int

  datatype RunKey = RunKey(repo: string, run: int)

  datatype RunData = RunData(
    pipeline: string, status: string, conclusion: string,
    startedAt: Option<Time>, completedAt: Option<Time>, url: string,
    branch: string, sha: string, message: string, actor: string)

  datatype JobData = JobData(
    name: string, status: string, conclusion: string,
    queuedAt: Option<Time>, startedAt: Option<Time>, completedAt: Option<Time>, url: string)

  datatype Step = Step(
    number: int, name: string, status: string, conclusion: string,
    startedAt: Option<Time>, completedAt: Option<Time>)

  datatype JobView = JobView(data: JobData, steps: seq<Step>)

  datatype JobKey = JobKey(key: RunKey, jobId: int)

  /** Which forge client polls a repository, if any is registered. */
  datatype Client = Unregistered | GitHub | Forgejo

  datatype RepoRow = RepoRow(client: Client, etag: string)

  datatype DB = DB(repos: map<string, RepoRow>, runs: map<RunKey, RunData>, jobs: map<JobKey, JobView>)

  /** One successful writing call on the store. */
  datatype Write =
    | PutRun(key: RunKey, run: RunData)
    | PutJob(at: JobKey, job: JobData)
    | PutSteps(at: JobKey, steps: seq<Step>)
    | PutEtag(repo: string, etag: string)

  /** The repository a write belongs to. */
  function Owner(w: Write): string {
    match w
    case PutRun(key, _) => key.repo
    case PutJob(at, _) => at.key.repo
    case PutSteps(at, _) => at.key.repo
    case PutEtag(repo, _) => repo
  }

  /** SQL's COALESCE over a column where the empty string is stored as NULL. */
  function Coalesce(incoming: string, kept: string): string {
    if incoming == "" then kept else incoming
  }

  /** The row an UPDATE leaves: commit metadata survives a delivery that lacks it. */
  function Merge(kept: RunData, incoming: RunData): RunData {
    incoming.(
      branch := Coalesce(incoming.branch, kept.branch),
      sha := Coalesce(incoming.sha, kept.sha),
      message := Coalesce(incoming.message, kept.message),
      actor := Coalesce(incoming.actor, kept.actor))
  }

  predicate DistinctNumbers(steps: seq<Step>) {
    forall i, j :: 0 <= i < j < |steps| ==> steps[i].number != steps[j].number
  }

  function Upserted(runs: map<RunKey, RunData>, key: RunKey, incoming: RunData): RunData {
    if key in runs then Merge(runs[key], incoming) else incoming
  }

  function StepsAt(jobs: map<JobKey, JobView>, at: JobKey): seq<Step> {
    if at in jobs then jobs[at].steps else []
  }

  /** What one write does, or None when a constraint of the schema refuses it. */
  function Apply(db: DB, w: Write): Option<DB> {
    match w
    case PutRun(key, run) =>
      if key.repo !in db.repos then None
      else Some(db.(runs := db.runs[key := Upserted(db.runs, key, run)]))
    case PutJob(at, job) =>
      if at.key !in db.runs then None
      else Some(db.(jobs := db.jobs[at := JobView(job, StepsAt(db.jobs, at))]))
    case PutSteps(at, steps) =>
      if at !in db.jobs || !DistinctNumbers(steps) then None
      else Some(db.(jobs := db.jobs[at := JobView(db.jobs[at].data, steps)]))
    case PutEtag(repo, etag) =>
      if repo !in db.repos then None
      else Some(db.(repos := db.repos[repo := db.repos[repo].(etag := etag)]))
  }

  /**
  Faults is the environment's script: its head says whether the next store call fails for a
  reason of the database's own, and an exhausted script means no more such failures.
  */
  type Faults = seq<bool>

  predicate Failing(faults: Faults) {
    faults != [] && faults[0]
  }

  function Rest(faults: Faults): Faults {
    if faults == [] then [] else faults[1..]
  }

  /** Where a caller that writes a list and stops at the first error has got to. */
  datatype Progress = Progress(db: DB, done: seq<Write>, faults: Faults, ok: bool)

  function Exec(db: DB, ws: seq<Write>, faults: Faults): Progress
    decreases |ws|
  {
    if ws == [] then Progress(db, [], faults, true)
    else if Failing(faults) || Apply(db, ws[0]).None? then Progress(db, [], Rest(faults), false)
    else
      var rest := Exec(Apply(db, ws[0]).value, ws[1..], Rest(faults));
      rest.(done := [ws[0]] + rest.done)
  }

  /** What the calls before an abort did stays done: there is no transaction around a poll. */
  lemma {:induction false} ExecPrefix(db: DB, ws: seq<Write>, faults: Faults)
    ensures Exec(db, ws, faults).done <= ws
    ensures Exec(db, ws, faults).ok <==> Exec(db, ws, faults).done == ws
    ensures Exec(db, Exec(db, ws, faults).done, []) ==
        Progress(Exec(db, ws, faults).db, Exec(db, ws, faults).done, [], true)
    decreases |ws|
  {
    if ws == [] {
    } else if Failing(faults) || Apply(db, ws[0]).None? {
    } else {
      var next := Apply(db, ws[0]).value;
      ExecPrefix(next, ws[1..], Rest(faults));
      var p := Exec(db, ws, faults);
      assert p.done[1..] == Exec(next, ws[1..], Rest(faults)).done;
    }
  }

  lemma ExecStep(db: DB, a: seq<Write>, b: seq<Write>, faults: Faults)
    requires a != []
    ensures if Failing(faults) || Apply(db, a[0]).None?
            then Exec(db, a + b, faults) == Progress(db, [], Rest(faults), false)
            else var rest := Exec(Apply(db, a[0]).value, a[1..] + b, Rest(faults));
                 Exec(db, a + b, faults) == rest.(done := [a[0]] + rest.done)
  {
    hide Apply;
    hide Failing;
    hide Rest;
    assert (a + b)[1..] == a[1..] + b;
  }

  lemma {:induction false} ExecAppend(db: DB, a: seq<Write>, b: seq<Write>, faults: Faults)
    ensures var p := Exec(db, a, faults);
            if p.ok
            then var q := Exec(p.db, b, p.faults); Exec(db, a + b, faults) == q.(done := a + q.done)
            else Exec(db, a + b, faults) == p
    decreases |a|
  {
    if a == [] {
      assert a + b == b;
      assert a + Exec(db, b, faults).done == Exec(db, b, faults).done;
    } else {
      ExecStep(db, a, b, faults);
      ExecStep(db, a, [], faults);
      assert a + [] == a && a[1..] + [] == a[1..];
      hide Exec;
      hide Failing;
      hide Rest;
      if Apply(db, a[0]).Some? && !Failing(faults) {
        var next := Apply(db, a[0]).value;
        hide Apply;
        ExecAppend(next, a[1..], b, Rest(faults));
        var p := Exec(next, a[1..], Rest(faults));
        if p.ok {
          Regroup(a, Exec(p.db, b, p.faults).done);
        }
      }
    }
  }

  lemma Regroup<T>(a: seq<T>, b: seq<T>)
    requires a != []
    ensures [a[0]] + (a[1..] + b) == a + b
  {
  }
}
