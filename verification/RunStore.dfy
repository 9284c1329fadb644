/**
The SQLite adapter the ingestion side writes through: tables of rows carrying internal ids,
with the lookups, updates, inserts and transactions each call performs on them. Valid() ties
the tables to the value `db`, in which the ids no longer appear.
*/
module RunStore {
  import opened Common
  import opened Tables

  type Id = nat

  datatype RunRow = RunRow(key: RunKey, data: RunData)

  datatype JobRow = JobRow(run: Id, jobId: int, data: JobData)

  datatype StepRow = StepRow(job: Id, step: Step)

  datatype RunState = RunState(status: string, conclusion: string)

  /** A tracked repository as ListRepos reads it, with the ETag it had at that moment. */
  datatype Repo = Repo(id: string, client: Client, etag: string)

  /** The steps of one job, in row order. */
  function StepsOf(rows: seq<StepRow>, job: Id): seq<Step> {
    if rows == [] then []
    else (if rows[0].job == job then [rows[0].step] else []) + StepsOf(rows[1..], job)
  }

  function Without(rows: seq<StepRow>, job: Id): seq<StepRow> {
    if rows == [] then []
    else (if rows[0].job == job then [] else [rows[0]]) + Without(rows[1..], job)
  }

  function Tagged(job: Id, steps: seq<Step>): seq<StepRow> {
    seq(|steps|, i requires 0 <= i < |steps| => StepRow(job, steps[i]))
  }

  lemma {:induction false} StepsOfAppend(a: seq<StepRow>, b: seq<StepRow>, job: Id)
    ensures StepsOf(a + b, job) == StepsOf(a, job) + StepsOf(b, job)
  {
    if a == [] {
      assert a + b == b;
    } else {
      assert (a + b)[1..] == a[1..] + b && (a + b)[0] == a[0];
      StepsOfAppend(a[1..], b, job);
      var head := if a[0].job == job then [a[0].step] else [];
      assert head + (StepsOf(a[1..], job) + StepsOf(b, job)) == head + StepsOf(a[1..], job) + StepsOf(b, job);
    }
  }

  lemma {:induction false} StepsOfWithout(rows: seq<StepRow>, gone: Id, job: Id)
    ensures StepsOf(Without(rows, gone), job) == if job == gone then [] else StepsOf(rows, job)
  {
    if rows != [] {
      StepsOfWithout(rows[1..], gone, job);
      var head := if rows[0].job == gone then [] else [rows[0]];
      StepsOfAppend(head, Without(rows[1..], gone), job);
    }
  }

  lemma {:induction false} StepsOfTagged(owner: Id, steps: seq<Step>, job: Id)
    ensures StepsOf(Tagged(owner, steps), job) == if job == owner then steps else []
  {
    if steps != [] {
      StepsOfTagged(owner, steps[1..], job);
      assert Tagged(owner, steps)[1..] == Tagged(owner, steps[1..]);
    }
  }

  lemma {:induction false} WithoutMembers(rows: seq<StepRow>, gone: Id)
    ensures forall r :: r in Without(rows, gone) <==> r in rows && r.job != gone
  {
    if rows != [] {
      WithoutMembers(rows[1..], gone);
      assert rows == [rows[0]] + rows[1..];
    }
  }

  /** What a poll compares a listing against. */
  function KnownRuns(db: DB, repo: string): map<int, RunState> {
    map k | k in db.runs && k.repo == repo :: k.run := RunState(db.runs[k].status, db.runs[k].conclusion)
  }

  /** No entry of `before` is gone or changed in `after`. */
  ghost predicate Kept<K(!new), V>(before: map<K, V>, after: map<K, V>) {
    forall k :: k in before ==> k in after && after[k] == before[k]
  }

  /** The tables as stored. */
  datatype Rows = Rows(
    repos: map<string, RepoRow>, runs: map<Id, RunRow>, jobs: map<Id, JobRow>, steps: seq<StepRow>, nextId: Id)

  /** The internal id each forge key has been given, and the way back. */
  datatype Index = Index(runs: map<RunKey, Id>, runAt: map<Id, RunKey>, jobs: map<JobKey, Id>, jobAt: map<Id, JobKey>)

  ghost predicate Inverse<K(!new)>(to: map<K, Id>, back: map<Id, K>) {
    && (forall k :: k in to ==> to[k] in back && back[to[k]] == k)
    && (forall id :: id in back ==> back[id] in to && to[back[id]] == id)
  }

  lemma InverseExtended<K(!new)>(to: map<K, Id>, back: map<Id, K>, k: K, id: Id)
    requires Inverse(to, back) && k !in to && id !in back
    ensures Inverse(to[k := id], back[id := k])
  {
  }

  /** Run rows are the runs of the value, one row for each key, and their repositories exist. */
  ghost predicate RunsTied(rows: Rows, ids: Index, db: DB) {
    && db.runs.Keys == ids.runs.Keys
    && rows.runs.Keys == ids.runAt.Keys
    && (forall id :: id in ids.runAt ==>
        ids.runAt[id] in db.runs && rows.runs[id] == RunRow(ids.runAt[id], db.runs[ids.runAt[id]]))
    && (forall id :: id in ids.runAt ==> id < rows.nextId)
    && (forall k :: k in db.runs ==> k.repo in rows.repos)
  }

  ghost predicate JobsTied(rows: Rows, ids: Index, db: DB) {
    && db.jobs.Keys == ids.jobs.Keys
    && rows.jobs.Keys == ids.jobAt.Keys
    && (forall id :: id in ids.jobAt ==>
          var at := ids.jobAt[id];
          at in db.jobs && at.key in ids.runs && rows.jobs[id] == JobRow(ids.runs[at.key], at.jobId, db.jobs[at].data))
    && (forall id :: id in ids.jobAt ==> id < rows.nextId)
  }

  ghost predicate StepsTied(rows: Rows, ids: Index, db: DB) {
    && (forall id :: id in ids.jobAt ==>
          ids.jobAt[id] in db.jobs && StepsOf(rows.steps, id) == db.jobs[ids.jobAt[id]].steps)
    && (forall id :: id in ids.jobAt ==> ids.jobAt[id] in db.jobs && DistinctNumbers(db.jobs[ids.jobAt[id]].steps))
    && (forall r :: r in rows.steps ==> r.job in rows.jobs)
  }

  ghost predicate Tied(rows: Rows, ids: Index, db: DB) {
    && db.repos == rows.repos
    && Inverse(ids.runs, ids.runAt) && Inverse(ids.jobs, ids.jobAt)
    && RunsTied(rows, ids, db) && JobsTied(rows, ids, db) && StepsTied(rows, ids, db)
  }

  lemma UpdatedRepoTied(rows: Rows, ids: Index, db: DB, repo: string, row: RepoRow)
    requires Tied(rows, ids, db)
    ensures db.repos == rows.repos
    ensures Tied(rows.(repos := rows.repos[repo := row]), ids, db.(repos := rows.repos[repo := row]))
  {
    hide Inverse;
  }

  lemma SameRepos(rows: Rows, ids: Index, db: DB)
    requires Tied(rows, ids, db)
    ensures db.repos == rows.repos
  {
  }

  /** A run the lookup by key found is the row of that key. */
  lemma FoundRun(rows: Rows, ids: Index, db: DB, id: Id)
    requires Tied(rows, ids, db) && id in rows.runs
    ensures var key := rows.runs[id].key;
            key in ids.runs && ids.runs[key] == id && key in db.runs && rows.runs[id].data == db.runs[key]
    ensures rows.runs[id].key.repo in rows.repos
  {
  }

  /** The rows of one repository say what its known runs are. */
  lemma StatesOfRows(rows: Rows, ids: Index, db: DB, repo: string)
    requires Tied(rows, ids, db)
    ensures forall id :: id in rows.runs && rows.runs[id].key.repo == repo ==>
              var row := rows.runs[id];
              && row.key.run in KnownRuns(db, repo)
              && KnownRuns(db, repo)[row.key.run] == RunState(row.data.status, row.data.conclusion)
    ensures forall run :: run in KnownRuns(db, repo) ==>
              exists id :: id in rows.runs && rows.runs[id].key == RunKey(repo, run)
  {
    hide JobsTied;
    hide StepsTied;
    forall id | id in rows.runs && rows.runs[id].key.repo == repo
      ensures var row := rows.runs[id];
              && row.key.run in KnownRuns(db, repo)
              && KnownRuns(db, repo)[row.key.run] == RunState(row.data.status, row.data.conclusion)
    {
      var key := rows.runs[id].key;
      assert key == ids.runAt[id] && RunKey(repo, key.run) == key;
    }
    forall run | run in KnownRuns(db, repo)
      ensures exists id :: id in rows.runs && rows.runs[id].key == RunKey(repo, run)
    {
      var k := RunKey(repo, run);
      assert k in db.runs && rows.runs[ids.runs[k]].key == k;
    }
  }

  lemma AllStates(runs: map<Id, RunRow>, repo: string, found: map<int, RunState>, known: map<int, RunState>)
    requires forall run :: run in found ==> run in known && found[run] == known[run]
    requires forall id :: id in runs && runs[id].key.repo == repo ==> runs[id].key.run in found
    requires forall run :: run in known ==> exists id :: id in runs && runs[id].key == RunKey(repo, run)
    ensures found == known
  {
    forall run | run in known
      ensures run in found
    {
      var id :| id in runs && runs[id].key == RunKey(repo, run);
      assert runs[id].key.repo == repo && runs[id].key.run == run;
    }
    assert forall run :: run in known.Keys <==> run in found.Keys;
    assert forall run :: run in known ==> found[run] == known[run];
  }

  lemma UpdatedRunTied(rows: Rows, ids: Index, db: DB, id: Id, key: RunKey, run: RunData)
    requires Tied(rows, ids, db)
    requires id in rows.runs && rows.runs[id].key == key
    ensures Tied(
              rows.(runs := rows.runs[id := RunRow(key, Merge(rows.runs[id].data, run))]), ids,
              db.(runs := db.runs[key := Upserted(db.runs, key, run)]))
  {
    FoundRun(rows, ids, db, id);
    var data := Merge(rows.runs[id].data, run);
    assert data == Upserted(db.runs, key, run);
    hide Merge;
    hide Upserted;
    hide Inverse;
    RunUpdated(rows, ids, db, id, key, data);
    hide RunsTied;
    JobsTiedStill(rows, ids, db, rows.runs[id := RunRow(key, data)], db.runs[key := data]);
    StepsTiedStill(rows, ids, db, rows.runs[id := RunRow(key, data)], db.runs[key := data]);
    hide JobsTied;
    hide StepsTied;
  }

  lemma RunUpdated(rows: Rows, ids: Index, db: DB, id: Id, key: RunKey, data: RunData)
    requires RunsTied(rows, ids, db) && Inverse(ids.runs, ids.runAt)
    requires id in rows.runs && ids.runAt[id] == key && key in db.runs
    ensures RunsTied(rows.(runs := rows.runs[id := RunRow(key, data)]), ids, db.(runs := db.runs[key := data]))
  {
  }

  /** Job rows do not mention what is in a run's row. */
  lemma JobsTiedStill(rows: Rows, ids: Index, db: DB, runs: map<Id, RunRow>, runsOf: map<RunKey, RunData>)
    requires JobsTied(rows, ids, db)
    ensures JobsTied(rows.(runs := runs), ids, db.(runs := runsOf))
  {
  }

  lemma StepsTiedStill(rows: Rows, ids: Index, db: DB, runs: map<Id, RunRow>, runsOf: map<RunKey, RunData>)
    requires StepsTied(rows, ids, db)
    ensures StepsTied(rows.(runs := runs), ids, db.(runs := runsOf))
  {
    hide StepsOf;
    hide DistinctNumbers;
  }

  lemma NewRunKey(rows: Rows, ids: Index, db: DB, key: RunKey)
    requires Tied(rows, ids, db)
    requires forall id :: id in rows.runs ==> rows.runs[id].key != key
    ensures key !in ids.runs && key !in db.runs && rows.nextId !in ids.runAt
  {
    assert forall k :: k in ids.runs ==> ids.runs[k] in rows.runs && rows.runs[ids.runs[k]].key == k;
  }

  lemma InsertedRunTied(rows: Rows, ids: Index, db: DB, key: RunKey, run: RunData)
    requires Tied(rows, ids, db)
    requires key.repo in rows.repos
    requires forall id :: id in rows.runs ==> rows.runs[id].key != key
    ensures key !in ids.runs
    ensures Tied(
              rows.(runs := rows.runs[rows.nextId := RunRow(key, run)], nextId := rows.nextId + 1),
              ids.(runs := ids.runs[key := rows.nextId], runAt := ids.runAt[rows.nextId := key]),
              db.(runs := db.runs[key := Upserted(db.runs, key, run)]))
  {
    NewRunKey(rows, ids, db, key);
    InverseExtended(ids.runs, ids.runAt, key, rows.nextId);
    hide Inverse;
    RunInserted(rows, ids, db, key, run);
    hide RunsTied;
    JobsTiedBeside(rows, ids, db, key, run);
    hide JobsTied;
    StepsTiedBeside(rows, ids, db, key, run);
    hide StepsTied;
    assert Upserted(db.runs, key, run) == run;
    hide Upserted;
  }

  lemma JobsTiedBeside(rows: Rows, ids: Index, db: DB, key: RunKey, run: RunData)
    requires JobsTied(rows, ids, db) && key !in ids.runs
    ensures JobsTied(
              rows.(runs := rows.runs[rows.nextId := RunRow(key, run)], nextId := rows.nextId + 1),
              ids.(runs := ids.runs[key := rows.nextId], runAt := ids.runAt[rows.nextId := key]),
              db.(runs := db.runs[key := run]))
  {
  }

  lemma StepsTiedBeside(rows: Rows, ids: Index, db: DB, key: RunKey, run: RunData)
    requires StepsTied(rows, ids, db)
    ensures StepsTied(
              rows.(runs := rows.runs[rows.nextId := RunRow(key, run)], nextId := rows.nextId + 1),
              ids.(runs := ids.runs[key := rows.nextId], runAt := ids.runAt[rows.nextId := key]),
              db.(runs := db.runs[key := run]))
  {
    hide StepsOf;
    hide DistinctNumbers;
  }

  lemma RunInserted(rows: Rows, ids: Index, db: DB, key: RunKey, run: RunData)
    requires RunsTied(rows, ids, db)
    requires key.repo in rows.repos && key !in db.runs && rows.nextId !in ids.runAt
    ensures RunsTied(
              rows.(runs := rows.runs[rows.nextId := RunRow(key, run)], nextId := rows.nextId + 1),
              ids.(runs := ids.runs[key := rows.nextId], runAt := ids.runAt[rows.nextId := key]),
              db.(runs := db.runs[key := run]))
  {
  }

  /** The forge key of a stored job. */
  function KeyOf(rows: Rows, id: Id): JobKey
    requires id in rows.jobs && rows.jobs[id].run in rows.runs
  {
    JobKey(rows.runs[rows.jobs[id].run].key, rows.jobs[id].jobId)
  }

  lemma FoundJob(rows: Rows, ids: Index, db: DB, id: Id)
    requires Tied(rows, ids, db) && id in rows.jobs
    ensures rows.jobs[id].run in rows.runs
    ensures KeyOf(rows, id) == ids.jobAt[id]
    ensures KeyOf(rows, id) in ids.jobs && ids.jobs[KeyOf(rows, id)] == id && KeyOf(rows, id) in db.jobs
    ensures KeyOf(rows, id).key in db.runs
  {
    var at := ids.jobAt[id];
    assert rows.jobs[id] == JobRow(ids.runs[at.key], at.jobId, db.jobs[at].data);
    assert rows.runs[ids.runs[at.key]].key == at.key;
  }

  lemma UpdatedJobTied(rows: Rows, ids: Index, db: DB, id: Id, row: JobRow)
    requires Tied(rows, ids, db)
    requires id in rows.jobs && rows.jobs[id].run == row.run && rows.jobs[id].jobId == row.jobId
    requires row.run in rows.runs
    ensures var at := KeyOf(rows, id);
            Tied(rows.(jobs := rows.jobs[id := row]), ids,
                db.(jobs := db.jobs[at := JobView(row.data, StepsAt(db.jobs, at))]))
  {
    FoundJob(rows, ids, db, id);
    var at := ids.jobAt[id];
    assert StepsAt(db.jobs, at) == db.jobs[at].steps;
    assert rows.jobs[id] == JobRow(ids.runs[at.key], at.jobId, db.jobs[at].data);
    JobUpdated(rows, ids, db, id, at, row);
    RunsTiedStill(rows, ids, db, rows.jobs[id := row], db.jobs[at := JobView(row.data, db.jobs[at].steps)]);
    StepsKept(rows, ids, db, id, at, row);
    hide Inverse;
    hide RunsTied;
    hide JobsTied;
    hide StepsTied;
    hide StepsAt;
  }

  lemma JobUpdated(rows: Rows, ids: Index, db: DB, id: Id, at: JobKey, row: JobRow)
    requires JobsTied(rows, ids, db) && Inverse(ids.jobs, ids.jobAt)
    requires id in rows.jobs && ids.jobAt[id] == at && at in db.jobs
    requires row == JobRow(ids.runs[at.key], at.jobId, row.data)
    ensures JobsTied(rows.(jobs := rows.jobs[id := row]), ids,
        db.(jobs := db.jobs[at := JobView(row.data, db.jobs[at].steps)]))
  {
  }

  lemma RunsTiedStill(rows: Rows, ids: Index, db: DB, jobs: map<Id, JobRow>, jobsOf: map<JobKey, JobView>)
    requires RunsTied(rows, ids, db)
    ensures RunsTied(rows.(jobs := jobs), ids, db.(jobs := jobsOf))
  {
  }

  lemma StepsKept(rows: Rows, ids: Index, db: DB, id: Id, at: JobKey, row: JobRow)
    requires StepsTied(rows, ids, db) && at in db.jobs && id in rows.jobs
    ensures StepsTied(rows.(jobs := rows.jobs[id := row]), ids,
        db.(jobs := db.jobs[at := JobView(row.data, db.jobs[at].steps)]))
  {
    hide StepsOf;
    hide DistinctNumbers;
  }

  lemma InsertedJobTied(rows: Rows, ids: Index, db: DB, at: JobKey, row: JobRow)
    requires Tied(rows, ids, db)
    requires row.run in rows.runs && at == JobKey(rows.runs[row.run].key, row.jobId)
    requires forall id :: id in rows.jobs ==> !(rows.jobs[id].run == row.run && rows.jobs[id].jobId == row.jobId)
    ensures at.key in db.runs && at !in ids.jobs
    ensures Tied(
              rows.(jobs := rows.jobs[rows.nextId := row], nextId := rows.nextId + 1),
              ids.(jobs := ids.jobs[at := rows.nextId], jobAt := ids.jobAt[rows.nextId := at]),
              db.(jobs := db.jobs[at := JobView(row.data, StepsAt(db.jobs, at))]))
  {
    NewJobKey(rows, ids, db, at, row);
    InverseExtended(ids.jobs, ids.jobAt, at, rows.nextId);
    NoStepsOf(rows.steps, rows.nextId);
    hide Inverse;
    JobInserted(rows, ids, db, at, row);
    hide JobsTied;
    RunsTiedBesideJob(rows, ids, db, at, row);
    hide RunsTied;
    StepsInserted(rows, ids, db, at, row);
    hide StepsTied;
    assert StepsAt(db.jobs, at) == [];
    hide StepsAt;
  }

  lemma NewJobKey(rows: Rows, ids: Index, db: DB, at: JobKey, row: JobRow)
    requires Tied(rows, ids, db)
    requires row.run in rows.runs && at == JobKey(rows.runs[row.run].key, row.jobId)
    requires forall id :: id in rows.jobs ==> !(rows.jobs[id].run == row.run && rows.jobs[id].jobId == row.jobId)
    ensures at.key in db.runs && at.key in ids.runs && ids.runs[at.key] == row.run
    ensures at !in ids.jobs && at !in db.jobs && rows.nextId !in ids.jobAt
    ensures forall r :: r in rows.steps ==> r.job != rows.nextId
  {
    FoundRun(rows, ids, db, row.run);
    hide RunsTied;
    hide StepsOf;
    forall other | other in ids.jobs
      ensures other != at
    {
      assert ids.jobs[other] in rows.jobs && ids.jobAt[ids.jobs[other]] == other;
    }
  }

  lemma RunsTiedBesideJob(rows: Rows, ids: Index, db: DB, at: JobKey, row: JobRow)
    requires RunsTied(rows, ids, db)
    ensures RunsTied(
              rows.(jobs := rows.jobs[rows.nextId := row], nextId := rows.nextId + 1),
              ids.(jobs := ids.jobs[at := rows.nextId], jobAt := ids.jobAt[rows.nextId := at]),
              db.(jobs := db.jobs[at := JobView(row.data, [])]))
  {
  }

  lemma JobInserted(rows: Rows, ids: Index, db: DB, at: JobKey, row: JobRow)
    requires JobsTied(rows, ids, db)
    requires at !in db.jobs && rows.nextId !in ids.jobAt
    requires at.key in ids.runs && ids.runs[at.key] == row.run && at.jobId == row.jobId
    ensures JobsTied(
              rows.(jobs := rows.jobs[rows.nextId := row], nextId := rows.nextId + 1),
              ids.(jobs := ids.jobs[at := rows.nextId], jobAt := ids.jobAt[rows.nextId := at]),
              db.(jobs := db.jobs[at := JobView(row.data, [])]))
  {
  }

  lemma StepsInserted(rows: Rows, ids: Index, db: DB, at: JobKey, row: JobRow)
    requires StepsTied(rows, ids, db)
    requires at !in db.jobs && rows.nextId !in ids.jobAt && StepsOf(rows.steps, rows.nextId) == []
    ensures StepsTied(
              rows.(jobs := rows.jobs[rows.nextId := row], nextId := rows.nextId + 1),
              ids.(jobs := ids.jobs[at := rows.nextId], jobAt := ids.jobAt[rows.nextId := at]),
              db.(jobs := db.jobs[at := JobView(row.data, [])]))
  {
    hide StepsOf;
  }

  lemma {:induction false} NoStepsOf(rows: seq<StepRow>, job: Id)
    requires forall r :: r in rows ==> r.job != job
    ensures StepsOf(rows, job) == []
  {
    if rows != [] {
      NoStepsOf(rows[1..], job);
    }
  }

  lemma StepsAfterReplace(rows: seq<StepRow>, job: Id, data: seq<Step>)
    ensures var after := Without(rows, job) + Tagged(job, data);
            && (forall other: Id :: StepsOf(after, other) == if other == job then data else StepsOf(rows, other))
            && (forall r :: r in after ==> r.job == job || r in rows)
  {
    forall other: Id
      ensures StepsOf(Without(rows, job) + Tagged(job, data), other) ==
              if other == job then data else StepsOf(rows, other)
    {
      StepsOfAppend(Without(rows, job), Tagged(job, data), other);
      StepsOfWithout(rows, job, other);
      StepsOfTagged(job, data, other);
    }
    WithoutMembers(rows, job);
  }

  lemma ReplacedStepsTied(rows: Rows, ids: Index, db: DB, job: Id, data: seq<Step>)
    requires Tied(rows, ids, db)
    requires job in rows.jobs && DistinctNumbers(data) && rows.jobs[job].run in rows.runs
    ensures KeyOf(rows, job) in db.jobs
    ensures Tied(
              rows.(steps := Without(rows.steps, job) + Tagged(job, data)), ids,
              db.(jobs := db.jobs[KeyOf(rows, job) := JobView(db.jobs[KeyOf(rows, job)].data, data)]))
  {
    FoundJob(rows, ids, db, job);
    var at := ids.jobAt[job];
    var rows' := rows.(steps := Without(rows.steps, job) + Tagged(job, data));
    var db' := db.(jobs := db.jobs[at := JobView(db.jobs[at].data, data)]);
    assert forall other :: other in ids.jobAt && other != job ==> ids.jobAt[other] != at;
    hide Inverse;
    StepsAfterReplace(rows.steps, job, data);
    hide StepsOf;
    hide Without;
    hide Tagged;
    JobsKept(rows, ids, db, at, data, rows'.steps);
    hide JobsTied;
    hide RunsTied;
    StepsReplaced(rows, ids, db, at, job, data, rows'.steps);
  }

  lemma JobsKept(rows: Rows, ids: Index, db: DB, at: JobKey, data: seq<Step>, steps: seq<StepRow>)
    requires RunsTied(rows, ids, db) && JobsTied(rows, ids, db) && at in db.jobs
    ensures RunsTied(rows.(steps := steps), ids, db.(jobs := db.jobs[at := JobView(db.jobs[at].data, data)]))
    ensures JobsTied(rows.(steps := steps), ids, db.(jobs := db.jobs[at := JobView(db.jobs[at].data, data)]))
  {
  }

  lemma StepsReplaced(rows: Rows, ids: Index, db: DB, at: JobKey, job: Id, data: seq<Step>, steps: seq<StepRow>)
    requires StepsTied(rows, ids, db)
    requires at in db.jobs && job in ids.jobAt && ids.jobAt[job] == at && DistinctNumbers(data)
    requires forall other :: other in ids.jobAt && other != job ==> ids.jobAt[other] != at
    requires forall other: Id :: StepsOf(steps, other) == if other == job then data else StepsOf(rows.steps, other)
    requires forall r :: r in steps ==> r.job in rows.jobs
    ensures StepsTied(rows.(steps := steps), ids, db.(jobs := db.jobs[at := JobView(db.jobs[at].data, data)]))
  {
    hide StepsOf;
    hide DistinctNumbers;
  }

  lemma StepsOwned(rows: Rows, ids: Index, db: DB)
    requires Tied(rows, ids, db)
    ensures forall r :: r in rows.steps ==> r.job in rows.jobs
  {
  }

  lemma {:induction false} NothingRemoved(rows: seq<StepRow>, job: Id)
    requires forall r :: r in rows ==> r.job != job
    ensures Without(rows, job) == rows
  {
    if rows != [] {
      NothingRemoved(rows[1..], job);
    }
  }

  /** The number of row i is one that an earlier row of the job has. */
  ghost predicate Taken(data: seq<Step>, i: nat)
    requires i < |data|
  {
    exists m :: 0 <= m < i && data[m].number == data[i].number
  }

  lemma TakenInRows(kept: seq<StepRow>, job: Id, data: seq<Step>, i: nat)
    requires i < |data|
    requires forall r :: r in kept ==> r.job != job
    ensures (exists r :: r in kept + Tagged(job, data[..i]) && r.job == job && r.step.number == data[i].number)
            <==> Taken(data, i)
  {
    var tx := kept + Tagged(job, data[..i]);
    if r :| r in tx && r.job == job && r.step.number == data[i].number {
      var n :| 0 <= n < |tx| && tx[n] == r;
      assert n < |kept| ==> r in kept;
      assert data[n - |kept|].number == data[i].number;
    }
    if m :| 0 <= m < i && data[m].number == data[i].number {
      assert tx[|kept| + m] == StepRow(job, data[m]);
    }
  }

  lemma DistinctSoFar(data: seq<Step>, i: nat)
    requires i < |data| && DistinctNumbers(data[..i])
    ensures DistinctNumbers(data[..i + 1]) <==> !Taken(data, i)
  {
    if m :| 0 <= m < i && data[m].number == data[i].number {
      assert data[..i + 1][m].number == data[..i + 1][i].number;
    }
    if !DistinctNumbers(data[..i + 1]) {
      var m, n :| 0 <= m < n < i + 1 && data[..i + 1][m].number == data[..i + 1][n].number;
      assert n < i ==> data[..i][m].number == data[..i][n].number;
    }
  }

  /** The unique index on (job_id, number) refuses row i exactly when an earlier row has its number. */
  lemma TaggedClash(kept: seq<StepRow>, job: Id, data: seq<Step>, i: nat)
    requires i < |data| && DistinctNumbers(data[..i])
    requires forall r :: r in kept ==> r.job != job
    ensures (exists r :: r in kept + Tagged(job, data[..i]) && r.job == job && r.step.number == data[i].number)
            <==> !DistinctNumbers(data[..i + 1])
  {
    TakenInRows(kept, job, data, i);
    DistinctSoFar(data, i);
    hide Tagged;
    hide DistinctNumbers;
    hide Taken;
  }

  lemma PrefixDistinct(data: seq<Step>, n: nat)
    requires n <= |data| && !DistinctNumbers(data[..n])
    ensures !DistinctNumbers(data)
  {
    var i, j :| 0 <= i < j < n && data[..n][i].number == data[..n][j].number;
    assert data[i] == data[..n][i] && data[j] == data[..n][j];
  }

  /**
  The INSERTs of one ReplaceSteps transaction, on the rows its DELETE left. Each row must name
  a stored job (`owned`) and a step number no earlier row of that job has; the first that does
  not fails the transaction.
  */
  method InsertSteps(kept: seq<StepRow>, job: Id, data: seq<Step>, owned: bool) returns (tx: Option<seq<StepRow>>)
    requires forall r :: r in kept ==> r.job != job
    ensures tx.Some? <==> DistinctNumbers(data) && (owned || data == [])
    ensures tx.Some? ==> tx.value == kept + Tagged(job, data)
  {
    var rows := kept;
    var i := 0;
    while i < |data|
      invariant 0 <= i <= |data|
      invariant rows == kept + Tagged(job, data[..i])
      invariant DistinctNumbers(data[..i])
      invariant i > 0 ==> owned
    {
      if !owned {
        return None;
      }
      TaggedClash(kept, job, data, i);
      if exists r :: r in rows && r.job == job && r.step.number == data[i].number {
        PrefixDistinct(data, i + 1);
        return None;
      }
      rows := rows + [StepRow(job, data[i])];
      i := i + 1;
      assert Tagged(job, data[..i]) == Tagged(job, data[..i-1]) + [StepRow(job, data[i-1])];
    }
    assert data[..i] == data;
    return Some(rows);
  }

  /** The repositories of `db`, each once, as they are stored. */
  ghost predicate Lists(repos: seq<Repo>, db: DB) {
    && (forall i, j :: 0 <= i < j < |repos| ==> repos[i].id != repos[j].id)
    && (forall r :: r in repos ==> r.id in db.repos && db.repos[r.id] == RepoRow(r.client, r.etag))
    && (forall id :: id in db.repos ==> Repo(id, db.repos[id].client, db.repos[id].etag) in repos)
  }

  class Store {
    var repos: map<string, RepoRow>
    var runs: map<Id, RunRow>
    var jobs: map<Id, JobRow>
    var steps: seq<StepRow>
    var nextId: Id
    var faults: Faults

    ghost var db: DB
    ghost var log: seq<Write>
    ghost var ids: Index

    ghost predicate Valid()
      reads this
    {
      Tied(Rows(repos, runs, jobs, steps, nextId), ids, db)
    }

    constructor (tracked: map<string, RepoRow>, script: Faults)
      ensures Valid() && db == DB(tracked, map[], map[]) && log == [] && faults == script
    {
      repos, runs, jobs, steps, nextId, faults := tracked, map[], map[], [], 0, script;
      db, log, ids := DB(tracked, map[], map[]), [], Index(map[], map[], map[], map[]);
    }

    /** One write, made or refused, as the value of the store sees it; ids once given never change. */
    twostate predicate Wrote(w: Write, ok: bool)
      reads this
    {
      && faults == Rest(old(faults))
      && ok == (!Failing(old(faults)) && Apply(old(db), w).Some?)
      && db == (if ok then Apply(old(db), w).value else old(db))
      && log == (if ok then old(log) + [w] else old(log))
      && Kept(old(ids).runs, ids.runs) && Kept(old(ids).jobs, ids.jobs)
    }

    /** The database's own failures: a locked file, a closed handle, a cancelled context. */
    method Fault() returns (failed: bool)
      modifies this`faults
      ensures failed == Failing(old(faults)) && faults == Rest(old(faults))
    {
      failed := Failing(faults);
      faults := Rest(faults);
    }

    method FindRun(key: RunKey) returns (found: Option<Id>)
      ensures found.Some? ==> found.value in runs && runs[found.value].key == key
      ensures found.None? ==> forall id :: id in runs ==> runs[id].key != key
    {
      var todo := runs.Keys;
      while todo != {}
        invariant todo <= runs.Keys
        invariant forall id :: id in runs && id !in todo ==> runs[id].key != key
      {
        var id :| id in todo;
        if runs[id].key == key {
          return Some(id);
        }
        todo := todo - {id};
      }
      return None;
    }

    method FindJob(run: Id, jobId: int) returns (found: Option<Id>)
      ensures found.Some? ==> found.value in jobs && jobs[found.value].run == run && jobs[found.value].jobId == jobId
      ensures found.None? ==> forall id :: id in jobs ==> !(jobs[id].run == run && jobs[id].jobId == jobId)
    {
      var todo := jobs.Keys;
      while todo != {}
        invariant todo <= jobs.Keys
        invariant forall id :: id in jobs && id !in todo ==> !(jobs[id].run == run && jobs[id].jobId == jobId)
      {
        var id :| id in todo;
        if jobs[id].run == run && jobs[id].jobId == jobId {
          return Some(id);
        }
        todo := todo - {id};
      }
      return None;
    }

    method UpsertRun(key: RunKey, run: RunData) returns (id: Result<Id>)
      requires Valid()
      modifies this
      ensures Valid() && Wrote(PutRun(key, run), id.Ok?)
      ensures id.Ok? ==> key in ids.runs && ids.runs[key] == id.value
    {
      hide Tied;
      ghost var rows := Rows(repos, runs, jobs, steps, nextId);
      SameRepos(rows, ids, db);
      var failed := Fault();
      if failed {
        return Err;
      }
      var existing := FindRun(key);
      if existing.Some? {
        FoundRun(rows, ids, db, existing.value);
        UpdatedRunTied(rows, ids, db, existing.value, key, run);
        id := Ok(existing.value);
        runs := runs[existing.value := RunRow(key, Merge(runs[existing.value].data, run))];
      } else {
        if key.repo !in repos {
          return Err;
        }
        assert rows.runs == runs && rows.repos == repos;
        assert forall other :: other in rows.runs ==> rows.runs[other].key != key;
        InsertedRunTied(rows, ids, db, key, run);
        id := Ok(nextId);
        runs := runs[nextId := RunRow(key, run)];
        ids := ids.(runs := ids.runs[key := nextId], runAt := ids.runAt[nextId := key]);
        nextId := nextId + 1;
      }
      db := db.(runs := db.runs[key := Upserted(db.runs, key, run)]);
      log := log + [PutRun(key, run)];
    }

    method UpsertJob(run: Id, jobId: int, job: JobData) returns (id: Result<Id>)
      requires Valid()
      modifies this
      ensures Valid() && runs == old(runs) && ids.runs == old(ids.runs)
      ensures run in runs ==> Wrote(PutJob(JobKey(runs[run].key, jobId), job), id.Ok?)
      ensures run !in runs ==> id.Err? && db == old(db) && log == old(log) && faults == Rest(old(faults))
      ensures id.Ok? ==> id.value in jobs && jobs[id.value] == JobRow(run, jobId, job)
      ensures id.Ok? ==> var at := JobKey(runs[run].key, jobId); at in ids.jobs && ids.jobs[at] == id.value
    {
      hide Tied;
      ghost var rows := Rows(repos, runs, jobs, steps, nextId);
      if run in runs {
        FoundRun(rows, ids, db, run);
      }
      var failed := Fault();
      if failed {
        return Err;
      }
      var existing := FindJob(run, jobId);
      var row := JobRow(run, jobId, job);
      if existing.Some? {
        FoundJob(rows, ids, db, existing.value);
        UpdatedJobTied(rows, ids, db, existing.value, row);
        id := Ok(existing.value);
        jobs := jobs[existing.value := row];
      } else {
        if run !in runs {
          return Err;
        }
        ghost var at := JobKey(runs[run].key, jobId);
        assert rows.jobs == jobs && row.run == run;
        assert forall other :: other in rows.jobs ==>
            !(rows.jobs[other].run == row.run && rows.jobs[other].jobId == jobId);
        InsertedJobTied(rows, ids, db, at, row);
        id := Ok(nextId);
        jobs := jobs[nextId := row];
        ids := ids.(jobs := ids.jobs[at := nextId], jobAt := ids.jobAt[nextId := at]);
        nextId := nextId + 1;
      }
      ghost var at := JobKey(runs[run].key, jobId);
      db := db.(jobs := db.jobs[at := JobView(job, StepsAt(db.jobs, at))]);
      log := log + [PutJob(at, job)];
    }

    method ReplaceSteps(job: Id, data: seq<Step>) returns (ok: bool)
      requires Valid()
      modifies this
      ensures Valid() && runs == old(runs) && jobs == old(jobs) && ids == old(ids)
      ensures job in jobs ==>
        jobs[job].run in runs && Wrote(PutSteps(JobKey(runs[jobs[job].run].key, jobs[job].jobId), data), ok)
      ensures job !in jobs ==>
        ok == (!Failing(old(faults)) && data == []) && db == old(db) && log == old(log) && faults == Rest(old(faults))
    {
      hide Tied;
      ghost var rows := Rows(repos, runs, jobs, steps, nextId);
      if job in jobs {
        FoundJob(rows, ids, db, job);
      }
      var failed := Fault();
      if failed {
        return false;
      }
      WithoutMembers(steps, job);
      var tx := InsertSteps(Without(steps, job), job, data, job in jobs);
      if tx.None? {
        // The rollback leaves the old steps in place.
        return false;
      }
      if job in jobs {
        ReplacedStepsTied(rows, ids, db, job, data);
        ghost var at := KeyOf(rows, job);
        db := db.(jobs := db.jobs[at := JobView(db.jobs[at].data, data)]);
        log := log + [PutSteps(at, data)];
      } else {
        StepsOwned(rows, ids, db);
        NothingRemoved(steps, job);
        assert tx.value == steps;
      }
      steps := tx.value;
      return true;
    }

    method SetReconcileETag(repo: string, etag: string) returns (ok: bool)
      requires Valid()
      modifies this
      ensures Valid() && Wrote(PutEtag(repo, etag), ok) && ids == old(ids)
    {
      hide Tied;
      SameRepos(Rows(repos, runs, jobs, steps, nextId), ids, db);
      var failed := Fault();
      if failed || repo !in repos {
        return false;
      }
      UpdatedRepoTied(Rows(repos, runs, jobs, steps, nextId), ids, db, repo, repos[repo].(etag := etag));
      repos := repos[repo := repos[repo].(etag := etag)];
      db := db.(repos := repos);
      log := log + [PutEtag(repo, etag)];
      return true;
    }

    /** The row id a key was given is a row of that key. */
    lemma RowOf(key: RunKey)
      requires Valid() && key in ids.runs
      ensures ids.runs[key] in runs && runs[ids.runs[key]].key == key
    {
    }

    /** Reads the token that polling needs; only whether that works matters here. */
    method RepoToken(repo: string) returns (ok: bool)
      requires Valid()
      modifies this`faults
      ensures Valid() && faults == Rest(old(faults))
      ensures ok <==> !Failing(old(faults)) && repo in db.repos
    {
      hide Tied;
      SameRepos(Rows(repos, runs, jobs, steps, nextId), ids, db);
      var failed := Fault();
      return !failed && repo in repos;
    }

    method RunStates(repo: string) returns (states: Result<map<int, RunState>>)
      requires Valid()
      modifies this`faults
      ensures Valid() && faults == Rest(old(faults))
      ensures states == if Failing(old(faults)) then Err else Ok(KnownRuns(db, repo))
    {
      hide Tied;
      StatesOfRows(Rows(repos, runs, jobs, steps, nextId), ids, db, repo);
      hide KnownRuns;
      var failed := Fault();
      if failed {
        return Err;
      }
      var todo := runs.Keys;
      var found: map<int, RunState> := map[];
      while todo != {}
        modifies {}
        invariant todo <= runs.Keys
        invariant forall run :: run in found ==>
          run in KnownRuns(db, repo) && found[run] == KnownRuns(db, repo)[run]
        invariant forall id :: id in runs && id !in todo && runs[id].key.repo == repo ==> runs[id].key.run in found
      {
        var id :| id in todo;
        var row := runs[id];
        if row.key.repo == repo {
          found := found[row.key.run := RunState(row.data.status, row.data.conclusion)];
        }
        todo := todo - {id};
      }
      AllStates(runs, repo, found, KnownRuns(db, repo));
      return Ok(found);
    }

    /** Every tracked repository once, in an order the caller cannot choose. */
    method ListRepos() returns (listed: Result<seq<Repo>>)
      requires Valid()
      modifies this`faults
      ensures Valid() && faults == Rest(old(faults))
      ensures listed.Ok? <==> !Failing(old(faults))
      ensures listed.Ok? ==> Lists(listed.value, db)
    {
      hide Tied;
      SameRepos(Rows(repos, runs, jobs, steps, nextId), ids, db);
      var failed := Fault();
      if failed {
        return Err;
      }
      var todo := repos.Keys;
      var found: seq<Repo> := [];
      while todo != {}
        modifies {}
        invariant todo <= repos.Keys
        invariant forall id :: id in repos && id !in todo ==> Repo(id, repos[id].client, repos[id].etag) in found
        invariant forall r :: r in found ==> r.id in repos && r.id !in todo && repos[r.id] == RepoRow(r.client, r.etag)
        invariant forall i, j :: 0 <= i < j < |found| ==> found[i].id != found[j].id
      {
        var id :| id in todo;
        found := found + [Repo(id, repos[id].client, repos[id].etag)];
        todo := todo - {id};
      }
      return Ok(found);
    }
  }
}
