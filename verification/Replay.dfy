/**
What a history of writes leaves in the store. A history is read here through "the last write
that ...", never by running it, so the theorems say what each column means.
*/
module Replay {
  import opened Common
  import opened Tables

  /** The columns an update leaves alone when the delivery has nothing for them. */
  datatype Meta = Branch | Sha | Message | Actor

  function Get(run: RunData, m: Meta): string {
    match m
    case Branch => run.branch
    case Sha => run.sha
    case Message => run.message
    case Actor => run.actor
  }

  datatype Event =
    | RunPut(key: RunKey)
    | MetaPut(key: RunKey, m: Meta)
    | JobPut(at: JobKey)
    | StepsPut(at: JobKey)
    | EtagPut(repo: string)

  predicate Hits(w: Write, e: Event) {
    match e
    case RunPut(key) => w.PutRun? && w.key == key
    case MetaPut(key, m) => w.PutRun? && w.key == key && Get(w.run, m) != ""
    case JobPut(at) => w.PutJob? && w.at == at
    case StepsPut(at) => w.PutSteps? && w.at == at
    case EtagPut(repo) => w.PutEtag? && w.repo == repo
  }

  /** The last write of a history that an event is about, or -1. */
  function Last(log: seq<Write>, e: Event): (i: int)
    ensures -1 <= i < |log|
    ensures i >= 0 ==> Hits(log[i], e)
    ensures forall j :: i < j < |log| ==> !Hits(log[j], e)
  {
    if log == [] then -1
    else if Hits(log[|log| - 1], e) then |log| - 1
    else Last(log[..|log| - 1], e)
  }

  predicate Happened(log: seq<Write>, e: Event) {
    Last(log, e) >= 0
  }

  /** Everything about a run row but its commit metadata. */
  function Core(run: RunData): RunData {
    run.(branch := "", sha := "", message := "", actor := "")
  }

  function MetaOf(db: DB, key: RunKey, m: Meta): string {
    if key in db.runs then Get(db.runs[key], m) else ""
  }

  lemma Backward(db: DB, log: seq<Write>)
    requires log != [] && Exec(db, log, []).ok
    ensures var p := Exec(db, log[..|log| - 1], []);
            p.ok && Apply(p.db, log[|log| - 1]) == Some(Exec(db, log, []).db)
  {
    var init, last := log[..|log| - 1], log[|log| - 1];
    assert log == init + [last];
    ExecAppend(db, init, [last], []);
    NoFaultsLeft(db, init);
    var p := Exec(db, init, []);
    assert Exec(p.db, [last], []).ok;
    assert Exec(Apply(p.db, last).value, [last][1..], []).db == Apply(p.db, last).value;
  }

  lemma {:induction false} NoFaultsLeft(db: DB, log: seq<Write>)
    ensures Exec(db, log, []).faults == []
    decreases |log|
  {
    if log != [] && Apply(db, log[0]).Some? {
      NoFaultsLeft(Apply(db, log[0]).value, log[1..]);
    }
  }

  lemma LastSnoc(log: seq<Write>, w: Write, e: Event)
    ensures Last(log + [w], e) == if Hits(w, e) then |log| else Last(log, e)
    ensures Last(log + [w], e) >= 0 ==>
              (log + [w])[Last(log + [w], e)] == if Hits(w, e) then w else log[Last(log, e)]
  {
    assert (log + [w])[..|log + [w]| - 1] == log;
  }

  ghost predicate CoreReads(db: DB, log: seq<Write>, after: DB, key: RunKey) {
    && (key in after.runs <==> key in db.runs || Happened(log, RunPut(key)))
    && (key in after.runs ==>
          Core(after.runs[key]) ==
          if Happened(log, RunPut(key)) then Core(log[Last(log, RunPut(key))].run) else Core(db.runs[key]))
  }

  ghost predicate MetaReads(db: DB, log: seq<Write>, after: DB, key: RunKey, m: Meta) {
    MetaOf(after, key, m) ==
    if Happened(log, MetaPut(key, m)) then Get(log[Last(log, MetaPut(key, m))].run, m) else MetaOf(db, key, m)
  }

  lemma CoreStep(db: DB, log: seq<Write>, mid: DB, w: Write, after: DB, key: RunKey)
    requires CoreReads(db, log, mid, key) && Apply(mid, w) == Some(after)
    ensures CoreReads(db, log + [w], after, key)
  {
    LastSnoc(log, w, RunPut(key));
    hide Last;
  }

  lemma MetaStep(db: DB, log: seq<Write>, mid: DB, w: Write, after: DB, key: RunKey, m: Meta)
    requires MetaReads(db, log, mid, key, m) && Apply(mid, w) == Some(after)
    ensures MetaReads(db, log + [w], after, key, m)
  {
    LastSnoc(log, w, MetaPut(key, m));
    hide Last;
  }

  lemma {:induction false} AllReads(db: DB, log: seq<Write>, key: RunKey)
    requires Exec(db, log, []).ok
    ensures CoreReads(db, log, Exec(db, log, []).db, key)
    ensures forall m :: MetaReads(db, log, Exec(db, log, []).db, key, m)
    decreases |log|
  {
    if log != [] {
      var init, w := log[..|log| - 1], log[|log| - 1];
      Backward(db, log);
      AllReads(db, init, key);
      var mid, after := Exec(db, init, []).db, Exec(db, log, []).db;
      hide Exec;
      hide Apply;
      hide CoreReads;
      hide MetaReads;
      assert log == init + [w];
      CoreStep(db, init, mid, w, after, key);
      forall m: Meta
        ensures MetaReads(db, log, after, key, m)
      {
        MetaStep(db, init, mid, w, after, key, m);
      }
    }
  }

  /**
  A run row exists iff it did before or was ever written; it holds the last write's status,
  conclusion and times, and of each commit column the last value that was not empty.
  */
  lemma RunReplayed(db: DB, log: seq<Write>, key: RunKey)
    requires Exec(db, log, []).ok
    ensures var after := Exec(db, log, []).db;
            && (key in after.runs <==> key in db.runs || Happened(log, RunPut(key)))
            && (key in after.runs ==>
                  && Core(after.runs[key]) ==
                     (if Happened(log, RunPut(key)) then Core(log[Last(log, RunPut(key))].run) else Core(db.runs[key]))
                  && forall m :: Get(after.runs[key], m) ==
                       if Happened(log, MetaPut(key, m)) then Get(log[Last(log, MetaPut(key, m))].run, m)
                       else MetaOf(db, key, m))
  {
    AllReads(db, log, key);
    var after := Exec(db, log, []).db;
    hide Exec;
    hide Last;
    hide Core;
    hide Get;
    forall m: Meta
      ensures MetaOf(after, key, m) ==
              if Happened(log, MetaPut(key, m)) then Get(log[Last(log, MetaPut(key, m))].run, m) else MetaOf(db, key, m)
    {
      assert MetaReads(db, log, after, key, m);
    }
  }

  ghost predicate JobReads(db: DB, log: seq<Write>, after: DB, at: JobKey) {
    && (at in after.jobs <==> at in db.jobs || Happened(log, JobPut(at)))
    && (Happened(log, StepsPut(at)) ==> at in after.jobs)
    && (at in after.jobs ==>
          && after.jobs[at].data ==
             (if Happened(log, JobPut(at)) then log[Last(log, JobPut(at))].job else db.jobs[at].data)
          && after.jobs[at].steps ==
             (if Happened(log, StepsPut(at)) then log[Last(log, StepsPut(at))].steps else StepsAt(db.jobs, at)))
  }

  lemma JobStep(db: DB, log: seq<Write>, mid: DB, w: Write, after: DB, at: JobKey)
    requires JobReads(db, log, mid, at) && Apply(mid, w) == Some(after)
    ensures JobReads(db, log + [w], after, at)
  {
    LastSnoc(log, w, JobPut(at));
    LastSnoc(log, w, StepsPut(at));
    hide Last;
  }

  lemma {:induction false} AllJobReads(db: DB, log: seq<Write>, at: JobKey)
    requires Exec(db, log, []).ok
    ensures JobReads(db, log, Exec(db, log, []).db, at)
    decreases |log|
  {
    if log != [] {
      var init, w := log[..|log| - 1], log[|log| - 1];
      Backward(db, log);
      AllJobReads(db, init, at);
      var mid, after := Exec(db, init, []).db, Exec(db, log, []).db;
      hide Exec;
      hide Apply;
      hide JobReads;
      assert log == init + [w];
      JobStep(db, init, mid, w, after, at);
    }
  }

  /** Jobs and their step lists are last-writer-wins, separately. */
  lemma JobReplayed(db: DB, log: seq<Write>, at: JobKey)
    requires Exec(db, log, []).ok
    ensures var after := Exec(db, log, []).db;
            && (at in after.jobs <==> at in db.jobs || Happened(log, JobPut(at)))
            && (Happened(log, StepsPut(at)) ==> at in after.jobs)
            && (at in after.jobs ==>
                  && after.jobs[at].data ==
                     (if Happened(log, JobPut(at)) then log[Last(log, JobPut(at))].job else db.jobs[at].data)
                  && after.jobs[at].steps ==
                     (if Happened(log, StepsPut(at)) then log[Last(log, StepsPut(at))].steps else StepsAt(db.jobs, at)))
  {
    AllJobReads(db, log, at);
    hide Exec;
    hide Last;
  }

  /** Repositories are neither added nor lost, and each holds the last ETag written for it. */
  lemma {:induction false} RepoReplayed(db: DB, log: seq<Write>, repo: string)
    requires Exec(db, log, []).ok
    ensures var after := Exec(db, log, []).db;
            && (repo in after.repos <==> repo in db.repos)
            && (repo in db.repos ==>
                  after.repos[repo] ==
                  if Happened(log, EtagPut(repo))
                  then RepoRow(db.repos[repo].client, log[Last(log, EtagPut(repo))].etag)
                  else db.repos[repo])
    decreases |log|
  {
    if log != [] {
      Backward(db, log);
      RepoReplayed(db, log[..|log| - 1], repo);
    }
  }

  /** A write's constraints only ask for rows, and rows are never lost. */
  ghost predicate Covers(big: DB, small: DB) {
    small.repos.Keys <= big.repos.Keys && small.runs.Keys <= big.runs.Keys && small.jobs.Keys <= big.jobs.Keys
  }

  lemma {:induction false} StillAccepted(small: DB, big: DB, ws: seq<Write>)
    requires Covers(big, small) && Exec(small, ws, []).ok
    ensures Exec(big, ws, []).ok
    ensures Covers(Exec(big, ws, []).db, big)
    decreases |ws|
  {
    if ws != [] {
      var small', big' := Apply(small, ws[0]).value, Apply(big, ws[0]).value;
      AcceptedToo(small, big, ws[0]);
      hide Apply;
      StillAccepted(small', big', ws[1..]);
    }
  }

  lemma AcceptedToo(small: DB, big: DB, w: Write)
    requires Covers(big, small) && Apply(small, w).Some?
    ensures Apply(big, w).Some?
    ensures Covers(Apply(big, w).value, Apply(small, w).value) && Covers(Apply(big, w).value, big)
  {
    hide Merge;
  }

  lemma LastOfTwice(ws: seq<Write>, e: Event)
    ensures Happened(ws + ws, e) <==> Happened(ws, e)
    ensures Happened(ws, e) ==> (ws + ws)[Last(ws + ws, e)] == ws[Last(ws, e)]
  {
    var i, k := Last(ws, e), Last(ws + ws, e);
    assert i >= 0 ==> Hits((ws + ws)[|ws| + i], e);
    assert forall j :: i < j < |ws| ==> (ws + ws)[j] == ws[j] && (ws + ws)[|ws| + j] == ws[j];
  }

  /** Storing the same writes again, in the same order, changes nothing. */
  lemma Idempotent(db: DB, ws: seq<Write>)
    requires Exec(db, ws, []).ok
    ensures var once := Exec(db, ws, []).db;
            Exec(once, ws, []).ok && Exec(once, ws, []).db == once
  {
    var once := Exec(db, ws, []).db;
    StillAccepted(db, db, ws);
    StillAccepted(db, once, ws);
    ExecAppend(db, ws, ws, []);
    NoFaultsLeft(db, ws);
    var twice := Exec(once, ws, []).db;
    hide Exec;
    forall key: RunKey
      ensures key in once.runs <==> key in twice.runs
      ensures key in once.runs ==> once.runs[key] == twice.runs[key]
    {
      RunReplayed(db, ws, key);
      RunReplayed(db, ws + ws, key);
      LastOfTwice(ws, RunPut(key));
      forall m: Meta
        ensures key in once.runs && key in twice.runs ==> Get(once.runs[key], m) == Get(twice.runs[key], m)
      {
        LastOfTwice(ws, MetaPut(key, m));
      }
      if key in once.runs {
        SameRun(once.runs[key], twice.runs[key]);
      }
    }
    assert once.runs == twice.runs;
    forall at: JobKey
      ensures at in once.jobs <==> at in twice.jobs
      ensures at in once.jobs ==> once.jobs[at] == twice.jobs[at]
    {
      JobReplayed(db, ws, at);
      JobReplayed(db, ws + ws, at);
      LastOfTwice(ws, JobPut(at));
      LastOfTwice(ws, StepsPut(at));
    }
    assert once.jobs == twice.jobs;
    forall repo: string
      ensures repo in once.repos <==> repo in twice.repos
      ensures repo in once.repos ==> once.repos[repo] == twice.repos[repo]
    {
      RepoReplayed(db, ws, repo);
      RepoReplayed(db, ws + ws, repo);
      LastOfTwice(ws, EtagPut(repo));
    }
    assert once.repos == twice.repos;
  }

  lemma SameRun(a: RunData, b: RunData)
    requires Core(a) == Core(b) && forall m :: Get(a, m) == Get(b, m)
    ensures a == b
  {
    assert Get(a, Branch) == Get(b, Branch) && Get(a, Sha) == Get(b, Sha);
    assert Get(a, Message) == Get(b, Message) && Get(a, Actor) == Get(b, Actor);
  }
}
