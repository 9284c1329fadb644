/**
Polls and webhook deliveries running at once. Each is a task with a plan of store calls fixed
when it starts; the calls of different tasks interleave in any way, any of them may fail, and
a task whose call fails is abandoned where it stands.
*/
module Interleaving {
  import opened Common
  import opened Tables
  import opened RunStore
  import opened GithubClient
  import opened Reconcile
  import opened Webhook
  import opened Replay
  import PollTraces

  /**
  Where a task's plan comes from. A poll plans from the forge's answer, the ETag it was sent
  and the runs known when it read them, however stale those are by the time it writes.
  */
  datatype Origin =
    | FromPoll(repo: Repo, forge: Forge, known: map<int, RunState>)
    | FromDelivery(repoId: string, delivery: Delivery)

  function Plan(o: Origin): seq<Write> {
    match o
    case FromPoll(repo, forge, known) => PollWrites(repo.id, Answer(repo, forge, known))
    case FromDelivery(repoId, delivery) => DeliveryWrites(repoId, delivery)
  }

  datatype Task = Task(origin: Origin, pc: nat, running: bool)

  datatype Entry = Entry(task: nat, write: Write)

  datatype Sys = Sys(db: DB, tasks: seq<Task>, log: seq<Entry>)

  ghost predicate Start(s: Sys, o: Origin, s': Sys) {
    s' == s.(tasks := s.tasks + [Task(o, 0, true)])
  }

  /** Task t's next store call succeeds. */
  ghost predicate Write(s: Sys, t: nat, s': Sys) {
    && t < |s.tasks| && s.tasks[t].running
    && var task := s.tasks[t];
       && task.pc < |Plan(task.origin)|
       && var w := Plan(task.origin)[task.pc];
          && Apply(s.db, w).Some?
          && s' == Sys(Apply(s.db, w).value, s.tasks[t := task.(pc := task.pc + 1)], s.log + [Entry(t, w)])
  }

  /** Task t's next store call fails, for whatever reason. */
  ghost predicate Abandon(s: Sys, t: nat, s': Sys) {
    && t < |s.tasks| && s.tasks[t].running
    && s' == s.(tasks := s.tasks[t := s.tasks[t].(running := false)])
  }

  ghost predicate Next(s: Sys, s': Sys) {
    || (exists o :: Start(s, o, s'))
    || (exists t :: Write(s, t, s'))
    || (exists t :: Abandon(s, t, s'))
  }

  ghost predicate Behaviour(db: DB, b: seq<Sys>) {
    && b != [] && b[0] == Sys(db, [], [])
    && (forall i :: 0 <= i < |b| - 1 ==> Next(b[i], b[i + 1]))
  }

  function Writes(log: seq<Entry>): seq<Write> {
    seq(|log|, i requires 0 <= i < |log| => log[i].write)
  }

  /** What one task has written, in order. */
  function By(log: seq<Entry>, t: nat): seq<Write> {
    if log == [] then []
    else By(log[..|log| - 1], t) + (if log[|log| - 1].task == t then [log[|log| - 1].write] else [])
  }

  /**
  The store is a replay of the log, each log entry belongs to a task, and every task has
  written exactly its plan's first calls, in order.
  */
  ghost predicate Inv(db: DB, s: Sys) {
    Replays(db, s.log, s.db) && InStep(s.log, s.tasks)
  }

  ghost predicate Replays(db: DB, log: seq<Entry>, now: DB) {
    Exec(db, Writes(log), []).ok && Exec(db, Writes(log), []).db == now
  }

  ghost predicate InStep(log: seq<Entry>, tasks: seq<Task>) {
    && (forall i :: 0 <= i < |log| ==> log[i].task < |tasks|)
    && (forall t :: 0 <= t < |tasks| ==> Follows(log, t, tasks[t]))
  }

  ghost predicate Follows(log: seq<Entry>, t: nat, task: Task) {
    task.pc <= |Plan(task.origin)| && By(log, t) == Plan(task.origin)[..task.pc]
  }

  lemma {:induction false} ByStranger(log: seq<Entry>, t: nat)
    requires forall i :: 0 <= i < |log| ==> log[i].task != t
    ensures By(log, t) == []
  {
    if log != [] {
      ByStranger(log[..|log| - 1], t);
    }
  }

  lemma ReplayOneMore(db: DB, log: seq<Entry>, e: Entry)
    requires Exec(db, Writes(log), []).ok && Apply(Exec(db, Writes(log), []).db, e.write).Some?
    ensures Exec(db, Writes(log + [e]), []).ok
    ensures Some(Exec(db, Writes(log + [e]), []).db) == Apply(Exec(db, Writes(log), []).db, e.write)
  {
    assert Writes(log + [e]) == Writes(log) + [e.write];
    ExecAppend(db, Writes(log), [e.write], []);
    NoFaultsLeft(db, Writes(log));
    One(Exec(db, Writes(log), []).db, e.write, []);
  }

  lemma ByWrite(log: seq<Entry>, e: Entry, u: nat)
    ensures By(log + [e], u) == if e.task == u then By(log, u) + [e.write] else By(log, u)
  {
    assert (log + [e])[..|log + [e]| - 1] == log;
    assert By(log, u) + [] == By(log, u);
  }

  /** The task whose call it was follows its plan one call further. */
  lemma FollowsOn(log: seq<Entry>, t: nat, task: Task)
    requires Follows(log, t, task) && task.pc < |Plan(task.origin)|
    ensures Follows(log + [Entry(t, Plan(task.origin)[task.pc])], t, task.(pc := task.pc + 1))
  {
    var plan := Plan(task.origin);
    ByWrite(log, Entry(t, plan[task.pc]), t);
    assert plan[..task.pc + 1] == plan[..task.pc] + [plan[task.pc]];
    hide Plan;
    hide By;
  }

  lemma FollowsStill(log: seq<Entry>, e: Entry, t: nat, task: Task)
    requires Follows(log, t, task) && e.task != t
    ensures Follows(log + [e], t, task)
  {
    ByWrite(log, e, t);
    hide Plan;
    hide By;
  }

  lemma InStepWrite(log: seq<Entry>, tasks: seq<Task>, t: nat)
    requires InStep(log, tasks) && t < |tasks| && tasks[t].pc < |Plan(tasks[t].origin)|
    ensures var task := tasks[t];
            InStep(log + [Entry(t, Plan(task.origin)[task.pc])], tasks[t := task.(pc := task.pc + 1)])
  {
    var e := Entry(t, Plan(tasks[t].origin)[tasks[t].pc]);
    FollowsOn(log, t, tasks[t]);
    forall u | 0 <= u < |tasks| && u != t
      ensures Follows(log + [e], u, tasks[u])
    {
      FollowsStill(log, e, u, tasks[u]);
    }
    hide Follows;
    hide Plan;
  }

  lemma InvWrite(db: DB, s: Sys, t: nat, s': Sys)
    requires Inv(db, s) && Write(s, t, s')
    ensures Inv(db, s')
  {
    var task := s.tasks[t];
    InStepWrite(s.log, s.tasks, t);
    hide InStep;
    ReplayOneMore(db, s.log, Entry(t, Plan(task.origin)[task.pc]));
    hide Plan;
    hide Exec;
    hide Apply;
  }

  lemma InvStart(db: DB, s: Sys, o: Origin, s': Sys)
    requires Inv(db, s) && Start(s, o, s')
    ensures Inv(db, s')
  {
    hide Replays;
    ByStranger(s.log, |s.tasks|);
    hide Plan;
    hide By;
    assert Follows(s.log, |s.tasks|, Task(o, 0, true));
    hide Follows;
  }

  lemma InvAbandon(db: DB, s: Sys, t: nat, s': Sys)
    requires Inv(db, s) && Abandon(s, t, s')
    ensures Inv(db, s')
  {
    hide Replays;
    hide Plan;
    hide By;
    assert Follows(s.log, t, s.tasks[t]);
    assert Follows(s.log, t, s'.tasks[t]);
    hide Follows;
  }

  lemma InvNext(db: DB, s: Sys, s': Sys)
    requires Inv(db, s) && Next(s, s')
    ensures Inv(db, s')
  {
    hide Inv;
    hide Write;
    hide Start;
    hide Abandon;
    if t :| Write(s, t, s') {
      InvWrite(db, s, t, s');
    } else if o :| Start(s, o, s') {
      InvStart(db, s, o, s');
    } else {
      var t :| Abandon(s, t, s');
      InvAbandon(db, s, t, s');
    }
  }

  lemma {:induction false} Always(db: DB, b: seq<Sys>, n: nat)
    requires Behaviour(db, b) && n < |b|
    ensures Inv(db, b[n])
  {
    if n == 0 {
      assert Writes([]) == [];
    } else {
      Always(db, b, n - 1);
      InvNext(db, b[n - 1], b[n]);
    }
  }

  lemma {:induction false} ByPrefix(log: seq<Entry>, t: nat, i: nat)
    requires i <= |log|
    ensures By(log[..i], t) <= By(log, t)
    ensures i < |log| && log[i].task == t ==>
      |By(log[..i], t)| < |By(log, t)| && By(log, t)[|By(log[..i], t)|] == log[i].write
    decreases |log|
  {
    if i < |log| {
      var init := log[..|log| - 1];
      ByPrefix(init, t, i);
      assert init[..i] == log[..i];
      if i == |log| - 1 {
        assert log[..i] == init;
      } else {
        assert init[i] == log[i];
      }
    } else {
      assert log[..i] == log;
    }
  }

  lemma {:induction false} SnapshotsHaveNoEtag(repo: string, runs: seq<RunSnapshot>)
    ensures forall w :: w in RunsWrites(repo, runs) ==> !w.PutEtag?
  {
    if runs != [] {
      JobsHaveNoEtag(RunKey(repo, runs[0].id), runs[0].jobs);
      SnapshotsHaveNoEtag(repo, runs[1..]);
    }
  }

  lemma {:induction false} JobsHaveNoEtag(key: RunKey, jobs: seq<JobSnapshot>)
    ensures forall w :: w in JobsWrites(key, jobs) ==> !w.PutEtag?
  {
    if jobs != [] {
      JobsHaveNoEtag(key, jobs[1..]);
    }
  }

  /** A PutEtag in a plan is a GitHub poll's last call, after all the snapshots of that ETag's listing. */
  lemma EtagIsLast(o: Origin, k: nat)
    requires k < |Plan(o)| && Plan(o)[k].PutEtag?
    ensures o.FromPoll? && o.repo.client.GitHub? && Plan(o)[k] == PutEtag(o.repo.id, o.forge.etag)
    ensures var runs := Snapshots(o.forge, o.known, o.forge.listing);
            runs.Some? && Plan(o)[..k] == RunsWrites(o.repo.id, runs.value)
  {
    if o.FromPoll? {
      var result := Answer(o.repo, o.forge, o.known);
      if result.Fetched? {
        SnapshotsHaveNoEtag(o.repo.id, result.runs);
      }
    }
  }

  /**
  Every ETag ever written was written by a poll whose own earlier calls had stored, in order and
  without a gap, every snapshot of the listing that ETag names.
  */
  lemma EtagAfterSnapshots(db: DB, b: seq<Sys>, n: nat, i: nat)
    requires Behaviour(db, b) && n < |b| && i < |b[n].log| && b[n].log[i].write.PutEtag?
    ensures var e := b[n].log[i];
            && e.task < |b[n].tasks|
            && var o := b[n].tasks[e.task].origin;
               && o.FromPoll? && o.repo.client.GitHub?
               && e.write == PutEtag(o.repo.id, o.forge.etag)
               && Snapshots(o.forge, o.known, o.forge.listing).Some?
               && By(b[n].log[..i], e.task) == RunsWrites(o.repo.id, Snapshots(o.forge, o.known, o.forge.listing).value)
  {
    Always(db, b, n);
    var e := b[n].log[i];
    var task := b[n].tasks[e.task];
    ByPrefix(b[n].log, e.task, i);
    assert Follows(b[n].log, e.task, task);
    hide Replays;
    hide Exec;
    var k := |By(b[n].log[..i], e.task)|;
    assert By(b[n].log, e.task)[..k] == By(b[n].log[..i], e.task);
    assert By(b[n].log, e.task) == Plan(task.origin)[..task.pc];
    assert Plan(task.origin)[k] == e.write;
    assert Plan(task.origin)[..task.pc][..k] == Plan(task.origin)[..k];
    EtagIsLast(task.origin, k);
  }

  /**
  The ETag a repository holds, if a poll ever set it, names an answer whose every listed run,
  and every job that poll fetched, had been stored before: so a 304 never stands in for a
  listing nobody stored.
  */
  lemma StoredEtagIsEarned(db: DB, b: seq<Sys>, n: nat, repo: string)
    requires Behaviour(db, b) && n < |b| && repo in db.repos
    requires repo in b[n].db.repos && b[n].db.repos[repo].etag != db.repos[repo].etag
    ensures var log := Writes(b[n].log);
            && Happened(log, EtagPut(repo))
            && var i := Last(log, EtagPut(repo));
               && i < |b[n].log| && b[n].log[i].task < |b[n].tasks|
               && var o := b[n].tasks[b[n].log[i].task].origin;
                  && o.FromPoll? && o.repo.id == repo && o.forge.etag == b[n].db.repos[repo].etag
                  && (forall r :: r in o.forge.listing ==>
                        && PutRun(RunKey(repo, r.id), RunOf(r)) in log[..i]
                        && (UpToDate(o.known, r) ||
                            (r.id in o.forge.jobs && forall j :: j in o.forge.jobs[r.id] ==>
                              && PutJob(JobKey(RunKey(repo, r.id), j.id), j.data) in log[..i]
                              && PutSteps(JobKey(RunKey(repo, r.id), j.id), j.steps) in log[..i])))
  {
    Always(db, b, n);
    var log := Writes(b[n].log);
    RepoReplayed(db, log, repo);
    var i := Last(log, EtagPut(repo));
    EtagAfterSnapshots(db, b, n, i);
    var t := b[n].log[i].task;
    var o := b[n].tasks[t].origin;
    var runs := Snapshots(o.forge, o.known, o.forge.listing).value;
    assert Writes(b[n].log[..i]) == log[..i];
    ByMembers(b[n].log[..i], t);
    SnapshotsAt(o.forge, o.known, o.forge.listing);
    hide Exec;
    hide Inv;
    hide Snapshots;
    forall r | r in o.forge.listing
      ensures PutRun(RunKey(repo, r.id), RunOf(r)) in log[..i]
      ensures UpToDate(o.known, r) ||
              (r.id in o.forge.jobs && forall j :: j in o.forge.jobs[r.id] ==>
                && PutJob(JobKey(RunKey(repo, r.id), j.id), j.data) in log[..i]
                && PutSteps(JobKey(RunKey(repo, r.id), j.id), j.steps) in log[..i])
    {
      var k :| 0 <= k < |o.forge.listing| && o.forge.listing[k] == r;
      RunsWritesMembers(repo, runs, runs[k]);
    }
  }

  lemma {:induction false} ByMembers(log: seq<Entry>, t: nat)
    ensures forall w :: w in By(log, t) ==> w in Writes(log)
  {
    if log != [] {
      var init := log[..|log| - 1];
      ByMembers(init, t);
      assert Writes(log) == Writes(init) + [log[|log| - 1].write];
    }
  }

  lemma {:induction false} RunsWritesMembers(repo: string, runs: seq<RunSnapshot>, run: RunSnapshot)
    requires run in runs
    ensures PutRun(RunKey(repo, run.id), run.data) in RunsWrites(repo, runs)
    ensures forall j :: j in run.jobs ==>
      && PutJob(JobKey(RunKey(repo, run.id), j.id), j.data) in RunsWrites(repo, runs)
      && PutSteps(JobKey(RunKey(repo, run.id), j.id), j.steps) in RunsWrites(repo, runs)
  {
    if runs[0] == run {
      JobsWritesMembers(RunKey(repo, run.id), run.jobs);
    } else {
      RunsWritesMembers(repo, runs[1..], run);
    }
  }

  lemma {:induction false} JobsWritesMembers(key: RunKey, jobs: seq<JobSnapshot>)
    ensures forall j :: j in jobs ==>
      PutJob(JobKey(key, j.id), j.data) in JobsWrites(key, jobs)
          && PutSteps(JobKey(key, j.id), j.steps) in JobsWrites(key, jobs)
  {
    if jobs != [] {
      JobsWritesMembers(key, jobs[1..]);
      assert jobs == [jobs[0]] + jobs[1..];
      assert JobWrites(key, jobs[0])[0] in JobsWrites(key, jobs) && JobWrites(key, jobs[0])[1] in JobsWrites(key, jobs);
    }
  }

  /** Under any interleaving, a run's row still reads as its last writes say. */
  lemma RowsUnderInterleaving(db: DB, b: seq<Sys>, n: nat, key: RunKey)
    requires Behaviour(db, b) && n < |b|
    ensures var log := Writes(b[n].log);
            && (key in b[n].db.runs <==> key in db.runs || Happened(log, RunPut(key)))
            && (Happened(log, RunPut(key)) ==> Core(b[n].db.runs[key]) == Core(log[Last(log, RunPut(key))].run))
            && (key in b[n].db.runs ==>
                  forall m ::
                    Get(b[n].db.runs[key], m) ==
                    if Happened(log, MetaPut(key, m)) then Get(log[Last(log, MetaPut(key, m))].run, m)
                    else MetaOf(db, key, m))
  {
    Always(db, b, n);
    RunReplayed(db, Writes(b[n].log), key);
  }

  /** The calls of one task, as log entries. */
  function Calls(t: nat, ws: seq<Write>): seq<Entry> {
    seq(|ws|, i requires 0 <= i < |ws| => Entry(t, ws[i]))
  }

  /** b goes on, up to a state s. */
  ghost predicate GoesOnTo(db: DB, b: seq<Sys>, more: seq<Sys>, s: Sys) {
    Behaviour(db, more) && b <= more && more[|more| - 1] == s
  }

  lemma OneStepOn(db: DB, b: seq<Sys>, more: seq<Sys>, s: Sys, s': Sys)
    requires GoesOnTo(db, b, more, s) && Next(s, s')
    ensures GoesOnTo(db, b, more + [s'], s')
  {
    hide Next;
    var all := more + [s'];
    forall i | 0 <= i < |all| - 1
      ensures Next(all[i], all[i + 1])
    {
      if i < |more| - 1 {
        assert Next(more[i], more[i + 1]);
      }
    }
  }

  /** The state in which a new task has made its first n calls. */
  function AfterCalls(s: Sys, o: Origin, n: nat): Sys
    requires n <= |Plan(o)|
  {
    Sys(Exec(s.db, Plan(o)[..n], []).db, s.tasks + [Task(o, n, true)], s.log + Calls(|s.tasks|, Plan(o)[..n]))
  }

  lemma CallsSnoc(t: nat, ws: seq<Write>, w: Write)
    ensures Calls(t, ws + [w]) == Calls(t, ws) + [Entry(t, w)]
  {
  }

  lemma NextCall(s: Sys, o: Origin, n: nat)
    requires n < |Plan(o)| && Exec(s.db, Plan(o)[..n + 1], []).ok
    ensures Exec(s.db, Plan(o)[..n], []).ok && Write(AfterCalls(s, o, n), |s.tasks|, AfterCalls(s, o, n + 1))
  {
    var plan := Plan(o);
    Backward(s.db, plan[..n + 1]);
    assert plan[..n + 1][..n] == plan[..n] && plan[..n + 1] == plan[..n] + [plan[n]];
    CallsSnoc(|s.tasks|, plan[..n], plan[n]);
    NextState(s, o, n, Exec(s.db, plan[..n], []).db, Exec(s.db, plan[..n + 1], []).db, Calls(|s.tasks|, plan[..n]));
    hide Exec;
    hide Plan;
    hide Apply;
    hide Write;
  }

  lemma NextState(s: Sys, o: Origin, n: nat, db: DB, after: DB, log: seq<Entry>)
    requires n < |Plan(o)| && Apply(db, Plan(o)[n]) == Some(after)
    ensures Write(Sys(db, s.tasks + [Task(o, n, true)], s.log + log), |s.tasks|,
                  Sys(after, s.tasks + [Task(o, n + 1, true)], s.log + (log + [Entry(|s.tasks|, Plan(o)[n])])))
  {
    hide Plan;
    hide Apply;
    var e := Entry(|s.tasks|, Plan(o)[n]);
    assert (s.tasks + [Task(o, n, true)])[|s.tasks| := Task(o, n + 1, true)] == s.tasks + [Task(o, n + 1, true)];
    assert s.log + (log + [e]) == s.log + log + [e];
  }

  lemma {:induction false} TaskGoesOn(db: DB, b: seq<Sys>, s: Sys, o: Origin, n: nat) returns (more: seq<Sys>)
    requires Behaviour(db, b) && b[|b| - 1] == s
    requires n <= |Plan(o)| && Exec(s.db, Plan(o)[..n], []).ok
    ensures GoesOnTo(db, b, more, AfterCalls(s, o, n))
  {
    if n == 0 {
      assert Plan(o)[..0] == [] && s.log + Calls(|s.tasks|, []) == s.log;
      assert Start(s, o, AfterCalls(s, o, 0));
      OneStepOn(db, b, b, s, AfterCalls(s, o, 0));
      more := b + [AfterCalls(s, o, 0)];
    } else {
      NextCall(s, o, n - 1);
      hide Behaviour;
      hide Exec;
      hide Plan;
      hide Write;
      more := TaskGoesOn(db, b, s, o, n - 1);
      var from, to := AfterCalls(s, o, n - 1), AfterCalls(s, o, n);
      assert Next(from, to);
      hide GoesOnTo;
      hide AfterCalls;
      OneStepOn(db, b, more, from, to);
      more := more + [to];
    }
  }

  /** b goes on by one more task with no other about, which stops where p says, in the state p ends in. */
  ghost predicate RunsAlone(db: DB, b: seq<Sys>, o: Origin, p: Progress)
    requires b != []
  {
    exists more, s ::
      && GoesOnTo(db, b, more, s)
      && s.db == p.db && Writes(s.log) == Writes(b[|b| - 1].log) + p.done
      && s.tasks == b[|b| - 1].tasks + [Task(o, |p.done|, p.ok)]
  }

  lemma StoppedTask(db: DB, b: seq<Sys>, o: Origin, p: Progress)
    requires Behaviour(db, b) && p.done <= Plan(o)
    requires Exec(b[|b| - 1].db, p.done, []) == Progress(p.db, p.done, [], true)
    ensures RunsAlone(db, b, o, p)
  {
    var s, n := b[|b| - 1], |p.done|;
    assert Plan(o)[..n] == p.done;
    var more := TaskGoesOn(db, b, s, o, n);
    var t := AfterCalls(s, o, n);
    WritesMore(s.log, |s.tasks|, p.done);
    hide Behaviour;
    hide Exec;
    hide Plan;
    hide Writes;
    if p.ok {
      hide GoesOnTo;
      hide Calls;
    } else {
      var u := Abandoned(t, s, o, n);
      hide AfterCalls;
      OneStepOn(db, b, more, t, u);
      hide GoesOnTo;
      hide Calls;
      assert GoesOnTo(db, b, more + [u], u);
    }
  }

  lemma WritesMore(log: seq<Entry>, t: nat, ws: seq<Write>)
    ensures Writes(log + Calls(t, ws)) == Writes(log) + ws
  {
  }

  lemma Abandoned(t: Sys, s: Sys, o: Origin, n: nat) returns (u: Sys)
    requires t.tasks == s.tasks + [Task(o, n, true)]
    ensures Next(t, u) && u == t.(tasks := s.tasks + [Task(o, n, false)])
  {
    u := t.(tasks := s.tasks + [Task(o, n, false)]);
    assert t.tasks[|s.tasks| := Task(o, n, false)] == u.tasks;
    assert Abandon(t, |s.tasks|, u);
  }

  /** A poll as the reconciler makes it, with nothing else about, is a run of one more task. */
  lemma PollIsATask(db: DB, b: seq<Sys>, repo: Repo, forge: Forge, faults: Faults)
    requires Behaviour(db, b)
    ensures var now := b[|b| - 1].db;
            RunsAlone(db, b, FromPoll(repo, forge, KnownRuns(now, repo.id)), Poll(now, repo, forge, faults))
  {
    var now := b[|b| - 1].db;
    var o := FromPoll(repo, forge, KnownRuns(now, repo.id));
    ExecPrefix(now, Plan(o), Rest(Rest(faults)));
    hide KnownRuns;
    hide Answer;
    hide PollWrites;
    assert [] <= Plan(o);
    assert Exec(now, [], []) == Progress(now, [], [], true);
    hide Exec;
    hide Behaviour;
    StoppedTask(db, b, o, Poll(now, repo, forge, faults));
  }

  /** And so is a delivery. */
  lemma DeliveryIsATask(db: DB, b: seq<Sys>, repo: string, d: Delivery, faults: Faults)
    requires Behaviour(db, b)
    ensures RunsAlone(db, b, FromDelivery(repo, d), Exec(b[|b| - 1].db, DeliveryWrites(repo, d), faults))
  {
    ExecPrefix(b[|b| - 1].db, DeliveryWrites(repo, d), faults);
    StoppedTask(db, b, FromDelivery(repo, d), Exec(b[|b| - 1].db, DeliveryWrites(repo, d), faults));
  }

  /** A poll of one run, its two calls. */
  lemma TwoCalls(repo: string, etag: string, r: ForgeRun, known: map<int, RunState>)
    requires etag != "" && r.id !in known
    ensures Plan(FromPoll(Repo(repo, GitHub, ""), Forge(true, etag, [r], map[r.id := []]), known)) ==
            [PutRun(RunKey(repo, r.id), RunOf(r)), PutEtag(repo, etag)]
  {
    var forge := Forge(true, etag, [r], map[r.id := []]);
    assert Snapshots(forge, known, [r][1..]) == Some([]);
    var run := RunSnapshot(r.id, RunOf(r), []);
    assert Snapshots(forge, known, [r]) == Some([run] + []);
    assert [run] + [] == [run];
    assert RunsWrites(repo, [run][1..]) == [];
    assert JobsWrites(RunKey(repo, r.id), []) == [];
  }

  /** The store names `newer` by its ETag, but holds the row an older answer gave the run. */
  ghost predicate Overwritten(now: DB, repo: string, older: ForgeRun, newer: ForgeRun, etag: string) {
    var key := RunKey(repo, newer.id);
    && repo in now.repos && now.repos[repo].etag == etag
    && key in now.runs && now.runs[key] == Merge(RunOf(newer), RunOf(older))
    && (older.status != newer.status ==>
          !PollTraces.Absorbed(now, repo, Forge(true, etag, [newer], map[newer.id := []])))
  }

  lemma ThreeWrites(db: DB, repo: string, older: ForgeRun, newer: ForgeRun, etag: string)
    returns (db1: DB, db2: DB, db3: DB)
    requires repo in db.repos && RunKey(repo, newer.id) !in db.runs
    ensures Apply(db, PutRun(RunKey(repo, newer.id), RunOf(newer))) == Some(db1)
    ensures Apply(db1, PutEtag(repo, etag)) == Some(db2)
    ensures Apply(db2, PutRun(RunKey(repo, newer.id), RunOf(older))) == Some(db3)
    ensures Overwritten(db3, repo, older, newer, etag)
  {
    db1 := Apply(db, PutRun(RunKey(repo, newer.id), RunOf(newer))).value;
    db2 := Apply(db1, PutEtag(repo, etag)).value;
    db3 := Apply(db2, PutRun(RunKey(repo, newer.id), RunOf(older))).value;
    assert newer in [newer];
    assert db3.runs[RunKey(repo, newer.id)].status == older.status;
  }

  /**
  An earned ETag does not mean that its answer is still what is stored: a poll that asked the forge
  earlier, and is slower, writes its older row over the newer one.
  */
  lemma OlderPollOverwrites(
    db: DB, repo: string, older: ForgeRun, newer: ForgeRun, oldEtag: string, newEtag: string) returns (b: seq<Sys>)
    requires repo in db.repos && older.id == newer.id && RunKey(repo, newer.id) !in db.runs
    requires oldEtag != "" && newEtag != ""
    ensures Behaviour(db, b) && Overwritten(b[|b| - 1].db, repo, older, newer, newEtag)
  {
    var slow := FromPoll(Repo(repo, GitHub, ""), Forge(true, oldEtag, [older], map[older.id := []]), map[]);
    var quick := FromPoll(Repo(repo, GitHub, ""), Forge(true, newEtag, [newer], map[newer.id := []]), map[]);
    TwoCalls(repo, oldEtag, older, map[]);
    TwoCalls(repo, newEtag, newer, map[]);
    var db1, db2, db3 := ThreeWrites(db, repo, older, newer, newEtag);
    hide *;
    var e0, e1, e2 := Entry(1, Plan(quick)[0]), Entry(1, Plan(quick)[1]), Entry(0, Plan(slow)[0]);
    var s0 := Sys(db, [], []);
    var s1 := Sys(db, [Task(slow, 0, true)], []);
    var s2 := Sys(db, [Task(slow, 0, true), Task(quick, 0, true)], []);
    var s3 := Sys(db1, [Task(slow, 0, true), Task(quick, 1, true)], [e0]);
    var s4 := Sys(db2, [Task(slow, 0, true), Task(quick, 2, true)], [e0, e1]);
    var s5 := Sys(db3, [Task(slow, 1, true), Task(quick, 2, true)], [e0, e1, e2]);
    FirstThree(s0, s1, s2, slow, quick);
    LastThree(s2, s3, s4, s5, slow, quick);
    SixStates(db, s0, s1, s2, s3, s4, s5);
    b := [s0, s1, s2, s3, s4, s5];
  }

  lemma SixStates(db: DB, s0: Sys, s1: Sys, s2: Sys, s3: Sys, s4: Sys, s5: Sys)
    requires s0 == Sys(db, [], [])
    requires Next(s0, s1) && Next(s1, s2) && Next(s2, s3) && Next(s3, s4) && Next(s4, s5)
    ensures Behaviour(db, [s0, s1, s2, s3, s4, s5])
  {
    hide Next;
  }

  lemma FirstThree(s0: Sys, s1: Sys, s2: Sys, slow: Origin, quick: Origin)
    requires s1 == s0.(tasks := s0.tasks + [Task(slow, 0, true)])
    requires s2 == s1.(tasks := s1.tasks + [Task(quick, 0, true)])
    ensures Next(s0, s1) && Next(s1, s2)
  {
    assert Start(s0, slow, s1) && Start(s1, quick, s2);
  }

  lemma LastThree(s2: Sys, s3: Sys, s4: Sys, s5: Sys, slow: Origin, quick: Origin)
    requires |Plan(slow)| == 2 && |Plan(quick)| == 2
    requires s2.tasks == [Task(slow, 0, true), Task(quick, 0, true)]
        && s3.tasks == [Task(slow, 0, true), Task(quick, 1, true)]
    requires s4.tasks == [Task(slow, 0, true), Task(quick, 2, true)]
        && s5.tasks == [Task(slow, 1, true), Task(quick, 2, true)]
    requires s3.log == s2.log + [Entry(1, Plan(quick)[0])] && Apply(s2.db, Plan(quick)[0]) == Some(s3.db)
    requires s4.log == s3.log + [Entry(1, Plan(quick)[1])] && Apply(s3.db, Plan(quick)[1]) == Some(s4.db)
    requires s5.log == s4.log + [Entry(0, Plan(slow)[0])] && Apply(s4.db, Plan(slow)[0]) == Some(s5.db)
    ensures Next(s2, s3) && Next(s3, s4) && Next(s4, s5)
  {
    hide Plan;
    hide Apply;
    assert Write(s2, 1, s3);
    assert Write(s3, 1, s4);
    assert Write(s4, 0, s5);
  }
}
