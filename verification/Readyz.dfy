/**
The readiness endpoint: one probe per ttl behind a lock, its verdict shared, and a draining flag that
is read before the lock is taken. Times are nanoseconds of a clock that never goes back.
*/
module Readyz {
  import opened Common

  const DEFAULT_TTL: int := 3_000_000_000

  function EffectiveTtl(ttl: int): (t: int)
    ensures t > 0
  {
    if ttl <= 0 then DEFAULT_TTL else ttl
  }

  /** The last verdict and when its probe was done. */
  datatype Cache = Cache(checkedAt: Option<int>, failed: bool)

  predicate Fresh(cache: Cache, ttl: int, now: int) {
    cache.checkedAt.Some? && now - cache.checkedAt.value < ttl
  }

  /** What one request finds: when it starts a probe, what the probe says and when it is done. */
  datatype Check = Check(start: int, failed: bool, end: int)

  // ---------------------------------------------------------------------------------------------
  // One request at a time
  // ---------------------------------------------------------------------------------------------

  class Handler {
    const ttl: int
    const probes: bool
    var checkedAt: Option<int>
    var lastFailed: bool

    constructor (ttl: int, probes: bool)
      ensures this.ttl == EffectiveTtl(ttl) && this.ttl == (if ttl <= 0 then 3_000_000_000 else ttl)
      ensures this.probes == probes && checkedAt == None && !lastFailed
    {
      this.ttl := EffectiveTtl(ttl);
      this.probes := probes;
      checkedAt := None;
      lastFailed := false;
    }

    function Cached(): Cache
      reads this
    {
      Cache(checkedAt, lastFailed)
    }

    /** Runs the probe unless its last verdict is still fresh. */
    method Probe(check: Check) returns (failed: bool)
      modifies this
      ensures var young := old(checkedAt).Some? && check.start - old(checkedAt).value < ttl;
              && failed == lastFailed
              && lastFailed == (if young then old(lastFailed) else check.failed)
              && checkedAt == (if young then old(checkedAt) else Some(check.end))
    {
      if checkedAt.Some? && check.start - checkedAt.value < ttl {
        return lastFailed;
      }
      lastFailed := check.failed;
      checkedAt := Some(check.end);
      return lastFailed;
    }

    /** Whether the answer is 200. */
    method Serve(draining: bool, check: Check) returns (ok: bool)
      modifies this
      ensures (ok, Cached()) == Served(old(Cached()), ttl, probes, draining, check)
      ensures draining ==> !ok
      ensures !draining && !probes ==> ok
      ensures var young := old(checkedAt).Some? && check.start - old(checkedAt).value < ttl;
              && (!draining && probes ==> ok != if young then old(lastFailed) else check.failed)
              && (draining || !probes || young ==> checkedAt == old(checkedAt) && lastFailed == old(lastFailed))
              && (!draining && probes && !young ==> checkedAt == Some(check.end) && lastFailed == check.failed)
    {
      if draining {
        return false;
      }
      if probes {
        var failed := Probe(check);
        return !failed;
      }
      return true;
    }
  }

  function Served(cache: Cache, ttl: int, probes: bool, draining: bool, check: Check): (bool, Cache) {
    if draining then (false, cache)
    else if !probes then (true, cache)
    else if Fresh(cache, ttl, check.start) then (!cache.failed, cache)
    else (!check.failed, Cache(Some(check.end), check.failed))
  }

  // ---------------------------------------------------------------------------------------------
  // Requests side by side
  // ---------------------------------------------------------------------------------------------

  /** What an answer rests on. */
  datatype Basis = Drained | Unprobed | Shared(doneAt: int) | Own(doneAt: int)

  /** An answer, and when it was decided; a 200 is `ok`, a 503 is not. */
  datatype Answer = Answer(request: nat, at: int, ok: bool, basis: Basis)

  datatype Start = Start(request: nat, at: int)

  /** One probe that is over. */
  datatype Verdict = Verdict(at: int, failed: bool)

  /**
  `waiting` are the requests that saw the flag down and have neither started a probe nor looked up a
  fresh verdict; `holder` is the one whose probe runs, under the lock; `leaving` are those whose answer
  is decided, the lock behind them, but not yet written. The rest is history: `late` are the requests
  that saw the flag up, `answers` what has been written.
  */
  datatype System = System(
    now: int, draining: bool, cache: Cache, waiting: set<nat>, holder: Option<nat>, leaving: map<nat, Answer>,
    late: set<nat>, starts: seq<Start>, verdicts: seq<Verdict>, answers: seq<Answer>)

  ghost predicate Init(s: System) {
    && s.cache == Cache(None, false) && !s.draining
    && s.waiting == {} && s.late == {} && s.holder.None? && s.leaving == map[]
    && s.starts == [] && s.verdicts == [] && s.answers == []
  }

  datatype Step =
    | Tick(now: int)
    | Drain
    | Arrive(request: nat)
    | Enter(request: nat)
    | Finish(failed: bool)
    | Reply(request: nat)

  predicate Known(s: System, request: nat) {
    || request in s.waiting || s.holder == Some(request) || request in s.leaving || request in s.late
    || exists a :: a in s.answers && a.request == request
  }

  predicate Enabled(s: System, step: Step) {
    match step
    case Tick(now) => s.now <= now
    case Drain => true
    case Arrive(request) => !Known(s, request)
    case Enter(request) => request in s.waiting && s.holder.None?
    case Finish(_) => s.holder.Some?
    case Reply(request) => request in s.leaving
  }

  /** A request's answer is decided. */
  function Decide(s: System, request: nat, ok: bool, basis: Basis): System {
    s.(leaving := s.leaving[request := Answer(request, s.now, ok, basis)])
  }

  function Take(s: System, ttl: int, probes: bool, step: Step): System
    requires Enabled(s, step)
  {
    match step
    case Tick(now) => s.(now := now)
    case Drain => s.(draining := true)
    case Arrive(request) =>
      if s.draining then Decide(s.(late := s.late + {request}), request, false, Drained)
      else if !probes then Decide(s, request, true, Unprobed)
      else s.(waiting := s.waiting + {request})
    case Enter(request) =>
      var entered := s.(waiting := s.waiting - {request});
      if Fresh(s.cache, ttl, s.now) then
        Decide(entered, request, !s.cache.failed, Shared(s.cache.checkedAt.value))
      else
        entered.(holder := Some(request), starts := s.starts + [Start(request, s.now)])
    case Finish(failed) =>
      var released := s.(cache := Cache(Some(s.now), failed), holder := None,
                         verdicts := s.verdicts + [Verdict(s.now, failed)]);
      Decide(released, s.holder.value, !failed, Own(s.now))
    case Reply(request) =>
      s.(leaving := s.leaving - {request}, answers := s.answers + [s.leaving[request]])
  }

  /** Any steps on from the first of the states. */
  ghost predicate GoesOn(states: seq<System>, ttl: int, probes: bool, steps: seq<Step>) {
    && |states| == |steps| + 1
    && forall i :: 0 <= i < |steps| ==>
         Enabled(states[i], steps[i]) && states[i + 1] == Take(states[i], ttl, probes, steps[i])
  }

  ghost predicate Runs(states: seq<System>, ttl: int, probes: bool, steps: seq<Step>) {
    GoesOn(states, ttl, probes, steps) && Init(states[0])
  }

  // ---------------------------------------------------------------------------------------------
  // What always holds
  // ---------------------------------------------------------------------------------------------

  /** Each probe starts a ttl or more after the one before it. */
  ghost predicate Spaced(starts: seq<Start>, ttl: int) {
    forall i, j :: 0 <= i < j < |starts| ==> starts[i].at + ttl <= starts[j].at
  }

  /** The last start is behind the cached verdict, or its probe still runs. */
  ghost predicate Timed(s: System) {
    && (forall x :: x in s.starts ==> x.at <= s.now)
    && (s.cache.checkedAt.None? ==> (forall x :: x in s.starts ==> s.holder.Some?))
    && (s.cache.checkedAt.Some? ==> s.cache.checkedAt.value <= s.now)
    && (s.holder.None? && s.cache.checkedAt.Some? ==>
          forall x :: x in s.starts ==> x.at <= s.cache.checkedAt.value)
    && (s.holder.Some? ==> s.starts != [])
  }

  /** The cache holds the last verdict given. */
  ghost predicate Recorded(s: System) {
    && (s.verdicts == [] ==> s.cache.checkedAt.None?)
    && (s.verdicts != [] ==>
          var v := s.verdicts[|s.verdicts| - 1];
          s.cache == Cache(Some(v.at), v.failed))
  }

  /** An answer agrees with a verdict that was less than a ttl old when it was given. */
  ghost predicate Justified(a: Answer, verdicts: seq<Verdict>, ttl: int, late: set<nat>) {
    match a.basis
    case Drained => !a.ok && a.request in late
    case Unprobed => a.ok && a.request !in late
    case Shared(done) =>
      && a.request !in late && a.at - done < ttl && done <= a.at && Verdict(done, !a.ok) in verdicts
    case Own(done) => a.request !in late && done == a.at && Verdict(done, !a.ok) in verdicts
  }

  /** No request that saw the flag up waits for a probe, or ever started one. */
  ghost predicate LateStayOut(s: System) {
    && (s.late != {} ==> s.draining)
    && s.waiting !! s.late && (s.holder.Some? ==> s.holder.value !in s.late)
    && (forall x :: x in s.starts ==> x.request !in s.late && Known(s, x.request))
  }

  /** Each answer about to be written is its request's own. */
  ghost predicate Addressed(s: System) {
    forall r :: r in s.leaving ==> s.leaving[r].request == r
  }

  /** Every answer written or about to be is justified. */
  ghost predicate AllJustified(s: System, ttl: int) {
    && (forall a :: a in s.answers ==> Justified(a, s.verdicts, ttl, s.late))
    && (forall r :: r in s.leaving ==> Justified(s.leaving[r], s.verdicts, ttl, s.late))
  }

  ghost predicate Inv(s: System, ttl: int) {
    && Spaced(s.starts, ttl) && Timed(s) && Recorded(s) && LateStayOut(s) && Addressed(s) && AllJustified(s, ttl)
  }

  lemma StartsKept(s: System, ttl: int, probes: bool, step: Step)
    requires ttl > 0 && Enabled(s, step) && Spaced(s.starts, ttl) && Timed(s)
    ensures var t := Take(s, ttl, probes, step); Spaced(t.starts, ttl) && Timed(t)
  {
    if step.Enter? {
      if !Fresh(s.cache, ttl, s.now) {
        LateEnough(s, ttl);
        OneMoreStart(s.starts, ttl, Start(step.request, s.now));
      }
      hide Spaced;
    } else {
      assert Take(s, ttl, probes, step).starts == s.starts;
      hide Spaced;
      hide Fresh;
    }
  }

  lemma LateEnough(s: System, ttl: int)
    requires Timed(s) && s.holder.None? && !Fresh(s.cache, ttl, s.now)
    ensures forall x :: x in s.starts ==> x.at + ttl <= s.now
  {
  }

  lemma OneMoreStart(starts: seq<Start>, ttl: int, last: Start)
    requires Spaced(starts, ttl) && forall x :: x in starts ==> x.at + ttl <= last.at
    ensures Spaced(starts + [last], ttl)
  {
  }

  /** An answer once justified stays so: requests that come late are not the ones already answered. */
  lemma StaysJustified(s: System, ttl: int, probes: bool, step: Step, a: Answer)
    requires Enabled(s, step) && Known(s, a.request) && Justified(a, s.verdicts, ttl, s.late)
    ensures var t := Take(s, ttl, probes, step); Justified(a, t.verdicts, ttl, t.late)
  {
    var t := Take(s, ttl, probes, step);
    assert a.request in t.late ==> a.request in s.late;
    hide Fresh;
  }

  /** What a step decides is justified. */
  lemma DecidedJustified(s: System, ttl: int, probes: bool, step: Step, r: nat)
    requires ttl > 0 && Enabled(s, step) && Timed(s) && Recorded(s) && LateStayOut(s)
    ensures var t := Take(s, ttl, probes, step);
            && Recorded(t)
            && (r in t.leaving ==>
                  || (r in s.leaving && t.leaving[r] == s.leaving[r])
                  || Justified(t.leaving[r], t.verdicts, ttl, t.late))
  {
    hide Known;
  }

  lemma AnswersGrow(s: System, ttl: int, probes: bool, step: Step)
    requires Enabled(s, step)
    ensures var t := Take(s, ttl, probes, step);
            forall a :: a in t.answers ==> a in s.answers || (step.Reply? && a == s.leaving[step.request])
  {
    hide Known;
    hide Fresh;
  }

  lemma VerdictsKept(s: System, ttl: int, probes: bool, step: Step)
    requires ttl > 0 && Enabled(s, step) && Timed(s) && Recorded(s) && LateStayOut(s)
    requires Addressed(s) && AllJustified(s, ttl)
    ensures var t := Take(s, ttl, probes, step); Recorded(t) && AllJustified(t, ttl)
  {
    var t := Take(s, ttl, probes, step);
    forall r | r in s.leaving
      ensures Justified(s.leaving[r], t.verdicts, ttl, t.late)
    {
      assert Known(s, r);
      StaysJustified(s, ttl, probes, step, s.leaving[r]);
    }
    forall a | a in s.answers
      ensures Justified(a, t.verdicts, ttl, t.late)
    {
      assert Known(s, a.request);
      StaysJustified(s, ttl, probes, step, a);
    }
    AnswersGrow(s, ttl, probes, step);
    forall r {
      DecidedJustified(s, ttl, probes, step, r);
    }
    DecidedJustified(s, ttl, probes, step, 0);
    hide Take;
    hide Justified;
    hide Timed;
    hide Recorded;
    hide LateStayOut;
  }

  lemma LateKept(s: System, ttl: int, probes: bool, step: Step)
    requires Enabled(s, step) && LateStayOut(s) && Addressed(s)
    ensures LateStayOut(Take(s, ttl, probes, step)) && Addressed(Take(s, ttl, probes, step))
  {
    var t := Take(s, ttl, probes, step);
    hide Fresh;
    forall x | x in t.starts
      ensures x.request !in t.late && Known(t, x.request)
    {
      if x in s.starts {
        KnownKept(s, ttl, probes, step, x.request);
      }
    }
  }

  lemma KnownKept(s: System, ttl: int, probes: bool, step: Step, request: nat)
    requires Enabled(s, step) && Known(s, request) && Addressed(s)
    ensures Known(Take(s, ttl, probes, step), request)
  {
    hide Fresh;
    var t := Take(s, ttl, probes, step);
    if a :| a in s.answers && a.request == request {
      assert a in t.answers;
    } else if step == Reply(request) {
      assert t.answers[|s.answers|] == s.leaving[request] && t.answers[|s.answers|] in t.answers;
    }
  }

  /** Every step keeps it all. */
  lemma InvKept(s: System, ttl: int, probes: bool, step: Step)
    requires ttl > 0 && Enabled(s, step) && Inv(s, ttl)
    ensures Inv(Take(s, ttl, probes, step), ttl)
  {
    StartsKept(s, ttl, probes, step);
    VerdictsKept(s, ttl, probes, step);
    LateKept(s, ttl, probes, step);
    hide Take;
    hide Spaced;
    hide Timed;
    hide Recorded;
    hide LateStayOut;
    hide Justified;
    hide Addressed;
    hide AllJustified;
  }

  lemma {:induction false} Always(states: seq<System>, ttl: int, probes: bool, steps: seq<Step>, i: nat)
    requires ttl > 0 && Runs(states, ttl, probes, steps) && i < |states|
    ensures Inv(states[i], ttl)
  {
    if i > 0 {
      Always(states, ttl, probes, steps, i - 1);
      hide Inv;
      hide Take;
      InvKept(states[i - 1], ttl, probes, steps[i - 1]);
    }
  }

  // ---------------------------------------------------------------------------------------------
  // The promises
  // ---------------------------------------------------------------------------------------------

  /** How many probes start within [from, to]. */
  function Started(starts: seq<Start>, from: int, to: int): nat {
    if starts == [] then 0
    else
      (if from <= starts[|starts| - 1].at <= to then 1 else 0) + Started(starts[..|starts| - 1], from, to)
  }

  lemma {:induction false} StartedEarlier(starts: seq<Start>, from: int, to: int, bound: int)
    requires bound <= to && forall x :: x in starts ==> x.at <= bound
    ensures Started(starts, from, to) == Started(starts, from, bound)
    ensures bound < from ==> Started(starts, from, to) == 0
  {
    if starts != [] {
      StartedEarlier(starts[..|starts| - 1], from, to, bound);
    }
  }

  /** n starts, a ttl or more apart, fit in a span. */
  predicate Fits(n: nat, ttl: int, span: int) {
    n > 0 ==> (n - 1) * ttl <= span
  }

  lemma OneMoreFits(n: nat, ttl: int, span: int)
    requires n > 0 && Fits(n, ttl, span - ttl)
    ensures Fits(n + 1, ttl, span)
  {
    assert n * ttl == (n - 1) * ttl + ttl;
  }

  lemma {:induction false} SpacedStarts(starts: seq<Start>, ttl: int, from: int, to: int)
    requires ttl > 0 && Spaced(starts, ttl) && from <= to
    ensures Fits(Started(starts, from, to), ttl, to - from)
  {
    if starts != [] {
      var rest, last := starts[..|starts| - 1], starts[|starts| - 1].at;
      if from <= last <= to {
        var bound := last - ttl;
        StartedEarlier(rest, from, to, bound);
        if from <= bound && Started(rest, from, bound) > 0 {
          SpacedStarts(rest, ttl, from, bound);
          OneMoreFits(Started(rest, from, bound), ttl, last - from);
          Widen(Started(starts, from, to), ttl, last - from, to - from);
          hide Fits;
        }
      } else {
        SpacedStarts(rest, ttl, from, to);
        hide Fits;
      }
    }
  }

  lemma Widen(n: nat, ttl: int, narrow: int, wide: int)
    requires narrow <= wide
    ensures Fits(n, ttl, narrow) ==> Fits(n, ttl, wide)
  {
  }

  lemma Times(a: int, b: int, ttl: int)
    requires ttl > 0
    ensures a <= b ==> a * ttl <= b * ttl
  {
  }

  lemma FitsAtMost(n: nat, ttl: int, span: nat)
    requires ttl > 0 && Fits(n, ttl, span)
    ensures n <= span / ttl + 1
  {
    var q := span / ttl;
    Times(q + 1, n - 1, ttl);
    assert (q + 1) * ttl == q * ttl + ttl;
    assert span == q * ttl + span % ttl;
  }

  /** In any span of time, whatever the requests do, at most one probe starts per ttl, and one more. */
  lemma ProbeRate(states: seq<System>, ttl: int, probes: bool, steps: seq<Step>, i: nat, from: int, span: nat)
    requires ttl > 0 && Runs(states, ttl, probes, steps) && i < |states|
    ensures Started(states[i].starts, from, from + span) <= span / ttl + 1
  {
    Always(states, ttl, probes, steps, i);
    hide Runs;
    SpacedStarts(states[i].starts, ttl, from, from + span);
    FitsAtMost(Started(states[i].starts, from, from + span), ttl, span);
  }

  /**
  Every answer given: 503 to a request that saw the flag up, which starts no probe; otherwise the
  verdict of a finished probe, younger than ttl when looked up.
  */
  lemma AnswersAreJustified(states: seq<System>, ttl: int, probes: bool, steps: seq<Step>, i: nat, a: Answer)
    requires ttl > 0 && Runs(states, ttl, probes, steps) && i < |states| && a in states[i].answers
    ensures Justified(a, states[i].verdicts, ttl, states[i].late)
    ensures a.request in states[i].late ==>
              !a.ok && forall x :: x in states[i].starts ==> x.request != a.request
  {
    Always(states, ttl, probes, steps, i);
    hide Runs;
  }

  lemma {:induction false} LastingFacts(states: seq<System>, ttl: int, probes: bool, steps: seq<Step>, i: nat, j: nat)
    requires Runs(states, ttl, probes, steps) && i <= j < |states|
    ensures states[i].draining ==> states[j].draining
    ensures states[i].late <= states[j].late
  {
    if i < j {
      LastingFacts(states, ttl, probes, steps, i, j - 1);
      hide Fresh;
      assert states[j] == Take(states[j - 1], ttl, probes, steps[j - 1]);
    }
  }

  /** A request is for an answer: it is about to be written, or has been. */
  ghost predicate IsFor(s: System, r: nat, a: Answer) {
    (r in s.leaving && s.leaving[r] == a) || a in s.answers
  }

  lemma DecisionStands(s: System, ttl: int, probes: bool, step: Step, r: nat, a: Answer)
    requires Enabled(s, step) && LateStayOut(s) && r in s.late && IsFor(s, r, a)
    ensures IsFor(Take(s, ttl, probes, step), r, a)
  {
    hide Fresh;
    assert Known(s, r);
    if step == Reply(r) {
      var t := Take(s, ttl, probes, step);
      assert t.answers[|s.answers|] == s.leaving[r];
    }
  }

  lemma StepTaken(states: seq<System>, ttl: int, probes: bool, steps: seq<Step>, k: nat)
    requires ttl > 0 && Runs(states, ttl, probes, steps) && k + 1 < |states|
    ensures k < |steps| && Enabled(states[k], steps[k])
    ensures states[k + 1] == Take(states[k], ttl, probes, steps[k])
    ensures LateStayOut(states[k])
  {
    Always(states, ttl, probes, steps, k);
    hide Enabled;
    hide Take;
  }

  /** A late request's answer, once decided, stands. */
  lemma {:induction false} LateDecided(
    states: seq<System>, ttl: int, probes: bool, steps: seq<Step>, j: nat, k: nat, r: nat, a: Answer)
    requires ttl > 0 && Runs(states, ttl, probes, steps) && j <= k < |states|
    requires r in states[j].late && IsFor(states[j], r, a)
    ensures IsFor(states[k], r, a)
  {
    hide *;
    if j < k {
      LateDecided(states, ttl, probes, steps, j, k - 1, r, a);
      LastingFacts(states, ttl, probes, steps, j, k - 1);
      StepTaken(states, ttl, probes, steps, k - 1);
      DecisionStands(states[k - 1], ttl, probes, steps[k - 1], r, a);
    }
  }

  /**
  Once the flag is up, every request that comes is for a 503 at once: that is what it is answered, as
  soon as it is answered at all, and it never starts a probe, however the run goes on.
  */
  lemma DrainedAnswers(states: seq<System>, ttl: int, probes: bool, steps: seq<Step>, i: nat, j: nat, k: nat)
    requires ttl > 0 && Runs(states, ttl, probes, steps) && i <= j < k < |states|
    requires states[i].draining && steps[j].Arrive?
    ensures IsFor(states[k], steps[j].request, Answer(steps[j].request, states[j].now, false, Drained))
    ensures forall a :: a in states[k].answers && a.request == steps[j].request ==> !a.ok
    ensures forall x :: x in states[k].starts ==> x.request != steps[j].request
  {
    LastingFacts(states, ttl, probes, steps, i, j);
    assert states[j + 1] == Take(states[j], ttl, probes, steps[j]);
    LastingFacts(states, ttl, probes, steps, j + 1, k);
    var a := Answer(steps[j].request, states[j].now, false, Drained);
    assert steps[j].request in states[j + 1].late && IsFor(states[j + 1], steps[j].request, a);
    LateDecided(states, ttl, probes, steps, j + 1, k, steps[j].request, a);
    assert steps[j].request in states[k].late;
    Always(states, ttl, probes, steps, k);
    hide Runs;
    hide Take;
    assert forall a :: a in states[k].answers ==> Justified(a, states[k].verdicts, ttl, states[k].late);
  }

  /** Nothing is left of the time before the flag went up: no request waits, holds the lock or leaves with a 200. */
  predicate Settled(s: System) {
    s.waiting == {} && s.holder.None? && forall r :: r in s.leaving ==> !s.leaving[r].ok
  }

  /** No probe has started between two states. */
  predicate NoNewProbe(from: System, to: System) {
    to.starts == from.starts
  }

  /** Every answer given between two states was 503. */
  ghost predicate AllRefused(from: System, to: System) {
    && |from.answers| <= |to.answers|
    && forall i :: |from.answers| <= i < |to.answers| ==> !to.answers[i].ok
  }

  lemma {:induction false} NoneWaits(states: seq<System>, ttl: int, probes: bool, steps: seq<Step>, k: nat)
    requires GoesOn(states, ttl, probes, steps) && k < |states| && states[0].draining && states[0].waiting == {}
    ensures states[k].draining && states[k].waiting == {} && NoNewProbe(states[0], states[k])
    ensures Settled(states[0]) ==> Settled(states[k]) && AllRefused(states[0], states[k])
  {
    if k > 0 {
      NoneWaits(states, ttl, probes, steps, k - 1);
      assert states[k] == Take(states[k - 1], ttl, probes, steps[k - 1]);
      hide Known;
    }
  }

  /** A waiting request can have the lock, start a probe once the last verdict is stale, and be answered 200. */
  lemma WaiterProbes(s: System, ttl: int, probes: bool, request: nat) returns (states: seq<System>, steps: seq<Step>)
    requires ttl > 0 && s.holder.None? && request in s.waiting
    ensures GoesOn(states, ttl, probes, steps) && states[0] == s
    ensures !NoNewProbe(s, states[|steps|]) && !AllRefused(s, states[|steps|])
  {
    var stale := if s.cache.checkedAt.None? || s.cache.checkedAt.value + ttl < s.now then s.now
                 else s.cache.checkedAt.value + ttl;
    var late := Take(s, ttl, probes, Tick(stale));
    var probing := Take(late, ttl, probes, Enter(request));
    var done := Take(probing, ttl, probes, Finish(false));
    var written := Take(done, ttl, probes, Reply(request));
    steps := [Tick(stale), Enter(request), Finish(false), Reply(request)];
    states := [s, late, probing, done, written];
    hide Known;
    assert !Fresh(late.cache, ttl, late.now);
    assert written.answers == s.answers + [Answer(request, stale, true, Own(stale))];
    assert written.answers[|s.answers|].ok;
    assert written.starts == s.starts + [Start(request, stale)];
    assert |written.starts| == |s.starts| + 1;
  }

  lemma Joined(a: seq<System>, ttl: int, probes: bool, x: seq<Step>, b: seq<System>, y: seq<Step>)
    requires GoesOn(a, ttl, probes, x) && GoesOn(b, ttl, probes, y) && a[|x|] == b[0]
    ensures GoesOn(a + b[1..], ttl, probes, x + y)
    ensures (a + b[1..])[0] == a[0] && (a + b[1..])[|x + y|] == b[|y|]
  {
    hide Enabled;
    hide Take;
    var c, z := a + b[1..], x + y;
    assert forall i :: |x| <= i < |c| ==> c[i] == b[i - |x|];
    forall i | 0 <= i < |z|
      ensures Enabled(c[i], z[i]) && c[i + 1] == Take(c[i], ttl, probes, z[i])
    {
      if i < |x| {
        assert Enabled(a[i], x[i]);
      } else {
        assert Enabled(b[i - |x|], y[i - |x|]);
      }
    }
  }

  /** The one that holds the lock can be done, and answer 200. */
  lemma HolderAnswers(s: System, ttl: int, probes: bool) returns (states: seq<System>, steps: seq<Step>)
    requires s.holder.Some?
    ensures GoesOn(states, ttl, probes, steps) && states[0] == s && |steps| == 2
    ensures !AllRefused(s, states[2]) && states[2].holder.None?
    ensures states[2].waiting == s.waiting && states[2].starts == s.starts
  {
    var freed := Take(s, ttl, probes, Finish(false));
    var written := Take(freed, ttl, probes, Reply(s.holder.value));
    states, steps := [s, freed, written], [Finish(false), Reply(s.holder.value)];
    hide Known;
    assert written.answers[|s.answers|].ok;
  }

  /** Whatever of the time before the flag is left can still answer 200. */
  lemma Unsettled(s: System, ttl: int, probes: bool) returns (states: seq<System>, steps: seq<Step>)
    requires ttl > 0 && !Settled(s)
    ensures GoesOn(states, ttl, probes, steps) && states[0] == s && !AllRefused(s, states[|steps|])
  {
    if s.holder.Some? {
      states, steps := HolderAnswers(s, ttl, probes);
    } else if s.waiting != {} {
      var request :| request in s.waiting;
      states, steps := WaiterProbes(s, ttl, probes, request);
    } else {
      var request :| request in s.leaving && s.leaving[request].ok;
      var written := Take(s, ttl, probes, Reply(request));
      states, steps := [s, written], [Reply(request)];
      hide Known;
      assert written.answers[|s.answers|].ok;
    }
  }

  /** And a request that waits can start a probe. */
  lemma WaitersLeft(s: System, ttl: int, probes: bool) returns (states: seq<System>, steps: seq<Step>)
    requires ttl > 0 && s.waiting != {}
    ensures GoesOn(states, ttl, probes, steps) && states[0] == s && !NoNewProbe(s, states[|steps|])
  {
    var request :| request in s.waiting;
    if s.holder.None? {
      states, steps := WaiterProbes(s, ttl, probes, request);
    } else {
      var a, x := HolderAnswers(s, ttl, probes);
      var b, y := WaiterProbes(a[2], ttl, probes, request);
      Joined(a, ttl, probes, x, b, y);
      states, steps := a + b[1..], x + y;
    }
  }

  /**
  Exactly when a drain has taken hold. From a state with the flag up, every answer from then on is
  503, however things go on, if and only if no request is left from before the flag: none waits for
  the lock, none holds it, and none is past it, or past the flag without a probe to wait for, with a
  200 yet to write. No probe starts any more if and only if none waits.
  */
  lemma DrainTakesHold(s: System, ttl: int, probes: bool)
    requires ttl > 0 && s.draining
    ensures Settled(s) <==>
            forall states, steps :: GoesOn(states, ttl, probes, steps) && states[0] == s ==>
                AllRefused(s, states[|steps|])
    ensures s.waiting == {} <==>
            forall states, steps :: GoesOn(states, ttl, probes, steps) && states[0] == s ==>
                NoNewProbe(s, states[|steps|])
  {
    forall states, steps | GoesOn(states, ttl, probes, steps) && states[0] == s
      ensures s.waiting == {} ==> NoNewProbe(s, states[|steps|])
      ensures Settled(s) ==> AllRefused(s, states[|steps|])
    {
      if s.waiting == {} {
        NoneWaits(states, ttl, probes, steps, |steps|);
      }
    }
    if !Settled(s) {
      var states, steps := Unsettled(s, ttl, probes);
    }
    if s.waiting != {} {
      var states, steps := WaitersLeft(s, ttl, probes);
    }
  }

  /** What goes on from a state of a run is a run, and the rest of a run goes on from each of its states. */
  lemma RunsGoOn(
    states: seq<System>, ttl: int, probes: bool, steps: seq<Step>, i: nat, more: seq<System>, further: seq<Step>)
    requires Runs(states, ttl, probes, steps) && i < |states|
    ensures GoesOn(states[i..], ttl, probes, steps[i..])
    ensures GoesOn(more, ttl, probes, further) && more[0] == states[i] ==>
              Runs(states[..i + 1] + more[1..], ttl, probes, steps[..i] + further)
  {
    hide Enabled;
    hide Take;
    assert GoesOn(states[..i + 1], ttl, probes, steps[..i]);
    if GoesOn(more, ttl, probes, further) && more[0] == states[i] {
      Joined(states[..i + 1], ttl, probes, steps[..i], more, further);
    }
  }

  /** There are such states in a run: a request gets past the flag, and the flag goes up. */
  lemma DrainFindsOneWaiting(ttl: int) returns (states: seq<System>, steps: seq<Step>)
    requires ttl > 0
    ensures Runs(states, ttl, true, steps)
    ensures var s := states[|steps|]; s.draining && s.waiting != {}
  {
    var s0 := System(0, false, Cache(None, false), {}, None, map[], {}, [], [], []);
    var s1 := Take(s0, ttl, true, Arrive(0));
    steps := [Arrive(0), Drain];
    states := [s0, s1, Take(s1, ttl, true, Drain)];
    assert s1.waiting == {0};
  }

  /**
  And ones where nobody waits and nobody holds the lock, and yet a 200 is to come, with a probe as
  without one.
  */
  lemma DrainFindsOneLeaving(ttl: int, probes: bool) returns (states: seq<System>, steps: seq<Step>)
    requires ttl > 0
    ensures Runs(states, ttl, probes, steps)
    ensures var s := states[|steps|]; s.draining && s.waiting == {} && s.holder.None? && !Settled(s)
  {
    var s0 := System(0, false, Cache(None, false), {}, None, map[], {}, [], [], []);
    var s1 := Take(s0, ttl, probes, Arrive(0));
    if probes {
      var s2 := Take(s1, ttl, probes, Enter(0));
      var s3 := Take(s2, ttl, probes, Finish(false));
      steps := [Arrive(0), Enter(0), Finish(false), Drain];
      states := [s0, s1, s2, s3, Take(s3, ttl, probes, Drain)];
      assert s1.waiting == {0} && s2.waiting == {} && s3.leaving[0].ok;
    } else {
      steps := [Arrive(0), Drain];
      states := [s0, s1, Take(s1, ttl, probes, Drain)];
      assert s1.leaving[0].ok;
    }
  }

  /** With no other request about, a request is served as the handler serves it. */
  lemma AloneAsServed(s: System, ttl: int, request: nat, check: Check)
    requires !s.draining && s.holder.None? && !Known(s, request)
    requires check.start == s.now <= check.end
    ensures var entered := Take(Take(s, ttl, true, Arrive(request)), ttl, true, Enter(request));
            var served := Served(s.cache, ttl, true, s.draining, check);
            var done := if entered.holder.None? then entered
                        else Take(Take(entered, ttl, true, Tick(check.end)), ttl, true, Finish(check.failed));
            && done.cache == served.1 && request in done.leaving
            && var t := Take(done, ttl, true, Reply(request));
               t.answers == s.answers + [done.leaving[request]] && done.leaving[request].ok == served.0
  {
    hide Known;
  }
}
