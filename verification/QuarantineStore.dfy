/** The marks on flaky steps over time: marking renews, clearing removes, and age alone expires. */
module QuarantineStore {
  import opened Common
  import opened StepMetrics

  const QUARANTINE_DURATION := 30 * 24 * 3600 * 1000000000

  datatype Op = MarkOp(key: StepKey, note: string, at: int) | ClearOp(key: StepKey)

  /** The last operation on a step, if any. */
  function LastOp(ops: seq<Op>, key: StepKey): Option<Op> {
    if ops == [] then None
    else if ops[|ops| - 1].key == key then Some(ops[|ops| - 1])
    else LastOp(ops[..|ops| - 1], key)
  }

  /** It is the operation on the step that no other follows. */
  lemma {:induction false} LastOpMeans(ops: seq<Op>, key: StepKey)
    ensures LastOp(ops, key).None? <==> forall i :: 0 <= i < |ops| ==> ops[i].key != key
    ensures forall i :: 0 <= i < |ops| && ops[i].key == key && (forall j :: i < j < |ops| ==> ops[j].key != key) ==>
              LastOp(ops, key) == Some(ops[i])
  {
    if ops != [] && ops[|ops| - 1].key != key {
      var init := ops[..|ops| - 1];
      assert forall i :: 0 <= i < |init| ==> init[i] == ops[i];
      LastOpMeans(init, key);
    }
  }

  /** A step's mark, as its last operation left it. */
  function MarkLeft(ops: seq<Op>, key: StepKey): Option<Quarantine> {
    var op := LastOp(ops, key);
    if op.Some? && op.value.MarkOp?
    then Some(Quarantine(op.value.note, op.value.at, op.value.at + QUARANTINE_DURATION))
    else None
  }

  lemma MarkLeftBy(ops: seq<Op>, op: Op, key: StepKey)
    ensures MarkLeft(ops + [op], key) ==
            if op.key != key then MarkLeft(ops, key)
            else if op.MarkOp? then Some(Quarantine(op.note, op.at, op.at + QUARANTINE_DURATION))
            else None
  {
    assert (ops + [op])[..|ops + [op]| - 1] == ops;
  }

  class Store {
    var rows: map<StepKey, Quarantine>
    const repos: set<string>
    ghost var ops: seq<Op>

    ghost predicate Valid()
      reads this
    {
      forall k :: (if k in rows then Some(rows[k]) else None) == MarkLeft(ops, k)
    }

    constructor (repos: set<string>)
      ensures Valid() && ops == [] && this.repos == repos
    {
      this.repos, rows, ops := repos, map[], [];
    }

    /** A repository the database does not know fails the insert's foreign key. */
    method QuarantineStep(key: StepKey, note: string, now: int) returns (mark: Result<Quarantine>)
      requires Valid()
      modifies this
      ensures Valid()
      ensures mark.Ok? <==> key.pipeline.repoId in repos
      ensures ops == if mark.Ok? then old(ops) + [MarkOp(key, note, now)] else old(ops)
      ensures mark.Ok? ==> mark.value == Quarantine(note, now, now + 2592000_000000000)
    {
      if key.pipeline.repoId !in repos {
        return Err;
      }
      var q := Quarantine(note, now, now + QUARANTINE_DURATION);
      forall k {
        MarkLeftBy(ops, MarkOp(key, note, now), k);
      }
      hide MarkLeft;
      rows := rows[key := q];
      ops := ops + [MarkOp(key, note, now)];
      return Ok(q);
    }

    method UnquarantineStep(key: StepKey)
      requires Valid()
      modifies this
      ensures Valid() && ops == old(ops) + [ClearOp(key)]
    {
      forall k {
        MarkLeftBy(ops, ClearOp(key), k);
      }
      hide MarkLeft;
      rows := rows - {key};
      ops := ops + [ClearOp(key)];
    }

    /**
    A step is in force at `now` exactly when the last thing done to it was a mark less than
    thirty days before, whatever else happened and however the clock moved between calls.
    */
    method ActiveQuarantines(now: int) returns (active: map<StepKey, Quarantine>)
      requires Valid()
      ensures forall k :: k in active <==>
                && LastOp(ops, k).Some? && LastOp(ops, k).value.MarkOp?
                && now < LastOp(ops, k).value.at + 2592000_000000000
      ensures forall k :: k in active ==>
                var op := LastOp(ops, k).value; active[k] == Quarantine(op.note, op.at, op.at + 2592000_000000000)
    {
      active := map[];
      var todo := rows.Keys;
      while todo != {}
        invariant todo <= rows.Keys
        invariant forall k :: k in active <==> k in rows && k !in todo && rows[k].expiresAt > now
        invariant forall k :: k in active ==> active[k] == rows[k]
      {
        var k :| k in todo;
        if rows[k].expiresAt > now {
          active := active[k := rows[k]];
        }
        todo := todo - {k};
      }
      hide LastOp;
      forall k
        ensures k in active <==>
          LastOp(ops, k).Some? && LastOp(ops, k).value.MarkOp? && now < LastOp(ops, k).value.at + QUARANTINE_DURATION
        ensures k in active ==> Some(active[k]) == MarkLeft(ops, k)
      {
        assert (if k in rows then Some(rows[k]) else None) == MarkLeft(ops, k);
      }
    }
  }
}
