/** The recorder of a history: operations are pushed when invoked and completed when answered. */
module Recorder {
  import opened Types
  import opened Linearizability

  /** The latest position that holds operation `id`, if any. */
  function Latest(ops: seq<Operation>, id: nat): (r: Option<nat>)
    ensures r.Some? ==> r.value < |ops| && ops[r.value].id == id && forall k :: r.value < k < |ops| ==> ops[k].id != id
    ensures r.None? ==> forall k :: 0 <= k < |ops| ==> ops[k].id != id
  {
    if |ops| == 0 then None
    else if ops[|ops| - 1].id == id then Some(|ops| - 1)
    else Latest(ops[..|ops| - 1], id)
  }

  /** Answering rewrites the latest operation of that id and nothing else. */
  function Completed(ops: seq<Operation>, id: nat, time: nat, outcome: Outcome): (r: seq<Operation>)
    ensures |r| == |ops|
  {
    match Latest(ops, id)
    case None => ops
    case Some(k) => ops[k := ops[k].(completed := Some(time), outcome := Some(outcome))]
  }

  /** Ids are unique, answers come no earlier than their questions, and an answer has both a time and an outcome. */
  ghost predicate WellFormed(ops: seq<Operation>) {
    && (forall a, b :: 0 <= a < b < |ops| ==> ops[a].id != ops[b].id)
    && (forall o ::
          o in ops ==>
            (o.completed.Some? ==> o.invoked <= o.completed.value) && (o.completed.Some? <==> o.outcome.Some?))
  }

  class History {
    var ops: seq<Operation>
    var index: map<nat, nat>

    /** The index knows the latest position of every id. */
    ghost predicate Valid()
      reads this
    {
      forall id :: Latest(ops, id) == if id in index then Some(index[id]) else None
    }

    constructor ()
      ensures Valid() && ops == []
    {
      ops := [];
      index := map[];
    }

    method Push(op: Operation)
      requires Valid()
      modifies this
      ensures Valid() && ops == old(ops) + [op]
    {
      index := index[op.id := |ops|];
      ops := ops + [op];
      assert ops[..|ops| - 1] == old(ops);
    }

    method Complete(id: nat, time: nat, outcome: Outcome) returns (known: bool)
      requires Valid()
      modifies this
      ensures Valid() && ops == Completed(old(ops), id, time, outcome)
      ensures known <==> exists o :: o in old(ops) && o.id == id
    {
      if id !in index {
        assert Latest(ops, id).None?;
        return false;
      }
      var i := index[id];
      assert Latest(ops, id) == Some(i) && ops[i] in ops;
      ops := ops[i := ops[i].(completed := Some(time), outcome := Some(outcome))];
      forall x ensures Latest(ops, x) == Latest(old(ops), x) { LatestById(old(ops), ops, x); }
      known := true;
    }

    /** What the recorder checks of itself is exactly well-formedness. */
    method CheckWellFormed() returns (ok: bool)
      ensures ok <==> WellFormed(ops)
    {
      var seen: set<nat> := {};
      for k := 0 to |ops|
        invariant forall id :: id in seen <==> exists a :: 0 <= a < k && ops[a].id == id
        invariant forall a, b :: 0 <= a < b < k ==> ops[a].id != ops[b].id
        invariant forall a :: 0 <= a < k ==> (ops[a].completed.Some? ==> ops[a].invoked <= ops[a].completed.value)
                                             && (ops[a].completed.Some? <==> ops[a].outcome.Some?)
      {
        var o := ops[k];
        assert o in ops;
        if o.id in seen { return false; }
        seen := seen + {o.id};
        if o.completed.Some? && o.completed.value < o.invoked { return false; }
        if o.completed.Some? != o.outcome.Some? { return false; }
      }
      ok := true;
    }
  }

  lemma {:induction false} LatestById(a: seq<Operation>, b: seq<Operation>, id: nat)
    requires |a| == |b| && forall k :: 0 <= k < |a| ==> a[k].id == b[k].id
    ensures Latest(a, id) == Latest(b, id)
  {
    if |a| > 0 { LatestById(a[..|a| - 1], b[..|b| - 1], id); }
  }

  /** In a well-formed history an answer reaches the one operation that asked, and keeps the history well formed. */
  lemma AnswerReachesAsker(ops: seq<Operation>, k: nat, time: nat, outcome: Outcome)
    requires WellFormed(ops) && k < |ops| && ops[k].invoked <= time
    ensures Completed(ops, ops[k].id, time, outcome) ==
      ops[k := ops[k].(completed := Some(time), outcome := Some(outcome))]
    ensures WellFormed(Completed(ops, ops[k].id, time, outcome))
  {
    var r := Completed(ops, ops[k].id, time, outcome);
    assert Latest(ops, ops[k].id) == Some(k);
    forall o | o in r
      ensures (o.completed.Some? ==> o.invoked <= o.completed.value) && (o.completed.Some? <==> o.outcome.Some?)
    {
      var j :| 0 <= j < |r| && r[j] == o;
      assert j != k ==> o in ops;
    }
  }
}
