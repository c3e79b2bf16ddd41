/**
 Locality: a history over a map of keys is linearizable exactly when each key's part is. Orders of
 single keys merge by putting last, again and again, the last operation of the side that was
 invoked latest.
*/
module Locality {
  import opened Types
  import opened Linearizability

  /** The operation alone if it is on `key`. */
  function One(o: Operation, key: Text): seq<Operation> {
    if KeyOf(o.op) == Some(key) then [o] else []
  }

  /** The operations on `key`, in their order. */
  function OnKey(ops: seq<Operation>, key: Text): (part: seq<Operation>)
    ensures forall o :: o in part <==> o in ops && KeyOf(o.op) == Some(key)
  {
    if |ops| == 0 then [] else One(ops[0], key) + OnKey(ops[1..], key)
  }

  lemma OnKeyFirst(ops: seq<Operation>, key: Text)
    requires |ops| > 0
    ensures OnKey(ops, key) == One(ops[0], key) + OnKey(ops[1..], key)
  {
  }

  lemma OnKeyNone(key: Text)
    ensures OnKey([], key) == []
  {
  }

  /** The operations on any key of `keys`. */
  function OnKeys(ops: seq<Operation>, keys: set<Text>): (part: seq<Operation>)
    ensures forall o :: o in part <==> o in ops && KeyOf(o.op).Some? && KeyOf(o.op).value in keys
  {
    if |ops| == 0 then []
    else (if KeyOf(ops[0].op).Some? && KeyOf(ops[0].op).value in keys then [ops[0]] else []) + OnKeys(ops[1..], keys)
  }

  function Keys(ops: seq<Operation>): (keys: set<Text>)
    ensures forall key :: key in keys <==> exists o :: o in ops && KeyOf(o.op) == Some(key)
  {
    if |ops| == 0 then {}
    else (if KeyOf(ops[0].op).Some? then {KeyOf(ops[0].op).value} else {}) + Keys(ops[1..])
  }

  // ---- the model over the whole map ----------------------------------------------------

  function Lookup(m: map<Text, Text>, key: Text): Reg {
    if key in m then Some(m[key]) else None
  }

  function StepMap(m: map<Text, Text>, o: Operation): (bool, map<Text, Text>) {
    match o.op
    case Noop => (true, m)
    case SetMembers(_) => (true, m)
    case Get(key) => (Answers(o, Value(Lookup(m, key))), m)
    case Put(key, value) => (Answers(o, Written), m[key := value])
    case Delete(key) => (Answers(o, Written), m - {key})
    case Cas(key, expected, value) =>
      (Answers(o, CasDone(Lookup(m, key) == expected)), if Lookup(m, key) == expected then m[key := value] else m)
  }

  ghost predicate RunsMap(order: seq<Operation>, m: map<Text, Text>) {
    |order| == 0 || (StepMap(m, order[0]).0 && RunsMap(order[1..], StepMap(m, order[0]).1))
  }

  /** One order of every operation that has a key. */
  ghost predicate MapLinearizable(ops: seq<Operation>) {
    exists order :: multiset(order) == multiset(OnKeys(ops, Keys(ops))) && RealTime(order) && RunsMap(order, map[])
  }

  /** Operations on different keys do not influence each other. */
  lemma StepMapByKey(m: map<Text, Text>, o: Operation, key: Text)
    requires KeyOf(o.op).Some?
    ensures KeyOf(o.op) == Some(key) ==> StepMap(m, o).0 == StepReg(Lookup(m, key), o).0
                                         && Lookup(StepMap(m, o).1, key) == StepReg(Lookup(m, key), o).1
    ensures KeyOf(o.op) != Some(key) ==> Lookup(StepMap(m, o).1, key) == Lookup(m, key)
  {
  }

  lemma {:induction false} RunsMapByKey(order: seq<Operation>, m: map<Text, Text>)
    requires forall o :: o in order ==> KeyOf(o.op).Some?
    ensures RunsMap(order, m) <==> forall key :: Runs(OnKey(order, key), Lookup(m, key))
  {
    if |order| > 0 {
      var o, rest := order[0], order[1..];
      var next := StepMap(m, o).1;
      RunsMapByKey(rest, next);
      forall key
        ensures KeyOf(o.op) == Some(key) ==>
          (Runs(OnKey(order, key), Lookup(m, key)) <==> StepMap(m, o).0 && Runs(OnKey(rest, key), Lookup(next, key)))
        ensures KeyOf(o.op) != Some(key) ==>
          (Runs(OnKey(order, key), Lookup(m, key)) <==> Runs(OnKey(rest, key), Lookup(next, key)))
      {
        StepMapByKey(m, o, key);
        assert KeyOf(o.op) == Some(key) ==> OnKey(order, key)[0] == o && OnKey(order, key)[1..] == OnKey(rest, key);
        assert KeyOf(o.op) != Some(key) ==> OnKey(order, key) == OnKey(rest, key);
      }
      assert o in order;
      var k0 := KeyOf(o.op).value;
      assert Runs(OnKey(order, k0), Lookup(m, k0)) <==> StepMap(m, o).0 && Runs(OnKey(rest, k0), Lookup(next, k0));
    }
  }

  // ---- parts of sequences ------------------------------------------------------------------

  lemma {:induction false} OnKeyAppend(a: seq<Operation>, b: seq<Operation>, key: Text)
    ensures OnKey(a + b, key) == OnKey(a, key) + OnKey(b, key)
  {
    hide OnKey, One;
    if |a| == 0 {
      OnKeyNone(key);
      assert a + b == b;
    } else {
      OnKeyAppend(a[1..], b, key);
      OnKeyFirst(a, key);
      OnKeyFirst(a + b, key);
      assert (a + b)[1..] == a[1..] + b;
    }
  }

  lemma {:induction false} OnKeyAll(a: seq<Operation>, key: Text)
    ensures (forall o :: o in a ==> KeyOf(o.op) == Some(key)) ==> OnKey(a, key) == a
    ensures (forall o :: o in a ==> KeyOf(o.op) != Some(key)) ==> OnKey(a, key) == []
  {
    if |a| > 0 {
      OnKeyAll(a[1..], key);
      assert a == [a[0]] + a[1..];
    }
  }

  lemma {:induction false} OnKeyCount(a: seq<Operation>, key: Text, o: Operation)
    ensures multiset(OnKey(a, key))[o] == if KeyOf(o.op) == Some(key) then multiset(a)[o] else 0
  {
    if |a| > 0 {
      OnKeyCount(a[1..], key, o);
      assert a == [a[0]] + a[1..];
    }
  }

  lemma {:induction false} OnKeysCount(a: seq<Operation>, keys: set<Text>, o: Operation)
    ensures multiset(OnKeys(a, keys))[o] == if KeyOf(o.op).Some? && KeyOf(o.op).value in keys then multiset(a)[o] else 0
  {
    hide OnKeys;
    if |a| == 0 {
      OnKeysNone(keys);
    } else {
      OnKeysCount(a[1..], keys, o);
      OnKeysFirst(a, keys);
      assert a == [a[0]] + a[1..];
    }
  }

  lemma OnKeysNone(keys: set<Text>)
    ensures OnKeys([], keys) == []
  {
  }

  lemma OnKeysFirst(a: seq<Operation>, keys: set<Text>)
    requires |a| > 0
    ensures OnKeys(a, keys) ==
      (if KeyOf(a[0].op).Some? && KeyOf(a[0].op).value in keys then [a[0]] else []) + OnKeys(a[1..], keys)
  {
  }

  /** Taking one key out of several. */
  lemma OnKeysSplit(a: seq<Operation>, keys: set<Text>, key: Text)
    requires key in keys
    ensures multiset(OnKeys(a, keys)) == multiset(OnKeys(a, keys - {key})) + multiset(OnKey(a, key))
  {
    forall o ensures multiset(OnKeys(a, keys))[o] == (multiset(OnKeys(a, keys - {key})) + multiset(OnKey(a, key)))[o] {
      OnKeysCount(a, keys, o);
      OnKeysCount(a, keys - {key}, o);
      OnKeyCount(a, key, o);
    }
  }

  lemma {:induction false} OnKeyRealTime(order: seq<Operation>, key: Text)
    requires RealTime(order)
    ensures RealTime(OnKey(order, key))
  {
    if |order| > 0 {
      OnKeyRealTime(order[1..], key);
      var rest := OnKey(order[1..], key);
      forall o | o in order ensures order[0].invoked < Returned(o) {}
    }
  }

  // ---- merging two orders --------------------------------------------------------------------

  function Merge(a: seq<Operation>, b: seq<Operation>): (m: seq<Operation>)
    decreases |a| + |b|
  {
    if |a| == 0 then b
    else if |b| == 0 then a
    else if LatestInvoked(a) >= LatestInvoked(b) then Merge(a[..|a| - 1], b) + [a[|a| - 1]]
    else Merge(a, b[..|b| - 1]) + [b[|b| - 1]]
  }

  lemma {:induction false} MergeHasBoth(a: seq<Operation>, b: seq<Operation>)
    ensures multiset(Merge(a, b)) == multiset(a) + multiset(b)
    decreases |a| + |b|
  {
    if |a| > 0 && |b| > 0 {
      WithLast(a);
      WithLast(b);
      if LatestInvoked(a) >= LatestInvoked(b) {
        MergeHasBoth(a[..|a| - 1], b);
      } else {
        MergeHasBoth(a, b[..|b| - 1]);
      }
    }
  }

  lemma WithLast(a: seq<Operation>)
    requires |a| > 0
    ensures multiset(a) == multiset(a[..|a| - 1]) + multiset{a[|a| - 1]}
  {
    assert a == a[..|a| - 1] + [a[|a| - 1]];
  }

  lemma MergeMembers(a: seq<Operation>, b: seq<Operation>)
    ensures forall o :: o in Merge(a, b) <==> o in a || o in b
  {
    MergeHasBoth(a, b);
    forall o ensures o in Merge(a, b) <==> o in a || o in b {
      assert o in multiset(Merge(a, b)) <==> o in multiset(a) || o in multiset(b);
    }
  }

  lemma AppendLatest(m: seq<Operation>, o: Operation)
    requires RealTime(m) && o.invoked < Returned(o) && forall x :: x in m ==> x.invoked < Returned(o)
    ensures RealTime(m + [o])
  {
  }

  /** The side invoked latest can go last: its last operation returned after every invocation. */
  lemma LastIsLatest(a: seq<Operation>, b: seq<Operation>, x: Operation)
    requires |a| > 0 && |b| > 0 && RealTime(a) && LatestInvoked(a) >= LatestInvoked(b) && (x in a || x in b)
    ensures x.invoked < Returned(a[|a| - 1]) && RealTime(a[..|a| - 1])
  {
    var o :| o in a && o.invoked == LatestInvoked(a);
  }

  lemma {:induction false} MergeRealTime(a: seq<Operation>, b: seq<Operation>)
    requires RealTime(a) && RealTime(b)
    ensures RealTime(Merge(a, b))
    decreases |a| + |b|
  {
    if |a| > 0 && |b| > 0 {
      var left := LatestInvoked(a) >= LatestInvoked(b);
      var (c, d) := if left then (a, b) else (b, a);
      forall x | x in a || x in b ensures x.invoked < Returned(c[|c| - 1]) { LastIsLatest(c, d, x); }
      LastIsLatest(c, d, c[|c| - 1]);
      if left { MergeRealTime(a[..|a| - 1], b); } else { MergeRealTime(a, b[..|b| - 1]); }
      if left { MergeMembers(a[..|a| - 1], b); } else { MergeMembers(a, b[..|b| - 1]); }
      var m := if left then Merge(a[..|a| - 1], b) else Merge(a, b[..|b| - 1]);
      forall x | x in m ensures x in a || x in b {}
      AppendLatest(m, c[|c| - 1]);
    }
  }

  /** No operation of `a` is on `key`. */
  ghost predicate Avoids(a: seq<Operation>, key: Text) {
    forall o :: o in a ==> KeyOf(o.op) != Some(key)
  }

  lemma OnKeyLast(a: seq<Operation>, key: Text)
    requires |a| > 0
    ensures OnKey(a, key) == OnKey(a[..|a| - 1], key) + OnKey([a[|a| - 1]], key)
    ensures Avoids(a, key) ==> Avoids(a[..|a| - 1], key) && OnKey([a[|a| - 1]], key) == []
  {
    assert a == a[..|a| - 1] + [a[|a| - 1]];
    OnKeyAppend(a[..|a| - 1], [a[|a| - 1]], key);
    OnKeyAll([a[|a| - 1]], key);
  }

  /** A key that only one side has is met in that side's order. */
  lemma {:induction false} MergeOnKey(a: seq<Operation>, b: seq<Operation>, key: Text)
    requires Avoids(a, key) || Avoids(b, key)
    ensures OnKey(Merge(a, b), key) == OnKey(a, key) + OnKey(b, key)
    decreases |a| + |b|
  {
    hide Avoids, OnKey, LatestInvoked;
    OnKeyNone(key);
    if |a| > 0 && |b| > 0 {
      OnKeyLast(a, key);
      OnKeyLast(b, key);
      AvoidsNone(a, key);
      AvoidsNone(b, key);
      if LatestInvoked(a) >= LatestInvoked(b) {
        MergeOnKey(a[..|a| - 1], b, key);
        OnKeyAppend(Merge(a[..|a| - 1], b), [a[|a| - 1]], key);
      } else {
        MergeOnKey(a, b[..|b| - 1], key);
        OnKeyAppend(Merge(a, b[..|b| - 1]), [b[|b| - 1]], key);
      }
    }
  }

  lemma AvoidsNone(a: seq<Operation>, key: Text)
    ensures Avoids(a, key) ==> OnKey(a, key) == []
  {
    OnKeyAll(a, key);
  }

  // ---- locality ----------------------------------------------------------------------------------

  /** An order of the operations on `keys` that satisfies each of them. */
  ghost predicate Joint(ops: seq<Operation>, keys: set<Text>, order: seq<Operation>) {
    && multiset(order) == multiset(OnKeys(ops, keys)) && RealTime(order)
    && forall key :: key in keys ==> Runs(OnKey(order, key), None)
  }

  lemma InMultiset(a: seq<Operation>, b: seq<Operation>)
    requires multiset(a) == multiset(b)
    ensures forall o :: o in a <==> o in b
  {
    forall o ensures o in a <==> o in b { assert o in multiset(a) <==> o in multiset(b); }
  }

  lemma AddKey(ops: seq<Operation>, keys: set<Text>, key: Text, order: seq<Operation>, part: seq<Operation>)
    requires key in keys && Joint(ops, keys - {key}, order) && IsLinearization(multiset(OnKey(ops, key)), part)
    ensures Joint(ops, keys, Merge(order, part))
  {
    InMultiset(order, OnKeys(ops, keys - {key}));
    InMultiset(part, OnKey(ops, key));
    MergeRealTime(order, part);
    MergeHasBoth(order, part);
    OnKeysSplit(ops, keys, key);
    forall k | k in keys ensures Runs(OnKey(Merge(order, part), k), None) {
      MergeOnKey(order, part, k);
      OnKeyAll(order, k);
      OnKeyAll(part, k);
      if k == key {
        assert OnKey(Merge(order, part), k) == part;
      } else {
        assert OnKey(Merge(order, part), k) == OnKey(order, k);
      }
    }
  }

  lemma {:induction false} JoinKeys(ops: seq<Operation>, keys: set<Text>) returns (order: seq<Operation>)
    requires forall key :: key in keys ==> Linearizable(multiset(OnKey(ops, key)))
    ensures Joint(ops, keys, order)
    decreases |keys|
  {
    if keys == {} {
      order := [];
      assert |OnKeys(ops, keys)| == 0 by {
        if |OnKeys(ops, keys)| > 0 { assert OnKeys(ops, keys)[0] in OnKeys(ops, keys); }
      }
    } else {
      var key :| key in keys;
      var rest := JoinKeys(ops, keys - {key});
      var part :| IsLinearization(multiset(OnKey(ops, key)), part);
      AddKey(ops, keys, key, rest, part);
      order := Merge(rest, part);
    }
  }

  lemma NoKey(order: seq<Operation>, key: Text)
    requires forall o :: o in order ==> KeyOf(o.op) != Some(key)
    ensures OnKey(order, key) == []
  {
    OnKeyAll(order, key);
  }

  lemma PartHasAll(ops: seq<Operation>, order: seq<Operation>, key: Text)
    requires multiset(order) == multiset(OnKeys(ops, Keys(ops)))
    ensures multiset(OnKey(order, key)) == multiset(OnKey(ops, key))
  {
    forall o ensures multiset(OnKey(order, key))[o] == multiset(OnKey(ops, key))[o] {
      OnKeyCount(order, key, o);
      OnKeysCount(ops, Keys(ops), o);
      OnKeyCount(ops, key, o);
      assert o in ops <==> o in multiset(ops);
    }
  }

  /** A key's part of a map linearization linearizes the key's operations. */
  lemma PartLinearizes(ops: seq<Operation>, order: seq<Operation>, key: Text)
    requires multiset(order) == multiset(OnKeys(ops, Keys(ops))) && RealTime(order) && RunsMap(order, map[])
    ensures Linearizable(multiset(OnKey(ops, key)))
  {
    hide OnKey, OnKeys, Runs, RunsMap, Keys;
    InMultiset(order, OnKeys(ops, Keys(ops)));
    RunsMapByKey(order, map[]);
    OnKeyRealTime(order, key);
    assert Runs(OnKey(order, key), Lookup(map[], key));
    PartHasAll(ops, order, key);
    assert IsLinearization(multiset(OnKey(ops, key)), OnKey(order, key));
  }

  lemma JointRunsMap(ops: seq<Operation>, order: seq<Operation>)
    requires Joint(ops, Keys(ops), order)
    ensures MapLinearizable(ops)
  {
    InMultiset(order, OnKeys(ops, Keys(ops)));
    forall key ensures Runs(OnKey(order, key), Lookup(map[], key)) {
      if key !in Keys(ops) { NoKey(order, key); }
    }
    RunsMapByKey(order, map[]);
    assert RunsMap(order, map[]);
  }

  ghost predicate EachKeyLinearizable(ops: seq<Operation>) {
    forall key :: key in Keys(ops) ==> Linearizable(multiset(OnKey(ops, key)))
  }

  /** The whole keyed history has one legal order over the map exactly when each key's part has one. */
  lemma LocalityTheorem(ops: seq<Operation>)
    ensures MapLinearizable(ops) <==> EachKeyLinearizable(ops)
  {
    hide Linearizable;
    if MapLinearizable(ops) {
      var order :| multiset(order) == multiset(OnKeys(ops, Keys(ops))) && RealTime(order) && RunsMap(order, map[]);
      forall key | key in Keys(ops) ensures Linearizable(multiset(OnKey(ops, key))) { PartLinearizes(ops, order, key); }
    } else if EachKeyLinearizable(ops) {
      var order := JoinKeys(ops, Keys(ops));
      JointRunsMap(ops, order);
    }
  }
}
