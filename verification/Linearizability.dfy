/**
 What it means for a history of one key, or of a whole map, to be linearizable, independently of
 any search: some order of all operations that respects real time and that the sequential model
 accepts. An unanswered operation returns at the end of time with a result that matches anything.
*/
module Linearizability {
  import opened Types

  datatype Outcome =
    | Value(value: Option<Text>)
    | Written
    | CasDone(matched: bool)
    | NotLeader(hint: Option<NodeId>)
    | Dropped

  datatype Operation = Operation(id: nat, client: nat, op: Op, invoked: nat, completed: Option<nat>,
                                 outcome: Option<Outcome>)

  const END_OF_TIME: nat := 0xFFFF_FFFF_FFFF_FFFF

  function Returned(o: Operation): nat {
    match o.completed case Some(t) => t case None => END_OF_TIME
  }

  /** The value of one key; None is absent. */
  type Reg = Option<Text>

  function KeyOf(op: Op): Option<Text> {
    match op
    case Noop => None
    case SetMembers(_) => None
    case Get(key) => Some(key)
    case Put(key, _) => Some(key)
    case Delete(key) => Some(key)
    case Cas(key, _, _) => Some(key)
  }

  /** An answer must be the model's; without an answer anything goes. */
  predicate Answers(o: Operation, result: Outcome) {
    o.outcome.None? || o.outcome == Some(result)
  }

  /** One step of the register: does the operation's answer fit the state, and what state follows. */
  function StepReg(state: Reg, o: Operation): (bool, Reg) {
    match o.op
    case Noop => (true, state)
    case SetMembers(_) => (true, state)
    case Get(_) => (Answers(o, Value(state)), state)
    case Put(_, value) => (Answers(o, Written), Some(value))
    case Delete(_) => (Answers(o, Written), None)
    case Cas(_, expected, value) =>
      (Answers(o, CasDone(state == expected)), if state == expected then Some(value) else state)
  }

  // ---- one key ---------------------------------------------------------------------

  /** Nothing is placed after an operation that had returned when it was invoked. */
  ghost predicate RealTime(order: seq<Operation>) {
    forall a, b :: 0 <= a <= b < |order| ==> order[a].invoked < Returned(order[b])
  }

  ghost predicate Runs(order: seq<Operation>, state: Reg) {
    |order| == 0 || (StepReg(state, order[0]).0 && Runs(order[1..], StepReg(state, order[0]).1))
  }

  ghost predicate IsLinearization(ops: multiset<Operation>, order: seq<Operation>) {
    multiset(order) == ops && RealTime(order) && Runs(order, None)
  }

  ghost predicate Linearizable(ops: multiset<Operation>) {
    exists order :: IsLinearization(ops, order)
  }

  // ---- real time as instants -----------------------------------------------------------

  /** One instant inside each operation's window, in the order of the operations. */
  ghost predicate Instants(order: seq<Operation>, at: seq<real>) {
    && |at| == |order|
    && (forall k :: 0 <= k < |at| ==> order[k].invoked as real < at[k] < Returned(order[k]) as real)
    && (forall k, l :: 0 <= k < l < |at| ==> at[k] < at[l])
  }

  function LatestInvoked(order: seq<Operation>): (m: nat)
    requires |order| > 0
    ensures forall o :: o in order ==> o.invoked <= m
    ensures exists o :: o in order && o.invoked == m
  {
    var last := order[|order| - 1];
    if |order| == 1 then assert order == [last]; last.invoked
    else
      var init := order[..|order| - 1];
      assert order == init + [last];
      var m := LatestInvoked(init);
      if last.invoked >= m then assert last in order; last.invoked else m
  }

  lemma AppendInstant(order: seq<Operation>, at: seq<real>, o: Operation, t: real)
    requires Instants(order, at) && o.invoked as real < t < Returned(o) as real
    requires |at| > 0 ==> at[|at| - 1] < t
    ensures Instants(order + [o], at + [t])
  {
    forall k | 0 <= k < |at| ensures at[k] < t { assert k < |at| - 1 ==> at[k] < at[|at| - 1]; }
  }

  lemma RealTimeInit(init: seq<Operation>, last: Operation)
    requires RealTime(init + [last])
    ensures RealTime(init)
  {
    var order := init + [last];
    forall a, b | 0 <= a <= b < |init| ensures init[a].invoked < Returned(init[b]) {
      assert order[a] == init[a] && order[b] == init[b];
    }
  }

  lemma LatestAt(order: seq<Operation>, k: nat)
    requires k < |order|
    ensures order[k].invoked <= LatestInvoked(order)
  {
    hide LatestInvoked;
    assert order[k] in order;
  }

  lemma LatestPosition(order: seq<Operation>) returns (k: nat)
    requires |order| > 0
    ensures k < |order| && order[k].invoked == LatestInvoked(order)
  {
    var m := LatestInvoked(order);
    var o :| o in order && o.invoked == m;
    k :| k < |order| && order[k] == o;
  }

  lemma RealTimeTail(init: seq<Operation>, last: Operation)
    requires RealTime(init + [last])
    ensures RealTime(init) && LatestInvoked(init + [last]) < Returned(last)
    ensures last.invoked <= LatestInvoked(init + [last])
    ensures |init| > 0 ==> LatestInvoked(init) <= LatestInvoked(init + [last])
  {
    hide LatestInvoked;
    var order := init + [last];
    RealTimeInit(init, last);
    assert order[|init|] == last;
    LatestAt(order, |init|);
    var k := LatestPosition(order);
    assert order[k].invoked < Returned(order[|init|]);
    if |init| > 0 {
      var l := LatestPosition(init);
      assert order[l] == init[l];
      LatestAt(order, l);
    }
  }

  /** Instants just after the latest invocation so far. */
  lemma {:induction false} PickInstants(order: seq<Operation>) returns (at: seq<real>)
    requires RealTime(order)
    ensures Instants(order, at)
    ensures |order| > 0 ==> at[|order| - 1] < LatestInvoked(order) as real + 1.0
  {
    hide LatestInvoked, RealTime;
    if |order| == 0 {
      at := [];
    } else {
      var init, last := order[..|order| - 1], order[|order| - 1];
      assert order == init + [last];
      RealTimeTail(init, last);
      at := PickInstants(init);
      var m := LatestInvoked(order) as real;
      var next := if |init| > 0 && at[|init| - 1] > m then (at[|init| - 1] + m + 1.0) / 2.0 else m + 0.5;
      assert m + 1.0 <= Returned(last) as real;
      AppendInstant(init, at, last, next);
      at := at + [next];
    }
  }

  /** An order respects real time exactly when an instant can be picked inside every window, in that order. */
  lemma RealTimeIsInstants(order: seq<Operation>)
    ensures RealTime(order) <==> exists at :: Instants(order, at)
  {
    if RealTime(order) {
      var at := PickInstants(order);
      assert Instants(order, at);
    }
    if at :| Instants(order, at) {
      forall a, b | 0 <= a <= b < |order| ensures order[a].invoked < Returned(order[b]) {
        assert at[a] <= at[b];
      }
    }
  }

  /** No instant lies inside an empty window: an operation that returned no later than it was invoked fits nowhere. */
  lemma EmptyWindow(ops: multiset<Operation>, o: Operation)
    requires o in ops && Returned(o) <= o.invoked
    ensures !Linearizable(ops)
  {
    forall order | multiset(order) == ops ensures !RealTime(order) {
      assert o in multiset(order);
      var k :| 0 <= k < |order| && order[k] == o;
    }
  }

  // ---- unanswered operations --------------------------------------------------------------

  lemma {:induction false} RunsAppend(a: seq<Operation>, o: Operation, state: Reg)
    requires Runs(a, state) && o.outcome.None?
    ensures Runs(a + [o], state)
  {
    if |a| > 0 {
      RunsAppend(a[1..], o, StepReg(state, a[0]).1);
      assert (a + [o])[1..] == a[1..] + [o];
    }
  }

  /** An operation without an answer can always go last. */
  lemma PendingGoesLast(ops: multiset<Operation>, o: Operation)
    requires Linearizable(ops) && o.outcome.None? && o.completed.None?
    requires forall x :: x in ops + multiset{o} ==> x.invoked < END_OF_TIME
    ensures Linearizable(ops + multiset{o})
  {
    hide Runs;
    var order :| IsLinearization(ops, order);
    RunsAppend(order, o, None);
    RealTimeAppend(order, o);
    assert multiset(order + [o]) == ops + multiset{o};
    assert IsLinearization(ops + multiset{o}, order + [o]);
  }

  lemma RealTimeAppend(order: seq<Operation>, o: Operation)
    requires RealTime(order) && forall x :: x in multiset(order) + multiset{o} ==> x.invoked < Returned(o)
    ensures RealTime(order + [o])
  {
    forall x | x in order + [o] ensures x.invoked < Returned(o) { assert x in multiset(order) + multiset{o}; }
    forall a, b | 0 <= a <= b < |order| + 1 ensures (order + [o])[a].invoked < Returned((order + [o])[b]) {
      assert (order + [o])[a] in order + [o];
    }
  }

  lemma {:induction false} PendingGoLast(kept: multiset<Operation>, rest: multiset<Operation>)
    requires Linearizable(kept) && forall o :: o in rest ==> o.outcome.None? && o.completed.None?
    requires forall o :: o in kept + rest ==> o.invoked < END_OF_TIME
    ensures Linearizable(kept + rest)
    decreases |rest|
  {
    if |rest| == 0 {
      assert kept + rest == kept;
    } else {
      var o :| o in rest;
      PendingGoesLast(kept, o);
      PendingGoLast(kept + multiset{o}, rest - multiset{o});
      assert kept + multiset{o} + (rest - multiset{o}) == kept + rest;
    }
  }

  /** Some unanswered operations may never have happened. */
  ghost predicate LinearizableSomehow(ops: multiset<Operation>) {
    exists kept :: kept <= ops && (forall o :: o in ops - kept ==> o.outcome.None?) && Linearizable(kept)
  }

  /** Placing every unanswered operation loses nothing against choosing which of them took effect. */
  lemma PlacingAllIsPlacingSome(ops: multiset<Operation>)
    requires forall o :: o in ops ==> o.invoked < END_OF_TIME && (o.outcome.None? ==> o.completed.None?)
    ensures Linearizable(ops) <==> LinearizableSomehow(ops)
  {
    hide Linearizable;
    if Linearizable(ops) {
      assert ops <= ops && forall o :: o in ops - ops ==> o.outcome.None?;
    }
    if LinearizableSomehow(ops) {
      var kept :| kept <= ops && (forall o :: o in ops - kept ==> o.outcome.None?) && Linearizable(kept);
      PendingGoLast(kept, ops - kept);
      assert kept + (ops - kept) == ops;
    }
  }
}
