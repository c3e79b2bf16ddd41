/**
 The search for a linearization as a recursion on the set of operations still to place, and its
 agreement with the definition of linearizability. `Search` explores this recursion, and how long that
 takes is a matter of how many configurations legal beginnings of an order lead to.
*/
module SearchSpec {
  import opened Types
  import opened Linearizability

  function Positions(n: nat): (all: set<nat>)
    ensures forall i :: i in all <==> 0 <= i < n
  {
    if n == 0 then {} else Positions(n - 1) + {n - 1}
  }

  /** Nothing left to place had returned when operation `i` was invoked. */
  ghost predicate MayGoFirst(ops: seq<Operation>, left: set<nat>, i: nat)
    requires forall j :: j in left ==> j < |ops|
  {
    i in left && forall j :: j in left ==> ops[i].invoked < Returned(ops[j])
  }

  /** `order` places exactly the operations `left`, one after another, from `state`. */
  ghost predicate Completes(ops: seq<Operation>, left: set<nat>, state: Reg, order: seq<nat>)
    requires forall j :: j in left ==> j < |ops|
  {
    if |order| == 0 then left == {}
    else
      && MayGoFirst(ops, left, order[0])
      && StepReg(state, ops[order[0]]).0
      && Completes(ops, left - {order[0]}, StepReg(state, ops[order[0]]).1, order[1..])
  }

  ghost predicate CanFinish(ops: seq<Operation>, left: set<nat>, state: Reg)
    requires forall j :: j in left ==> j < |ops|
  {
    exists order :: Completes(ops, left, state, order)
  }

  lemma FinishNothing(ops: seq<Operation>, state: Reg)
    ensures CanFinish(ops, {}, state)
  {
    assert Completes(ops, {}, state, []);
  }

  lemma FinishVia(ops: seq<Operation>, left: set<nat>, state: Reg, i: nat)
    requires forall j :: j in left ==> j < |ops|
    requires MayGoFirst(ops, left, i) && StepReg(state, ops[i]).0
    requires CanFinish(ops, left - {i}, StepReg(state, ops[i]).1)
    ensures CanFinish(ops, left, state)
  {
    var order :| Completes(ops, left - {i}, StepReg(state, ops[i]).1, order);
    assert ([i] + order)[1..] == order;
    assert Completes(ops, left, state, [i] + order);
  }

  lemma FinishStarts(ops: seq<Operation>, left: set<nat>, state: Reg) returns (i: nat)
    requires forall j :: j in left ==> j < |ops|
    requires CanFinish(ops, left, state) && left != {}
    ensures MayGoFirst(ops, left, i) && StepReg(state, ops[i]).0 && CanFinish(ops, left - {i}, StepReg(state, ops[i]).1)
  {
    var order :| Completes(ops, left, state, order);
    i := order[0];
    assert Completes(ops, left - {i}, StepReg(state, ops[i]).1, order[1..]);
  }

  // ---- agreement with the definition ---------------------------------------------------

  /** The operations at the positions `left`, among the first `m`. */
  ghost function Among(ops: seq<Operation>, left: set<nat>, m: nat): multiset<Operation>
    requires m <= |ops|
  {
    if m == 0 then multiset{}
    else Among(ops, left, m - 1) + (if m - 1 in left then multiset{ops[m - 1]} else multiset{})
  }

  function One(ops: seq<Operation>, there: bool, i: nat): multiset<Operation>
    requires i < |ops|
  {
    if there then multiset{ops[i]} else multiset{}
  }

  lemma {:induction false} AmongTake(ops: seq<Operation>, left: set<nat>, m: nat, i: nat)
    requires m <= |ops| && i in left && i < |ops|
    ensures Among(ops, left, m) == Among(ops, left - {i}, m) + One(ops, i < m, i)
  {
    hide Among, One;
    if m == 0 {
      AmongNone(ops, left);
      AmongNone(ops, left - {i});
      OneNone(ops, i);
    } else {
      AmongTake(ops, left, m - 1, i);
      AmongLast(ops, left, m);
      AmongLast(ops, left - {i}, m);
      if i == m - 1 { OneNone(ops, i); }
      TakeStep(Among(ops, left, m - 1), Among(ops, left - {i}, m - 1), One(ops, m - 1 in left, m - 1),
               One(ops, m - 1 in left - {i}, m - 1), One(ops, i < m - 1, i), One(ops, i < m, i));
    }
  }

  lemma OneNone(ops: seq<Operation>, i: nat)
    requires i < |ops|
    ensures One(ops, false, i) == multiset{}
  {
  }

  lemma TakeStep<T>(a: multiset<T>, b: multiset<T>, c: multiset<T>, d: multiset<T>, x: multiset<T>, y: multiset<T>)
    requires a == b + x && ((c == d && x == y) || (x == multiset{} == d && y == c))
    ensures a + c == (b + d) + y
  {
  }

  lemma AmongNone(ops: seq<Operation>, left: set<nat>)
    ensures Among(ops, left, 0) == multiset{}
  {
  }

  lemma AmongLast(ops: seq<Operation>, left: set<nat>, m: nat)
    requires 0 < m <= |ops|
    ensures Among(ops, left, m) == Among(ops, left, m - 1) + One(ops, m - 1 in left, m - 1)
  {
  }

  /** Some position of `left` below `m` holds `o`. */
  ghost predicate Placed(ops: seq<Operation>, left: set<nat>, m: nat, o: Operation)
    requires m <= |ops|
  {
    exists j: nat :: j < m && j in left && ops[j] == o
  }

  lemma {:induction false} AmongHas(ops: seq<Operation>, left: set<nat>, m: nat)
    requires m <= |ops|
    ensures forall j :: 0 <= j < m && j in left ==> ops[j] in Among(ops, left, m)
    ensures forall o :: o in Among(ops, left, m) ==> Placed(ops, left, m, o)
  {
    if m > 0 {
      AmongHas(ops, left, m - 1);
      forall o | o in Among(ops, left, m) ensures Placed(ops, left, m, o) {
        if o in Among(ops, left, m - 1) {
          assert Placed(ops, left, m - 1, o);
        } else {
          assert m - 1 in left && ops[m - 1] == o;
        }
      }
    }
  }

  lemma {:induction false} AmongAll(ops: seq<Operation>, m: nat)
    requires m <= |ops|
    ensures Among(ops, Positions(|ops|), m) == multiset(ops[..m])
  {
    if m > 0 {
      AmongAll(ops, m - 1);
      assert ops[..m] == ops[..m - 1] + [ops[m - 1]];
    }
  }

  function Pick(ops: seq<Operation>, order: seq<nat>): seq<Operation>
    requires forall k :: 0 <= k < |order| ==> order[k] < |ops|
  {
    seq(|order|, k requires 0 <= k < |order| => ops[order[k]])
  }

  /** An order of the operations `left` that respects real time and runs from `state`. */
  ghost predicate Orders(ops: seq<Operation>, left: set<nat>, state: Reg, order: seq<Operation>) {
    multiset(order) == Among(ops, left, |ops|) && RealTime(order) && Runs(order, state)
  }

  lemma RealTimeFront(o: Operation, rest: seq<Operation>)
    ensures RealTime([o] + rest) <==> RealTime(rest) && (forall x :: x in [o] + rest ==> o.invoked < Returned(x))
  {
    var order := [o] + rest;
    if RealTime(order) {
      forall a, b | 0 <= a <= b < |rest| ensures rest[a].invoked < Returned(rest[b]) {
        assert order[a + 1] == rest[a] && order[b + 1] == rest[b];
      }
      forall x | x in order ensures o.invoked < Returned(x) { assert order[0] == o; }
    }
  }

  lemma OrdersFront(ops: seq<Operation>, left: set<nat>, state: Reg, i: nat, rest: seq<Operation>)
    requires (forall j :: j in left ==> j < |ops|) && i in left
    ensures Orders(ops, left, state, [ops[i]] + rest)
        <==> (MayGoFirst(ops, left, i) && StepReg(state, ops[i]).0
              && Orders(ops, left - {i}, StepReg(state, ops[i]).1, rest))
  {
    var order := [ops[i]] + rest;
    FrontCount(ops, left, i, rest);
    RealTimeFront(ops[i], rest);
    assert order[1..] == rest;
    if multiset(order) == Among(ops, left, |ops|) { SameFirst(ops, left, i, order); }
  }

  lemma FrontCount(ops: seq<Operation>, left: set<nat>, i: nat, rest: seq<Operation>)
    requires i in left && i < |ops|
    ensures multiset([ops[i]] + rest) == Among(ops, left, |ops|) <==> multiset(rest) == Among(ops, left - {i}, |ops|)
  {
    var order := [ops[i]] + rest;
    AmongTake(ops, left, |ops|, i);
    if multiset(order) == Among(ops, left, |ops|) {
      assert multiset(rest) == multiset(order) - multiset{ops[i]};
    }
  }

  lemma SameFirst(ops: seq<Operation>, left: set<nat>, i: nat, order: seq<Operation>)
    requires (forall j :: j in left ==> j < |ops|) && i in left && multiset(order) == Among(ops, left, |ops|)
    ensures MayGoFirst(ops, left, i) <==> forall x :: x in order ==> ops[i].invoked < Returned(x)
  {
    AmongHas(ops, left, |ops|);
    forall x ensures x in order <==> Placed(ops, left, |ops|, x) {
      assert x in order <==> x in multiset(order);
    }
  }

  lemma {:induction false} OrdersOfCompletes(ops: seq<Operation>, left: set<nat>, state: Reg, order: seq<nat>)
    returns (placed: seq<Operation>)
    requires (forall j :: j in left ==> j < |ops|) && Completes(ops, left, state, order)
    ensures Orders(ops, left, state, placed)
    decreases |order|
  {
    if |order| == 0 {
      AmongHas(ops, left, |ops|);
      placed := [];
      assert Among(ops, left, |ops|) == multiset{};
    } else {
      var rest := OrdersOfCompletes(ops, left - {order[0]}, StepReg(state, ops[order[0]]).1, order[1..]);
      placed := [ops[order[0]]] + rest;
      OrdersFront(ops, left, state, order[0], rest);
    }
  }

  lemma {:induction false} CompletesOfOrders(ops: seq<Operation>, left: set<nat>, state: Reg, order: seq<Operation>)
    requires (forall j :: j in left ==> j < |ops|) && Orders(ops, left, state, order)
    ensures CanFinish(ops, left, state)
    decreases |order|
  {
    AmongHas(ops, left, |ops|);
    if |order| == 0 {
      assert left == {};
      FinishNothing(ops, state);
    } else {
      assert order[0] in multiset(order);
      assert Placed(ops, left, |ops|, order[0]);
      var i: nat :| i in left && ops[i] == order[0];
      assert order == [ops[i]] + order[1..];
      OrdersFront(ops, left, state, i, order[1..]);
      CompletesOfOrders(ops, left - {i}, StepReg(state, ops[i]).1, order[1..]);
      FinishVia(ops, left, state, i);
    }
  }

  /** The recursion finds an order exactly when there is one. */
  lemma CanFinishIsLinearizable(ops: seq<Operation>)
    ensures CanFinish(ops, Positions(|ops|), None) <==> Linearizable(multiset(ops))
  {
    var left := Positions(|ops|);
    AmongAll(ops, |ops|);
    assert ops[..|ops|] == ops;
    if CanFinish(ops, left, None) {
      var order :| Completes(ops, left, None, order);
      var placed := OrdersOfCompletes(ops, left, None, order);
      assert IsLinearization(multiset(ops), placed);
    }
    if Linearizable(multiset(ops)) {
      var order :| IsLinearization(multiset(ops), order);
      CompletesOfOrders(ops, left, None, order);
    }
  }

  // ---- how much there is to explore ----------------------------------------------------------

  /** A configuration: what has been placed, and the register after it. */
  datatype Point = Point(placed: set<nat>, state: Reg)

  const START: Point := Point({}, None)

  ghost predicate CanPlace(ops: seq<Operation>, pt: Point, i: nat) {
    && i < |ops| && i !in pt.placed
    && (forall j :: 0 <= j < |ops| && j !in pt.placed ==> ops[i].invoked < Returned(ops[j]))
    && StepReg(pt.state, ops[i]).0
  }

  function PlaceNext(ops: seq<Operation>, pt: Point, i: nat): Point
    requires i < |ops|
  {
    Point(pt.placed + {i}, StepReg(pt.state, ops[i]).1)
  }

  ghost function Onward(ops: seq<Operation>, pts: set<Point>): set<Point> {
    set pt, i | pt in pts && i in Positions(|ops|) && CanPlace(ops, pt, i) :: PlaceNext(ops, pt, i)
  }

  /** The configurations that legal beginnings of at most `k` operations lead to. */
  ghost function Reached(ops: seq<Operation>, k: nat): set<Point> {
    if k == 0 then {START} else Reached(ops, k - 1) + Onward(ops, Reached(ops, k - 1))
  }

  /** A search that visits no configuration twice looks at no more cells of the list than this. */
  ghost function Bound(ops: seq<Operation>): nat {
    2 * |ops| * |Reached(ops, |ops|)|
  }

  lemma {:induction false} ReachedGrows(ops: seq<Operation>, k: nat, l: nat)
    requires k <= l
    ensures Reached(ops, k) <= Reached(ops, l)
    decreases l - k
  {
    hide Onward;
    if k < l { ReachedGrows(ops, k + 1, l); }
  }

  lemma OnwardReached(ops: seq<Operation>, k: nat, pt: Point, i: nat)
    requires pt in Reached(ops, k) && CanPlace(ops, pt, i)
    ensures PlaceNext(ops, pt, i) in Reached(ops, k + 1)
  {
  }

  // ---- at most that many ------------------------------------------------------------------------

  function Power2(n: nat): nat { if n == 0 then 1 else 2 * Power2(n - 1) }

  ghost function Subsets(n: nat): set<set<nat>> {
    if n == 0 then {{}} else Subsets(n - 1) + With(Subsets(n - 1), n - 1)
  }

  ghost function With(ss: set<set<nat>>, x: nat): set<set<nat>> { set s | s in ss :: s + {x} }

  lemma {:induction false} WithSize(ss: set<set<nat>>, x: nat)
    ensures |With(ss, x)| <= |ss|
    decreases |ss|
  {
    if ss != {} {
      var s :| s in ss;
      WithSize(ss - {s}, x);
      assert With(ss, x) == With(ss - {s}, x) + {s + {x}};
    }
  }

  lemma SubsetsNext(n: nat)
    ensures n == 0 ==> |Subsets(n)| == 1
    ensures n > 0 ==> Subsets(n) == Subsets(n - 1) + With(Subsets(n - 1), n - 1)
  {
    hide With;
  }

  lemma {:induction false} SubsetsSize(n: nat)
    ensures |Subsets(n)| <= Power2(n)
  {
    hide Subsets, With;
    SubsetsNext(n);
    if n > 0 {
      SubsetsSize(n - 1);
      WithSize(Subsets(n - 1), n - 1);
      BothSizes(Subsets(n - 1), With(Subsets(n - 1), n - 1));
    }
  }

  lemma BothSizes<T>(a: set<T>, b: set<T>)
    ensures |a + b| <= |a| + |b|
  {
    assert a + b == a + (b - a);
  }

  lemma {:induction false} SubsetsAll(n: nat, s: set<nat>)
    requires forall x :: x in s ==> x < n
    ensures s in Subsets(n)
  {
    if n == 0 {
      assert s == {};
    } else {
      SubsetsAll(n - 1, s - {n - 1});
      if n - 1 in s {
        assert s == s - {n - 1} + {n - 1};
        assert s in With(Subsets(n - 1), n - 1);
      } else {
        assert s == s - {n - 1};
      }
    }
  }

  /** What an operation may leave in the register, but for what was there. */
  function Leaves(o: Operation): Reg {
    match o.op
    case Put(_, value) => Some(value)
    case Cas(_, _, value) => Some(value)
    case _ => None
  }

  ghost function States(ops: seq<Operation>, m: nat): set<Reg>
    requires m <= |ops|
  {
    if m == 0 then {None} else States(ops, m - 1) + {Leaves(ops[m - 1])}
  }

  lemma {:induction false} StatesHave(ops: seq<Operation>, m: nat)
    requires m <= |ops|
    ensures |States(ops, m)| <= m + 1 && None in States(ops, m)
    ensures forall i :: 0 <= i < m ==> Leaves(ops[i]) in States(ops, m)
  {
    if m > 0 { StatesHave(ops, m - 1); }
  }

  ghost function Pairs(ss: set<set<nat>>, rs: set<Reg>): set<Point> {
    set s, r | s in ss && r in rs :: Point(s, r)
  }

  lemma {:induction false} RowSize(s: set<nat>, rs: set<Reg>)
    ensures |Pairs({s}, rs)| <= |rs|
    decreases |rs|
  {
    if rs != {} {
      var r :| r in rs;
      RowSize(s, rs - {r});
      assert Pairs({s}, rs) == Pairs({s}, rs - {r}) + {Point(s, r)};
    }
  }

  lemma PairsNext(ss: set<set<nat>>, rs: set<Reg>, s: set<nat>)
    ensures Pairs({}, rs) == {}
    ensures s in ss ==> Pairs(ss, rs) == Pairs(ss - {s}, rs) + Pairs({s}, rs)
  {
  }

  lemma {:induction false} PairsSize(ss: set<set<nat>>, rs: set<Reg>)
    ensures |Pairs(ss, rs)| <= |ss| * |rs|
    decreases |ss|
  {
    hide Pairs;
    PairsNext(ss, rs, {});
    if ss != {} {
      var s :| s in ss;
      PairsSize(ss - {s}, rs);
      RowSize(s, rs);
      PairsNext(ss, rs, s);
      BothSizes(Pairs(ss - {s}, rs), Pairs({s}, rs));
      assert |ss - {s}| == |ss| - 1;
      OneMoreTimes(|ss - {s}|, |rs|);
    }
  }

  lemma OneMoreTimes(a: nat, b: nat)
    ensures (a + 1) * b == a * b + b
  {
  }

  lemma {:induction false} ReachedInside(ops: seq<Operation>, k: nat)
    ensures Reached(ops, k) <= Pairs(Subsets(|ops|), States(ops, |ops|))
  {
    hide Pairs, States, Subsets;
    if k == 0 {
      StartInside(ops);
    } else {
      ReachedInside(ops, k - 1);
      forall pt, i | pt in Reached(ops, k - 1) && CanPlace(ops, pt, i)
        ensures PlaceNext(ops, pt, i) in Pairs(Subsets(|ops|), States(ops, |ops|))
      {
        NextInside(ops, pt, i);
      }
    }
  }

  lemma StartInside(ops: seq<Operation>)
    ensures START in Pairs(Subsets(|ops|), States(ops, |ops|))
  {
    StatesHave(ops, |ops|);
    SubsetsAll(|ops|, {});
  }

  lemma NextInside(ops: seq<Operation>, pt: Point, i: nat)
    requires pt in Pairs(Subsets(|ops|), States(ops, |ops|)) && CanPlace(ops, pt, i)
    ensures PlaceNext(ops, pt, i) in Pairs(Subsets(|ops|), States(ops, |ops|))
  {
    hide States, Subsets;
    StatesHave(ops, |ops|);
    SubsetsBelow(|ops|, pt.placed);
    SubsetsAll(|ops|, pt.placed + {i});
  }

  lemma {:induction false} SubsetsBelow(n: nat, s: set<nat>)
    requires s in Subsets(n)
    ensures forall x :: x in s ==> x < n
  {
    if n > 0 && s !in Subsets(n - 1) {
      var t :| t in Subsets(n - 1) && s == t + {n - 1};
      SubsetsBelow(n - 1, t);
    } else if n > 0 {
      SubsetsBelow(n - 1, s);
    }
  }

  lemma MulGrows(a: nat, b: nat, c: nat, d: nat)
    requires a <= b && c <= d
    ensures a * c <= b * d
  {
    assert (b - a) * c >= 0 && b * (d - c) >= 0;
    assert b * d - a * c == (b - a) * c + b * (d - c);
  }

  /** Each set of operations with each value that could be in the register, at worst. */
  lemma BoundAtWorst(ops: seq<Operation>)
    ensures Bound(ops) <= 2 * |ops| * (Power2(|ops|) * (|ops| + 1))
  {
    hide Reached, Pairs, Subsets, States, Power2;
    var n := |ops|;
    var reached, all := Reached(ops, n), Pairs(Subsets(n), States(ops, n));
    ReachedInside(ops, n);
    SubsetsSize(n);
    StatesHave(ops, n);
    PairsSize(Subsets(n), States(ops, n));
    MulGrows(|Subsets(n)|, Power2(n), |States(ops, n)|, n + 1);
    assert all == reached + (all - reached);
    MulGrows(2 * n, 2 * n, |reached|, Power2(n) * (n + 1));
  }
}
