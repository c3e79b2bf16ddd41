/**
 From one list of commands to one order of everything clients asked for. Commands take effect where
 they first stand in the list, reads between two of them; if no operation had returned before one
 that takes effect earlier was invoked, the whole history is linearizable.
*/
module ClientHistory {
  import opened Types
  import opened Linearizability
  import opened Locality
  import opened StateMachine

  /** Where an operation takes effect: at a command of the list, between two of them, or not at all. */
  datatype Place = AtCommand(pos: nat) | AfterCommands(count: nat) | Nowhere

  function Rank(p: Place): nat
    requires !p.Nowhere?
  {
    match p case AtCommand(pos) => 2 * pos + 1 case AfterCommands(count) => 2 * count
  }

  /** The operation's answer is what the list gives at its place. */
  ghost predicate Fits(cs: seq<Command>, o: Operation, p: Place) {
    match p
    case AtCommand(pos) =>
      && pos < |cs| && First(cs[..pos], cs[pos]) && o.op == cs[pos].op
      && Answers(o, Apply(Replay(FRESH, cs[..pos]), cs[pos]).1)
    case AfterCommands(count) =>
      count <= |cs| && o.op.Get? && Answers(o, Value(Lookup(Replay(FRESH, cs[..count]).state, o.op.key)))
    case Nowhere => o.outcome.None? && o.completed.None?
  }

  ghost predicate AllFit(cs: seq<Command>, ops: seq<Operation>, at: seq<Place>) {
    && |at| == |ops|
    && (forall x :: 0 <= x < |ops| ==> KeyOf(ops[x].op).Some? && Fits(cs, ops[x], at[x]))
  }

  /** Every command that has an effect was asked for, by one operation. */
  ghost predicate Covered(cs: seq<Command>, at: seq<Place>) {
    && (forall p :: 0 <= p < |cs| && First(cs[..p], cs[p]) ==> exists x :: 0 <= x < |at| && at[x] == AtCommand(p))
    && (forall x, y :: 0 <= x < |at| && 0 <= y < |at| && at[x] == at[y] && at[x].AtCommand? ==> x == y)
  }

  /** Nothing takes effect after an operation that had returned when it was invoked. */
  ghost predicate InTime(ops: seq<Operation>, at: seq<Place>)
    requires |at| == |ops|
  {
    && (forall x :: 0 <= x < |ops| ==> ops[x].invoked < Returned(ops[x]) <= END_OF_TIME)
    && (forall x, y ::
          0 <= x < |ops| && 0 <= y < |ops| && !at[x].Nowhere? && !at[y].Nowhere? && Rank(at[x]) < Rank(at[y])
          ==> ops[x].invoked < Returned(ops[y]))
  }

  // ---- orders as lists of positions ----------------------------------------------------------

  function Picked(ops: seq<Operation>, ix: seq<nat>): (r: seq<Operation>)
    requires forall k :: 0 <= k < |ix| ==> ix[k] < |ops|
    ensures |r| == |ix| && forall k :: 0 <= k < |r| ==> r[k] == ops[ix[k]]
  {
    seq(|ix|, k requires 0 <= k < |ix| => ops[ix[k]])
  }

  predicate Distinct(ix: seq<nat>) { forall a, b :: 0 <= a < b < |ix| ==> ix[a] != ix[b] }

  ghost predicate Inside(ix: seq<nat>, n: nat) { forall k :: 0 <= k < |ix| ==> ix[k] < n }

  lemma PickedSplit(ops: seq<Operation>, a: seq<nat>, b: seq<nat>)
    requires Inside(a, |ops|) && Inside(b, |ops|)
    ensures Inside(a + b, |ops|) && Picked(ops, a + b) == Picked(ops, a) + Picked(ops, b)
  {
  }

  lemma PickedInit(ops: seq<Operation>, n: nat, ix: seq<nat>)
    requires n <= |ops| && Inside(ix, n)
    ensures Picked(ops[..n], ix) == Picked(ops, ix)
  {
  }

  lemma PickedOne(ops: seq<Operation>, ix: seq<nat>, k: nat)
    requires k < |ix| && Inside(ix, |ops|)
    ensures var rest := ix[..k] + ix[k + 1..];
      Inside(rest, |ops|) && multiset(Picked(ops, ix)) == multiset(Picked(ops, rest)) + multiset{ops[ix[k]]}
  {
    hide Picked;
    PickedSplit(ops, ix[..k], ix[k + 1..]);
    PickedSplit(ops, ix[..k], [ix[k]]);
    PickedSplit(ops, ix[..k] + [ix[k]], ix[k + 1..]);
    assert ix == ix[..k] + [ix[k]] + ix[k + 1..];
    assert Picked(ops, [ix[k]]) == [ops[ix[k]]];
  }

  /** A list of all positions, each once, picks the same operations. */
  lemma {:induction false} PickedAll(ops: seq<Operation>, ix: seq<nat>)
    requires Inside(ix, |ops|) && Distinct(ix) && forall x :: 0 <= x < |ops| ==> x in ix
    ensures multiset(Picked(ops, ix)) == multiset(ops)
    decreases |ops|
  {
    hide Picked;
    if |ops| == 0 {
      assert Picked(ops, ix) == [];
    } else {
      var n := |ops| - 1;
      assert n in ix;
      var k :| 0 <= k < |ix| && ix[k] == n;
      var rest := ix[..k] + ix[k + 1..];
      WithoutOne(ix, k);
      OthersStay(ix, k);
      forall x | 0 <= x < n ensures x in rest { assert x in ix && x != ix[k]; }
      PickedAll(ops[..n], rest);
      PickedInit(ops, n, rest);
      PickedOne(ops, ix, k);
      assert ops == ops[..n] + [ops[n]];
    }
  }

  lemma OthersStay(ix: seq<nat>, k: nat)
    requires k < |ix|
    ensures forall x :: x in ix && x != ix[k] ==> x in ix[..k] + ix[k + 1..]
  {
    var rest := ix[..k] + ix[k + 1..];
    forall x | x in ix && x != ix[k] ensures x in rest {
      var l :| 0 <= l < |ix| && ix[l] == x;
      assert rest[if l < k then l else l - 1] == x;
    }
  }

  lemma WithoutOne(ix: seq<nat>, k: nat)
    requires k < |ix| && Distinct(ix) && Inside(ix, ix[k] + 1)
    ensures var rest := ix[..k] + ix[k + 1..]; Distinct(rest) && Inside(rest, ix[k])
  {
    var rest := ix[..k] + ix[k + 1..];
    forall l | 0 <= l < |rest| ensures rest[l] < ix[k] { assert rest[l] == if l < k then ix[l] else ix[l + 1]; }
  }

  // ---- running an order ------------------------------------------------------------------------

  /** The map after an order. */
  ghost function After(order: seq<Operation>, m: map<Text, Text>): map<Text, Text> {
    if |order| == 0 then m else After(order[1..], StepMap(m, order[0]).1)
  }

  lemma {:induction false} RunsMapAppend(order: seq<Operation>, o: Operation, m: map<Text, Text>)
    ensures RunsMap(order + [o], m) <==> RunsMap(order, m) && StepMap(After(order, m), o).0
    ensures After(order + [o], m) == StepMap(After(order, m), o).1
  {
    if |order| == 0 {
      assert ([] + [o])[1..] == [];
    } else {
      RunsMapAppend(order[1..], o, StepMap(m, order[0]).1);
      assert (order + [o])[1..] == order[1..] + [o];
    }
  }

  /** A command that has an effect answers and does what the map model does. */
  lemma EffectIsStep(m: Machine, c: Command, o: Operation)
    requires !Internal(c) && !Seen(m, c) && o.op == c.op && Answers(o, Apply(m, c).1)
    ensures StepMap(m.state, o) == (true, Apply(m, c).0.state)
  {
  }

  // ---- the order, command by command --------------------------------------------------------------

  /** `ix` orders everything of a rank below `r`, legally, and leaves the map as the commands do. */
  ghost predicate Ordered(cs: seq<Command>, ops: seq<Operation>, at: seq<Place>, ix: seq<nat>, r: nat)
    requires |at| == |ops| && r / 2 <= |cs|
  {
    && Inside(ix, |ops|) && Distinct(ix)
    && (forall x :: x in ix <==> 0 <= x < |ops| && !at[x].Nowhere? && Rank(at[x]) < r)
    && RealTime(Picked(ops, ix)) && RunsMap(Picked(ops, ix), map[])
    && After(Picked(ops, ix), map[]) == Replay(FRESH, cs[..r / 2]).state
  }

  lemma RealTimeMore(ops: seq<Operation>, ix: seq<nat>, x: nat)
    requires Inside(ix, |ops|) && x < |ops| && RealTime(Picked(ops, ix))
    requires ops[x].invoked < Returned(ops[x]) && forall y :: y in ix ==> ops[y].invoked < Returned(ops[x])
    ensures RealTime(Picked(ops, ix + [x]))
  {
    var was, now := Picked(ops, ix), Picked(ops, ix + [x]);
    forall a, b | 0 <= a <= b < |now| ensures now[a].invoked < Returned(now[b]) {
      if b < |was| {
        assert now[a] == was[a] && now[b] == was[b];
      } else if a < |was| {
        assert ix[a] in ix;
      }
    }
  }

  lemma PickedMore(ops: seq<Operation>, ix: seq<nat>, x: nat)
    requires Inside(ix, |ops|) && x < |ops|
    ensures Inside(ix + [x], |ops|) && Picked(ops, ix + [x]) == Picked(ops, ix) + [ops[x]]
    ensures x !in ix && Distinct(ix) ==> Distinct(ix + [x])
  {
    var more := ix + [x];
    if x !in ix && Distinct(ix) {
      forall a, b | 0 <= a < b < |more| ensures more[a] != more[b] { assert more[a] == ix[a] && ix[a] in ix; }
    }
  }

  /** The operation that returned first. */
  lemma {:induction false} Earliest(ops: seq<Operation>, todo: set<nat>) returns (y: nat)
    requires todo != {} && forall x :: x in todo ==> x < |ops|
    ensures y in todo && forall x :: x in todo ==> Returned(ops[y]) <= Returned(ops[x])
    decreases |todo|
  {
    var first :| first in todo;
    var rest := todo - {first};
    y := first;
    if rest != {} {
      var z := Earliest(ops, rest);
      if Returned(ops[z]) < Returned(ops[first]) { y := z; }
    }
    forall x | x in todo ensures Returned(ops[y]) <= Returned(ops[x]) { assert x == first || x in rest; }
  }

  /**
   As `Ordered` up to rank `2 * m`, with the reads there that are not in `todo`, all of which returned
   no later than those.
  */
  ghost predicate PartOrdered(cs: seq<Command>, ops: seq<Operation>, at: seq<Place>, ix: seq<nat>, m: nat,
                              todo: set<nat>)
    requires |at| == |ops| && m <= |cs|
  {
    && Inside(ix, |ops|) && Distinct(ix)
    && (forall x :: x in todo ==> x < |ops| && at[x] == AfterCommands(m) && x !in ix)
    && (forall x :: x in ix <==> 0 <= x < |ops| && !at[x].Nowhere? && Rank(at[x]) <= 2 * m && x !in todo)
    && (forall x, y :: x in ix && y in todo && Rank(at[x]) == 2 * m ==> Returned(ops[x]) <= Returned(ops[y]))
    && RealTime(Picked(ops, ix)) && RunsMap(Picked(ops, ix), map[])
    && After(Picked(ops, ix), map[]) == Replay(FRESH, cs[..m]).state
  }

  lemma {:induction false} AddReads(cs: seq<Command>, ops: seq<Operation>, at: seq<Place>, ix: seq<nat>, m: nat,
                                    todo: set<nat>)
    returns (ix': seq<nat>)
    requires AllFit(cs, ops, at) && InTime(ops, at) && m <= |cs| && PartOrdered(cs, ops, at, ix, m, todo)
    ensures Ordered(cs, ops, at, ix', 2 * m + 1)
    decreases |todo|
  {
    hide RealTime, RunsMap, After, Replay, Fits, Distinct;
    if todo == {} {
      ix' := ix;
      assert (2 * m + 1) / 2 == m;
    } else {
      var y := Earliest(ops, todo);
      AddRead(cs, ops, at, ix, m, todo, y);
      ix' := AddReads(cs, ops, at, ix + [y], m, todo - {y});
    }
  }

  lemma AddRead(cs: seq<Command>, ops: seq<Operation>, at: seq<Place>, ix: seq<nat>, m: nat, todo: set<nat>, y: nat)
    requires AllFit(cs, ops, at) && InTime(ops, at) && m <= |cs| && PartOrdered(cs, ops, at, ix, m, todo)
    requires y in todo && forall x :: x in todo ==> Returned(ops[y]) <= Returned(ops[x])
    ensures PartOrdered(cs, ops, at, ix + [y], m, todo - {y})
  {
    hide RealTime, RunsMap, After, Replay, Distinct;
    PickedMore(ops, ix, y);
    RunsMapAppend(Picked(ops, ix), ops[y], map[]);
    assert Fits(cs, ops[y], at[y]);
    forall x | x in ix ensures ops[x].invoked < Returned(ops[y]) {
      if Rank(at[x]) == 2 * m { assert Returned(ops[x]) <= Returned(ops[y]); }
    }
    RealTimeMore(ops, ix, y);
  }

  /** One more rank. */
  lemma NextRank(cs: seq<Command>, ops: seq<Operation>, at: seq<Place>, ix: seq<nat>, r: nat) returns (ix': seq<nat>)
    requires AllFit(cs, ops, at) && Covered(cs, at) && InTime(ops, at) && (r + 1) / 2 <= |cs|
    requires Ordered(cs, ops, at, ix, r)
    ensures Ordered(cs, ops, at, ix', r + 1)
  {
    hide RealTime, RunsMap, After, Replay, Fits, Distinct, First, Covered;
    if r % 2 == 0 {
      var m := r / 2;
      var todo := set x | 0 <= x < |ops| && at[x] == AfterCommands(m);
      assert PartOrdered(cs, ops, at, ix, m, todo) by {
        forall x ensures x in ix <==> 0 <= x < |ops| && !at[x].Nowhere? && Rank(at[x]) <= 2 * m && x !in todo {}
      }
      ix' := AddReads(cs, ops, at, ix, m, todo);
    } else {
      ix' := NextCommand(cs, ops, at, ix, r / 2);
    }
  }

  lemma NextCommand(cs: seq<Command>, ops: seq<Operation>, at: seq<Place>, ix: seq<nat>, p: nat) returns (ix': seq<nat>)
    requires AllFit(cs, ops, at) && Covered(cs, at) && InTime(ops, at) && p < |cs|
    requires Ordered(cs, ops, at, ix, 2 * p + 1)
    ensures Ordered(cs, ops, at, ix', 2 * p + 2)
  {
    hide RealTime, RunsMap, After, Distinct, Apply, Replay, SessionsOf, First, Covered, InTime;
    var m := Replay(FRESH, cs[..p]);
    ReplayNext(cs, p);
    ReplaySessions(cs[..p]);
    if First(cs[..p], cs[p]) {
      var x := CoveredAt(cs, at, p);
      assert Fits(cs, ops[x], at[x]);
      AddCommand(cs, ops, at, ix, p, x);
      ix' := ix + [x];
    } else {
      NoEffect(m, cs[..p], cs[p]);
      ix' := ix;
      forall x | 0 <= x < |ops| && !at[x].Nowhere? ensures Rank(at[x]) != 2 * p + 1 { assert Fits(cs, ops[x], at[x]); }
    }
  }

  lemma CoveredAt(cs: seq<Command>, at: seq<Place>, p: nat) returns (x: nat)
    requires Covered(cs, at) && p < |cs| && First(cs[..p], cs[p])
    ensures x < |at| && at[x] == AtCommand(p)
  {
    x :| 0 <= x < |at| && at[x] == AtCommand(p);
  }

  lemma ReplayNext(cs: seq<Command>, p: nat)
    requires p < |cs|
    ensures Replay(FRESH, cs[..p + 1]) == Apply(Replay(FRESH, cs[..p]), cs[p]).0
  {
    hide Apply;
    assert cs[..p + 1][..p] == cs[..p] && cs[..p + 1][p] == cs[p];
  }

  lemma NoEffect(m: Machine, cs: seq<Command>, c: Command)
    requires SessionsOf(m, cs) && !First(cs, c)
    ensures Apply(m, c).0 == m
  {
    if !Internal(c) { SeenIsNotFirst(m, cs, c); }
  }

  lemma AddCommand(cs: seq<Command>, ops: seq<Operation>, at: seq<Place>, ix: seq<nat>, p: nat, x: nat)
    requires AllFit(cs, ops, at) && Covered(cs, at) && InTime(ops, at) && p < |cs|
    requires Ordered(cs, ops, at, ix, 2 * p + 1)
    requires x < |ops| && at[x] == AtCommand(p)
    ensures Ordered(cs, ops, at, ix + [x], 2 * p + 2)
  {
    hide RealTime, RunsMap, After, Distinct, Replay, Fits, First, StepMap;
    assert (2 * p + 1) / 2 == p && (2 * p + 2) / 2 == p + 1;
    assert Fits(cs, ops[x], at[x]);
    CommandSteps(cs, ops[x], p);
    PickedMore(ops, ix, x);
    RunsMapAppend(Picked(ops, ix), ops[x], map[]);
    OnlyCommand(cs, at, p, x);
    RealTimeMore(ops, ix, x);
  }

  lemma CommandSteps(cs: seq<Command>, o: Operation, p: nat)
    requires p < |cs| && Fits(cs, o, AtCommand(p))
    ensures StepMap(Replay(FRESH, cs[..p]).state, o) == (true, Replay(FRESH, cs[..p + 1]).state)
  {
    hide Apply, SessionsOf, Replay;
    var m := Replay(FRESH, cs[..p]);
    ReplayNext(cs, p);
    ReplaySessions(cs[..p]);
    SeenIsNotFirst(m, cs[..p], cs[p]);
    EffectIsStep(m, cs[p], o);
  }

  lemma OnlyCommand(cs: seq<Command>, at: seq<Place>, p: nat, x: nat)
    requires Covered(cs, at) && x < |at| && at[x] == AtCommand(p)
    ensures forall y :: 0 <= y < |at| && !at[y].Nowhere? && Rank(at[y]) == 2 * p + 1 ==> y == x
  {
    hide First;
    forall y | 0 <= y < |at| && !at[y].Nowhere? && Rank(at[y]) == 2 * p + 1 ensures y == x { assert at[y] == at[x]; }
  }

  lemma {:induction false} UpToRank(cs: seq<Command>, ops: seq<Operation>, at: seq<Place>, r: nat)
    returns (ix: seq<nat>)
    requires |at| == |ops| && AllFit(cs, ops, at) && Covered(cs, at) && InTime(ops, at) && r / 2 <= |cs|
    ensures Ordered(cs, ops, at, ix, r)
    decreases r
  {
    hide AllFit, Covered, InTime, Ordered;
    if r == 0 {
      NothingOrdered(cs, ops, at);
      ix := [];
    } else {
      ix := UpToRank(cs, ops, at, r - 1);
      ix := NextRank(cs, ops, at, ix, r - 1);
    }
  }

  lemma NothingOrdered(cs: seq<Command>, ops: seq<Operation>, at: seq<Place>)
    requires |at| == |ops|
    ensures Ordered(cs, ops, at, [], 0)
  {
    assert cs[..0] == [];
  }

  // ---- what was never answered goes last ---------------------------------------------------------

  ghost predicate Complete(ops: seq<Operation>, at: seq<Place>, ix: seq<nat>, todo: set<nat>)
    requires |at| == |ops|
  {
    && Inside(ix, |ops|) && Distinct(ix) && RealTime(Picked(ops, ix)) && RunsMap(Picked(ops, ix), map[])
    && (forall x :: x in todo ==> x < |ops| && at[x].Nowhere? && x !in ix)
    && forall x :: 0 <= x < |ops| ==> x in ix || x in todo
  }

  lemma {:induction false} AddRest(cs: seq<Command>, ops: seq<Operation>, at: seq<Place>, ix: seq<nat>, todo: set<nat>)
    returns (ix': seq<nat>)
    requires AllFit(cs, ops, at) && InTime(ops, at) && Complete(ops, at, ix, todo)
    ensures Complete(ops, at, ix', {})
    decreases |todo|
  {
    hide RealTime, RunsMap, Distinct;
    if todo == {} {
      ix' := ix;
    } else {
      var x :| x in todo;
      assert Fits(cs, ops[x], at[x]);
      assert Returned(ops[x]) == END_OF_TIME;
      PickedMore(ops, ix, x);
      RunsMapAppend(Picked(ops, ix), ops[x], map[]);
      RealTimeMore(ops, ix, x);
      assert Complete(ops, at, ix + [x], todo - {x});
      ix' := AddRest(cs, ops, at, ix + [x], todo - {x});
    }
  }

  lemma {:induction false} AllKeyed(ops: seq<Operation>, keys: set<Text>)
    requires forall o :: o in ops ==> KeyOf(o.op).Some? && KeyOf(o.op).value in keys
    ensures OnKeys(ops, keys) == ops
  {
    if |ops| > 0 {
      assert ops[0] in ops;
      forall o | o in ops[1..] ensures o in ops {}
      AllKeyed(ops[1..], keys);
    }
  }

  /** Operations that fit a list of commands in real time are linearizable. */
  lemma PlacedIsLinearizable(cs: seq<Command>, ops: seq<Operation>, at: seq<Place>)
    requires AllFit(cs, ops, at) && Covered(cs, at) && InTime(ops, at)
    ensures MapLinearizable(ops)
  {
    hide RealTime, RunsMap, First, Replay, Apply, Distinct, After, Picked;
    var r := 2 * |cs| + 1;
    var ix := UpToRank(cs, ops, at, r);
    var todo := set x | 0 <= x < |ops| && at[x].Nowhere?;
    forall x | 0 <= x < |ops| && !at[x].Nowhere? ensures Rank(at[x]) < r { assert Fits(cs, ops[x], at[x]); }
    assert Complete(ops, at, ix, todo);
    ix := AddRest(cs, ops, at, ix, todo);
    PickedAll(ops, ix);
    forall o | o in ops ensures KeyOf(o.op).Some? && KeyOf(o.op).value in Keys(ops) {}
    AllKeyed(ops, Keys(ops));
    assert multiset(Picked(ops, ix)) == multiset(OnKeys(ops, Keys(ops)));
  }
}
