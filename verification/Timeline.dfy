/**
 The calls and returns of one key's operations in time order, laid out in an array and threaded
 into a list. A return sorts before a call of the same time.
*/
module Timeline {
  import opened Types
  import opened Linearizability
  import opened LinkedList
  import opened SearchSpec

  datatype Event = Event(time: nat, isCall: bool, id: nat, op: nat)

  function EventFor(ops: seq<Operation>, i: nat, isCall: bool): Event
    requires i < |ops|
  {
    Event(if isCall then ops[i].invoked else Returned(ops[i]), isCall, ops[i].id, i)
  }

  predicate NotAfter(a: Event, b: Event) {
    a.time < b.time || (a.time == b.time && ((!a.isCall && b.isCall) || (a.isCall == b.isCall && a.id <= b.id)))
  }

  predicate InOrder(s: seq<Event>) {
    forall p, q :: 0 <= p < q < |s| ==> NotAfter(s[p], s[q])
  }

  /** Events go by time; at one time the returns first; and by number among those. */
  lemma OrderIs(s: seq<Event>, p: nat, q: nat)
    requires InOrder(s) && p < q < |s|
    ensures s[p].time <= s[q].time
    ensures s[p].time == s[q].time && s[p].isCall ==> s[q].isCall
    ensures s[p].time == s[q].time && s[p].isCall == s[q].isCall ==> s[p].id <= s[q].id
  {
  }

  ghost predicate Distinct(s: seq<Event>) {
    forall p, q :: 0 <= p < q < |s| ==> s[p] != s[q]
  }

  /** Where a stable insertion puts `e`: behind everything not after it. */
  function Insert(s: seq<Event>, e: Event): (r: seq<Event>)
    requires InOrder(s)
    ensures InOrder(r) && |r| == |s| + 1
    ensures forall x :: x in r <==> x in s || x == e
    ensures Distinct(s) && e !in s ==> Distinct(r)
  {
    if |s| == 0 then [e]
    else if NotAfter(s[|s| - 1], e) then s + [e]
    else
      var init, last := s[..|s| - 1], s[|s| - 1];
      assert s == init + [last];
      var r := Insert(init, e);
      assert forall x :: x in r ==> NotAfter(x, last);
      assert Distinct(s) ==> last !in init;
      r + [last]
  }

  /** A stable sort. */
  function SortEvents(s: seq<Event>): (r: seq<Event>)
    ensures InOrder(r) && |r| == |s|
    ensures forall x :: x in r <==> x in s
    ensures Distinct(s) ==> Distinct(r)
  {
    if |s| == 0 then []
    else
      assert s == s[..|s| - 1] + [s[|s| - 1]];
      Insert(SortEvents(s[..|s| - 1]), s[|s| - 1])
  }

  function EventsOf(ops: seq<Operation>, m: nat): (s: seq<Event>)
    requires m <= |ops|
    ensures |s| == 2 * m && Distinct(s)
    ensures forall x :: x in s <==> x.op < m && x == EventFor(ops, x.op, x.isCall)
  {
    if m == 0 then [] else EventsOf(ops, m - 1) + [EventFor(ops, m - 1, true), EventFor(ops, m - 1, false)]
  }

  // ---- the layout ---------------------------------------------------------------------

  /** Where each operation's call and return sit, and what the cells say. */
  datatype Problem = Problem(ops: seq<Operation>, callOf: seq<nat>, retOf: seq<nat>, base: seq<ListNode>)

  ghost predicate Layout(pr: Problem) {
    var n := |pr.ops|;
    && |pr.callOf| == n && |pr.retOf| == n && |pr.base| == 2 * n + 1
    && (forall i :: 0 <= i < n ==> OpCells(pr, i))
    && (forall p ::
          0 <= p < 2 * n ==>
            pr.base[p].op < n && p == (if pr.base[p].isCall then pr.callOf else pr.retOf)[pr.base[p].op])
    && (forall i, j ::
          0 <= i < n && 0 <= j < n ==> (pr.callOf[i] < pr.retOf[j] <==> pr.ops[i].invoked < Returned(pr.ops[j])))
  }

  ghost predicate OpCells(pr: Problem, i: nat)
    requires i < |pr.callOf| && i < |pr.retOf|
  {
    var c, r := pr.callOf[i], pr.retOf[i];
    && c < |pr.base| - 1 && r < |pr.base| - 1
    && pr.base[c].isCall && pr.base[c].op == i && pr.base[c].peer == r
    && !pr.base[r].isCall && pr.base[r].op == i && pr.base[r].peer == c
  }

  /** The cells of the operations not placed yet. */
  ghost function Cells(pr: Problem, placed: set<nat>): (cells: set<nat>)
    ensures forall p :: p in cells <==> 0 <= p < |pr.base| - 1 && pr.base[p].op !in placed
  {
    set p: nat | p < |pr.base| - 1 && pr.base[p].op !in placed
  }

  lemma CellsWithout(pr: Problem, placed: set<nat>, i: nat)
    requires Layout(pr) && i < |pr.ops| && i !in placed
    ensures pr.callOf[i] in Cells(pr, placed) && pr.retOf[i] in Cells(pr, placed) && pr.callOf[i] != pr.retOf[i]
    ensures Cells(pr, placed + {i}) == Cells(pr, placed) - {pr.callOf[i], pr.retOf[i]}
  {
    assert OpCells(pr, i);
    forall p ensures p in Cells(pr, placed + {i}) <==> p in Cells(pr, placed) - {pr.callOf[i], pr.retOf[i]} {}
  }

  // ---- building it ----------------------------------------------------------------------

  /** The sorted events: each operation's call and return once. */
  ghost predicate IsTimeline(ops: seq<Operation>, line: seq<Event>) {
    && |line| == 2 * |ops| && InOrder(line) && Distinct(line)
    && forall x :: x in line <==> x.op < |ops| && x == EventFor(ops, x.op, x.isCall)
  }

  method SortedEvents(ops: seq<Operation>) returns (line: seq<Event>)
    ensures IsTimeline(ops, line)
  {
    var order: seq<Event> := [];
    for i := 0 to |ops|
      invariant order == EventsOf(ops, i)
    {
      order := order + [EventFor(ops, i, true), EventFor(ops, i, false)];
    }
    line := SortEvents(order);
  }

  const NOWHERE: nat := 0xFFFF_FFFF_FFFF_FFFF

  /** The first `m` events have their cell, and their operation knows it. */
  ghost predicate Laid(line: seq<Event>, nodes: seq<ListNode>, callOf: seq<nat>, retOf: seq<nat>, m: nat)
    requires m <= |line| < |nodes|
  {
    forall p :: 0 <= p < m ==>
      && nodes[p].isCall == line[p].isCall && nodes[p].op == line[p].op
      && line[p].op < |callOf| && line[p].op < |retOf|
      && (if line[p].isCall then callOf else retOf)[line[p].op] == p
  }

  /** Different events have different cells to fill in. */
  lemma OneCell(ops: seq<Operation>, line: seq<Event>, p: nat, q: nat)
    requires IsTimeline(ops, line) && p < q < |line| && line[p].isCall == line[q].isCall
    ensures line[p].op != line[q].op
  {
    assert line[p] in line && line[q] in line;
  }

  method LayEvents(ops: seq<Operation>, line: seq<Event>)
    returns (nodes: array<ListNode>, callOf: array<nat>, retOf: array<nat>)
    requires IsTimeline(ops, line)
    ensures fresh(nodes) && nodes.Length == 2 * |ops| + 1 && callOf.Length == |ops| && retOf.Length == |ops|
    ensures fresh(callOf) && fresh(retOf) && callOf != retOf
    ensures Laid(line, nodes[..], callOf[..], retOf[..], |line|)
  {
    var n := |ops|;
    nodes := new ListNode[2 * n + 1](_ => ListNode(false, NOWHERE, NOWHERE, 2 * n, 2 * n));
    callOf := new nat[n](_ => NOWHERE);
    retOf := new nat[n](_ => NOWHERE);
    for pos := 0 to |line|
      invariant Laid(line, nodes[..], callOf[..], retOf[..], pos)
    {
      assert line[pos] in line;
      forall p | 0 <= p < pos && line[p].isCall == line[pos].isCall
        ensures line[p].op != line[pos].op { OneCell(ops, line, p, pos); }
      nodes[pos] := nodes[pos].(isCall := line[pos].isCall, op := line[pos].op);
      if line[pos].isCall { callOf[line[pos].op] := pos; } else { retOf[line[pos].op] := pos; }
    }
  }

  /** An operation's two cells, before they are matched with each other. */
  lemma CellsOf(ops: seq<Operation>, line: seq<Event>, nodes: seq<ListNode>, callOf: seq<nat>, retOf: seq<nat>, i: nat)
    requires IsTimeline(ops, line) && |nodes| == |line| + 1 && Laid(line, nodes, callOf, retOf, |line|)
    requires i < |ops| == |callOf| == |retOf|
    ensures callOf[i] < |line| && line[callOf[i]] == EventFor(ops, i, true)
    ensures retOf[i] < |line| && line[retOf[i]] == EventFor(ops, i, false)
  {
    assert EventFor(ops, i, true) in line && EventFor(ops, i, false) in line;
    var p :| 0 <= p < |line| && line[p] == EventFor(ops, i, true);
    var q :| 0 <= q < |line| && line[q] == EventFor(ops, i, false);
    assert callOf[i] == p && retOf[i] == q;
  }

  /** Positions in the line compare calls and returns as real time does. */
  lemma CallBeforeReturn(ops: seq<Operation>, line: seq<Event>, c: nat, r: nat, i: nat, j: nat)
    requires IsTimeline(ops, line) && c < |line| && r < |line| && i < |ops| && j < |ops|
    requires line[c] == EventFor(ops, i, true) && line[r] == EventFor(ops, j, false)
    ensures c < r <==> ops[i].invoked < Returned(ops[j])
  {
    if c < r { assert NotAfter(line[c], line[r]); } else if r < c { assert NotAfter(line[r], line[c]); }
  }

  /** The peers of the first `m` operations are filled in. */
  ghost predicate Matched(nodes: seq<ListNode>, callOf: seq<nat>, retOf: seq<nat>, m: nat)
    requires m <= |callOf| && m <= |retOf|
  {
    forall i ::
      0 <= i < m ==>
        callOf[i] < |nodes| && retOf[i] < |nodes| && nodes[callOf[i]].peer == retOf[i]
          && nodes[retOf[i]].peer == callOf[i]
  }

  lemma CellsDiffer(ops: seq<Operation>, line: seq<Event>, nodes: seq<ListNode>, callOf: seq<nat>, retOf: seq<nat>,
                    i: nat)
    requires IsTimeline(ops, line) && |nodes| == |line| + 1 && Laid(line, nodes, callOf, retOf, |line|)
    requires i < |ops| == |callOf| == |retOf|
    ensures callOf[i] < |line| && retOf[i] < |line| && callOf[i] != retOf[i]
    ensures forall j ::
      0 <= j < i ==> callOf[j] != callOf[i] && callOf[j] != retOf[i] && retOf[j] != callOf[i] && retOf[j] != retOf[i]
  {
    CellsOf(ops, line, nodes, callOf, retOf, i);
    forall j | 0 <= j < i
      ensures callOf[j] != callOf[i] && callOf[j] != retOf[i] && retOf[j] != callOf[i] && retOf[j] != retOf[i]
    {
      CellsOf(ops, line, nodes, callOf, retOf, j);
    }
  }

  lemma MatchNone(s: seq<ListNode>, callOf: seq<nat>, retOf: seq<nat>)
    ensures Matched(s, callOf, retOf, 0)
  {
  }

  lemma LaidStays(line: seq<Event>, s: seq<ListNode>, t: seq<ListNode>, callOf: seq<nat>, retOf: seq<nat>)
    requires |s| == |line| + 1 == |t| && Laid(line, s, callOf, retOf, |line|)
    requires forall p :: 0 <= p < |t| ==> t[p].isCall == s[p].isCall && t[p].op == s[p].op
    ensures Laid(line, t, callOf, retOf, |line|)
  {
  }

  lemma MatchOne(s: seq<ListNode>, t: seq<ListNode>, callOf: seq<nat>, retOf: seq<nat>, i: nat)
    requires i < |callOf| && i < |retOf| && callOf[i] < |s| && retOf[i] < |s| && callOf[i] != retOf[i]
    requires forall j ::
      0 <= j < i ==> callOf[j] != callOf[i] && callOf[j] != retOf[i] && retOf[j] != callOf[i] && retOf[j] != retOf[i]
    requires Matched(s, callOf, retOf, i)
    requires t == s[callOf[i] := s[callOf[i]].(peer := retOf[i])][retOf[i] := s[retOf[i]].(peer := callOf[i])]
    ensures Matched(t, callOf, retOf, i + 1)
  {
  }

  method MatchCells(ops: seq<Operation>, ghost line: seq<Event>, nodes: array<ListNode>, callOf: array<nat>,
                    retOf: array<nat>)
    requires IsTimeline(ops, line) && nodes.Length == |line| + 1 && callOf.Length == |ops| && retOf.Length == |ops|
    requires Laid(line, nodes[..], callOf[..], retOf[..], |line|)
    modifies nodes
    ensures Laid(line, nodes[..], callOf[..], retOf[..], |line|) && Matched(nodes[..], callOf[..], retOf[..], |ops|)
  {
    hide IsTimeline, Laid, Matched;
    MatchNone(nodes[..], callOf[..], retOf[..]);
    for i := 0 to |ops|
      invariant Laid(line, nodes[..], callOf[..], retOf[..], |line|) && Matched(nodes[..], callOf[..], retOf[..], i)
    {
      ghost var was := nodes[..];
      CellsDiffer(ops, line, was, callOf[..], retOf[..], i);
      nodes[callOf[i]] := nodes[callOf[i]].(peer := retOf[i]);
      nodes[retOf[i]] := nodes[retOf[i]].(peer := callOf[i]);
      LaidStays(line, was, nodes[..], callOf[..], retOf[..]);
      MatchOne(was, nodes[..], callOf[..], retOf[..], i);
    }
  }

  lemma TimelineSize(ops: seq<Operation>, line: seq<Event>)
    requires IsTimeline(ops, line)
    ensures |line| == 2 * |ops|
  {
  }

  lemma LayoutOf(ops: seq<Operation>, line: seq<Event>, pr: Problem)
    requires IsTimeline(ops, line) && pr.ops == ops && |pr.base| == |line| + 1 && |pr.callOf| == |ops| == |pr.retOf|
    requires Laid(line, pr.base, pr.callOf, pr.retOf, |line|) && Matched(pr.base, pr.callOf, pr.retOf, |ops|)
    ensures Layout(pr)
  {
    hide IsTimeline;
    TimelineSize(ops, line);
    forall i | 0 <= i < |ops| ensures OpCells(pr, i) { CellsOf(ops, line, pr.base, pr.callOf, pr.retOf, i); }
    forall p | 0 <= p < |line| ensures pr.base[p].op < |ops| {}
    forall i, j | 0 <= i < |ops| && 0 <= j < |ops|
      ensures pr.callOf[i] < pr.retOf[j] <==> ops[i].invoked < Returned(ops[j])
    {
      CellsOf(ops, line, pr.base, pr.callOf, pr.retOf, i);
      CellsOf(ops, line, pr.base, pr.callOf, pr.retOf, j);
      CallBeforeReturn(ops, line, pr.callOf[i], pr.retOf[j], i, j);
    }
  }

  /** Links that go through every cell in turn. */
  ghost predicate Threaded(s: seq<ListNode>) {
    && |s| > 0
    && forall x ::
         0 <= x < |s| ==>
           s[x].next == (if x == |s| - 1 then 0 else x + 1) && s[x].prev == (if x == 0 then |s| - 1 else x - 1)
  }

  lemma ThreadedLinked(s: seq<ListNode>)
    requires Threaded(s)
    ensures Linked(s, Positions(|s| - 1))
  {
  }

  /** Thread the list through every cell in order, the last cell being both head and tail. */
  method ThreadList(nodes: array<ListNode>)
    requires nodes.Length > 0
    modifies nodes
    ensures SameShape(nodes[..], old(nodes[..]))
    ensures Linked(nodes[..], Positions(nodes.Length - 1))
  {
    hide Linked;
    var m := nodes.Length - 1;
    var prev := m;
    for pos := 0 to m
      invariant prev == (if pos == 0 then m else pos - 1)
      invariant forall x :: 0 <= x < pos ==> nodes[x].prev == (if x == 0 then m else x - 1)
      invariant forall x :: 0 <= x < pos - 1 ==> nodes[x].next == x + 1
      invariant pos > 0 ==> nodes[m].next == 0
      invariant SameShape(nodes[..], old(nodes[..]))
    {
      nodes[prev] := nodes[prev].(next := pos);
      nodes[pos] := nodes[pos].(prev := prev);
      prev := pos;
    }
    nodes[prev] := nodes[prev].(next := m);
    nodes[m] := nodes[m].(prev := prev);
    ThreadedLinked(nodes[..]);
  }

  /** The list of all calls and returns of a history, in time order. */
  method BuildList(ops: seq<Operation>) returns (nodes: array<ListNode>, ghost pr: Problem)
    ensures fresh(nodes) && pr.ops == ops && Layout(pr) && SameShape(nodes[..], pr.base)
    ensures Linked(nodes[..], Cells(pr, {}))
  {
    hide Linked, Layout;
    var line := SortedEvents(ops);
    var callOf, retOf;
    nodes, callOf, retOf := LayEvents(ops, line);
    MatchCells(ops, line, nodes, callOf, retOf);
    pr := Problem(ops, callOf[..], retOf[..], nodes[..]);
    LayoutOf(ops, line, pr);
    ThreadList(nodes);
    assert Cells(pr, {}) == Positions(nodes.Length - 1);
  }
}
