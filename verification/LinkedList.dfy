/**
 The doubly linked list of calls and returns, threaded through an array whose last cell is the
 sentinel. Lifting an operation out of the list leaves its own links in place, so putting it back
 restores the array exactly.
*/
module LinkedList {

  datatype ListNode = ListNode(isCall: bool, op: nat, peer: nat, prev: nat, next: nat)

  predicate Near(s: seq<ListNode>, i: nat) {
    i < |s| && s[i].prev < |s| && s[i].next < |s|
  }

  function Unlinked(s: seq<ListNode>, i: nat): (t: seq<ListNode>)
    requires Near(s, i)
    ensures |t| == |s|
  {
    var t := s[s[i].prev := s[s[i].prev].(next := s[i].next)];
    t[s[i].next := t[s[i].next].(prev := s[i].prev)]
  }

  function Relinked(s: seq<ListNode>, i: nat): (t: seq<ListNode>)
    requires Near(s, i)
    ensures |t| == |s|
  {
    var t := s[s[i].prev := s[s[i].prev].(next := i)];
    t[s[i].next := t[s[i].next].(prev := i)]
  }

  method Unlink(nodes: array<ListNode>, i: nat)
    requires Near(nodes[..], i)
    modifies nodes
    ensures nodes[..] == Unlinked(old(nodes[..]), i)
  {
    var p, n := nodes[i].prev, nodes[i].next;
    nodes[p] := nodes[p].(next := n);
    nodes[n] := nodes[n].(prev := p);
  }

  method Relink(nodes: array<ListNode>, i: nat)
    requires Near(nodes[..], i)
    modifies nodes
    ensures nodes[..] == Relinked(old(nodes[..]), i)
  {
    var p, n := nodes[i].prev, nodes[i].next;
    nodes[p] := nodes[p].(next := i);
    nodes[n] := nodes[n].(prev := i);
  }

  // ---- a list that visits a set of cells in increasing order ----------------------------

  ghost predicate Hop(s: seq<ListNode>, cells: set<nat>, x: nat)
    requires |s| > 0 && x < |s|
  {
    var m := |s| - 1;
    && (s[x].next in cells || s[x].next == m) && (s[x].prev in cells || s[x].prev == m)
    && s[x].next < |s| && s[x].prev < |s|
    && s[s[x].next].prev == x && s[s[x].prev].next == x
    && (forall q :: q in cells && (x < q || x == m) ==> s[x].next <= q)
    && (x < m ==> x < s[x].next)
  }

  /** The list visits exactly `cells`, in increasing order. */
  ghost predicate Linked(s: seq<ListNode>, cells: set<nat>) {
    && |s| > 0
    && (forall x :: x in cells ==> x < |s| - 1 && Hop(s, cells, x))
    && Hop(s, cells, |s| - 1)
  }

  /** Nothing but links differs. */
  ghost predicate SameShape(s: seq<ListNode>, t: seq<ListNode>) {
    && |s| == |t|
    && forall x :: 0 <= x < |s| ==> s[x].isCall == t[x].isCall && s[x].op == t[x].op && s[x].peer == t[x].peer
  }

  lemma UnlinkedAt(s: seq<ListNode>, i: nat, x: nat)
    requires Near(s, i) && x < |s|
    ensures var y := Unlinked(s, i)[x];
      && y.next == (if x == s[i].prev then s[i].next else s[x].next)
      && y.prev == (if x == s[i].next then s[i].prev else s[x].prev)
      && y.isCall == s[x].isCall && y.op == s[x].op && y.peer == s[x].peer
  {
  }

  lemma RelinkedAt(s: seq<ListNode>, i: nat, x: nat)
    requires Near(s, i) && x < |s|
    ensures var y := Relinked(s, i)[x];
      && y.next == (if x == s[i].prev then i else s[x].next)
      && y.prev == (if x == s[i].next then i else s[x].prev)
      && y.isCall == s[x].isCall && y.op == s[x].op && y.peer == s[x].peer
  {
  }

  lemma HopAt(s: seq<ListNode>, cells: set<nat>, x: nat)
    requires Linked(s, cells) && (x in cells || x == |s| - 1)
    ensures x < |s| && Hop(s, cells, x) && (x in cells ==> x < |s| - 1)
  {
  }

  /** The hops around `x` in the list, without naming the set they range over. */
  lemma HopLinks(s: seq<ListNode>, cells: set<nat>, x: nat)
    requires Linked(s, cells) && (x in cells || x == |s| - 1)
    ensures x < |s| && s[x].next < |s| && s[x].prev < |s| && s[s[x].next].prev == x && s[s[x].prev].next == x
    ensures (s[x].next in cells || s[x].next == |s| - 1) && (s[x].prev in cells || s[x].prev == |s| - 1)
    ensures x < |s| - 1 ==> x < s[x].next
    ensures x in cells ==> x < |s| - 1
  {
    hide Linked;
    HopAt(s, cells, x);
  }

  lemma HopSkips(s: seq<ListNode>, cells: set<nat>, i: nat, x: nat, q: nat)
    requires Linked(s, cells) && i in cells && x != i && (x in cells || x == |s| - 1) && x < |s|
    requires q in cells && q != i && (x < q || x == |s| - 1)
    ensures i < |s| && s[x].next <= q && (s[x].next == i ==> s[i].next <= q)
  {
    hide Linked;
    HopAt(s, cells, x);
    HopAt(s, cells, i);
  }

  lemma UnlinkedHop(s: seq<ListNode>, cells: set<nat>, i: nat, x: nat)
    requires Linked(s, cells) && i in cells && x != i && (x in cells || x == |s| - 1) && x < |s|
    ensures Near(s, i) && Hop(Unlinked(s, i), cells - {i}, x)
  {
    hide Linked, Unlinked;
    HopLinks(s, cells, i);
    HopLinks(s, cells, x);
    HopLinks(s, cells, s[x].next);
    HopLinks(s, cells, s[x].prev);
    HopLinks(s, cells, s[i].next);
    HopLinks(s, cells, s[i].prev);
    UnlinkedAt(s, i, x);
    var t := Unlinked(s, i);
    UnlinkedAt(s, i, t[x].next);
    UnlinkedAt(s, i, t[x].prev);
    forall q | q in cells - {i} && (x < q || x == |s| - 1) ensures t[x].next <= q {
      HopSkips(s, cells, i, x, q);
    }
  }

  lemma UnlinkedLinked(s: seq<ListNode>, cells: set<nat>, i: nat)
    requires Linked(s, cells) && i in cells
    ensures Near(s, i) && Linked(Unlinked(s, i), cells - {i}) && SameShape(s, Unlinked(s, i))
  {
    hide Unlinked, Hop;
    HopLinks(s, cells, i);
    var t := Unlinked(s, i);
    forall x | x in cells - {i} || x == |s| - 1
      ensures x < |s| && Hop(t, cells - {i}, x) { UnlinkedHop(s, cells, i, x); }
    forall x | 0 <= x < |s| ensures s[x].isCall == t[x].isCall && s[x].op == t[x].op && s[x].peer == t[x].peer {
      UnlinkedAt(s, i, x);
    }
  }

  lemma RelinkUndoes(s: seq<ListNode>, cells: set<nat>, i: nat)
    requires Linked(s, cells) && i in cells
    ensures Near(s, i) && Near(Unlinked(s, i), i) && Relinked(Unlinked(s, i), i) == s
  {
    hide Linked, Hop, Unlinked, Relinked;
    HopLinks(s, cells, i);
    var t := Unlinked(s, i);
    HopLinks(s, cells, s[i].prev);
    HopLinks(s, cells, s[i].next);
    UnlinkedAt(s, i, i);
    var u := Relinked(t, i);
    forall x | 0 <= x < |s| ensures u[x] == s[x] {
      UnlinkedAt(s, i, x);
      RelinkedAt(t, i, x);
    }
  }

  // ---- lifting a call and its return --------------------------------------------------------

  function Lifted(s: seq<ListNode>, e: nat): seq<ListNode>
    requires Near(s, e) && Near(Unlinked(s, e), s[e].peer)
  {
    Unlinked(Unlinked(s, e), s[e].peer)
  }

  lemma LiftedLinked(s: seq<ListNode>, cells: set<nat>, e: nat)
    requires Linked(s, cells) && e in cells && e < |s| && s[e].peer in cells && s[e].peer != e
    ensures Near(s, e) && Near(Unlinked(s, e), s[e].peer)
    ensures Linked(Lifted(s, e), cells - {e, s[e].peer}) && SameShape(s, Lifted(s, e))
  {
    hide Linked, Unlinked;
    UnlinkedLinked(s, cells, e);
    UnlinkedLinked(Unlinked(s, e), cells - {e}, s[e].peer);
    assert cells - {e} - {s[e].peer} == cells - {e, s[e].peer};
  }

  /** Putting the return back and then the call restores the list, cell for cell. */
  lemma UnliftUndoes(s: seq<ListNode>, cells: set<nat>, e: nat)
    requires Linked(s, cells) && e in cells && e < |s| && s[e].peer in cells && s[e].peer != e
    ensures Near(s, e) && Near(Unlinked(s, e), s[e].peer)
    ensures var t := Lifted(s, e);
      Near(t, s[e].peer) && Relinked(t, s[e].peer) == Unlinked(s, e) && Near(Unlinked(s, e), e)
        && Relinked(Unlinked(s, e), e) == s
  {
    hide Linked, Unlinked, Relinked;
    UnlinkedLinked(s, cells, e);
    RelinkUndoes(s, cells, e);
    RelinkUndoes(Unlinked(s, e), cells - {e}, s[e].peer);
  }
}
