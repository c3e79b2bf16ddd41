/**
 The search for a legal order of one key's operations, by lifting operations out of the list and
 putting them back, and the verdict on a history of many keys from those on each.

 `points` are the positions on the current path: what has been placed and the register after it.
 Whatever the cache holds is on the path or cannot be finished; whatever call the scan has passed
 cannot be placed next.
*/
module Search {
  import opened Types
  import opened Linearizability
  import opened SearchSpec
  import opened LinkedList
  import opened Timeline
  import opened Locality

  /** A choice that can be undone: the call that was lifted, and the register before it. */
  datatype Frame = Frame(entry: nat, prior: Reg)

  ghost predicate Dead(pr: Problem, pt: Point) {
    !CanFinish(pr.ops, Positions(|pr.ops|) - pt.placed, pt.state)
  }

  /** Placing operation `i` next is refused by the register or leads nowhere. */
  ghost predicate Tried(pr: Problem, pt: Point, i: nat)
    requires i < |pr.ops|
  {
    StepReg(pt.state, pr.ops[i]).0 ==> Dead(pr, Point(pt.placed + {i}, StepReg(pt.state, pr.ops[i]).1))
  }

  /** The scan from the head of the list has come to cell `e`: past no return, and past no call worth another try. */
  ghost predicate Scanned(pr: Problem, pt: Point, e: nat)
    requires Layout(pr)
  {
    forall j {:trigger pr.retOf[j]} ::
      0 <= j < |pr.ops| && j !in pt.placed ==> pr.retOf[j] >= e && (pr.callOf[j] < e ==> Tried(pr, pt, j))
  }

  ghost predicate ListAt(pr: Problem, pt: Point, s: seq<ListNode>) {
    SameShape(s, pr.base) && Linked(s, Cells(pr, pt.placed)) && pt.placed <= Positions(|pr.ops|)
  }

  /** Lifting the call of frame `f` leads from `a` to `b`. */
  ghost predicate Lift(pr: Problem, f: Frame, a: Point, b: Point, s: seq<ListNode>, t: seq<ListNode>)
    requires Layout(pr)
  {
    && f.prior == a.state
    && f.entry in Cells(pr, a.placed) && pr.base[f.entry].isCall && Scanned(pr, a, f.entry)
    && pr.base[f.entry].op < |pr.ops| && StepReg(a.state, pr.ops[pr.base[f.entry].op]) == (true, b.state)
    && b.placed == a.placed + {pr.base[f.entry].op}
    && ListAt(pr, a, s) && f.entry < |s|
    && Near(s, f.entry) && Near(Unlinked(s, f.entry), s[f.entry].peer) && t == Lifted(s, f.entry)
  }

  ghost predicate PathOk(pr: Problem, calls: seq<Frame>, points: seq<Point>, lists: seq<seq<ListNode>>)
    requires Layout(pr)
  {
    && |points| == |calls| + 1 == |lists|
    && points[0] == START
    && (forall k :: 0 <= k < |points| ==> |points[k].placed| == k)
    && (forall k {:trigger calls[k]} ::
          0 <= k < |calls| ==> Lift(pr, calls[k], points[k], points[k + 1], lists[k], lists[k + 1]))
    && ListAt(pr, points[|calls|], lists[|calls|])
  }

  ghost predicate CacheOk(pr: Problem, cache: set<Point>, points: seq<Point>) {
    forall c :: c in cache ==> c in points || Dead(pr, c)
  }

  // ---- scanning ------------------------------------------------------------------------

  lemma HeadScanned(pr: Problem, pt: Point, s: seq<ListNode>)
    requires Layout(pr) && ListAt(pr, pt, s)
    ensures Scanned(pr, pt, s[|s| - 1].next)
    ensures s[|s| - 1].next in Cells(pr, pt.placed) || s[|s| - 1].next == |s| - 1
  {
    hide Linked;
    var cells := Cells(pr, pt.placed);
    HopAt(s, cells, |s| - 1);
    forall j | 0 <= j < |pr.ops| && j !in pt.placed
      ensures pr.retOf[j] >= s[|s| - 1].next && pr.callOf[j] >= s[|s| - 1].next
    {
      CellsWithout(pr, pt.placed, j);
    }
  }

  lemma NextScanned(pr: Problem, pt: Point, s: seq<ListNode>, e: nat)
    requires Layout(pr) && ListAt(pr, pt, s) && Scanned(pr, pt, e) && e in Cells(pr, pt.placed)
    requires pr.base[e].isCall && pr.base[e].op < |pr.ops| && Tried(pr, pt, pr.base[e].op)
    ensures e < |s| && e < s[e].next && Scanned(pr, pt, s[e].next)
    ensures s[e].next in Cells(pr, pt.placed) || s[e].next == |s| - 1
  {
    hide Linked, Tried;
    var cells := Cells(pr, pt.placed);
    HopAt(s, cells, e);
    forall j | 0 <= j < |pr.ops| && j !in pt.placed
      ensures pr.retOf[j] >= s[e].next && (pr.callOf[j] < s[e].next ==> Tried(pr, pt, j))
    {
      CellsWithout(pr, pt.placed, j);
      assert OpCells(pr, j);
    }
  }

  /** A return in the way: every call that could come next was tried. */
  lemma StuckIsDead(pr: Problem, pt: Point, e: nat)
    requires Layout(pr) && Scanned(pr, pt, e) && e in Cells(pr, pt.placed) && !pr.base[e].isCall
    ensures Dead(pr, pt)
  {
    var left := Positions(|pr.ops|) - pt.placed;
    var j := pr.base[e].op;
    assert j in left && pr.retOf[j] == e;
    forall i: nat | MayGoFirst(pr.ops, left, i) && StepReg(pt.state, pr.ops[i]).0
      ensures !CanFinish(pr.ops, left - {i}, StepReg(pt.state, pr.ops[i]).1)
    {
      assert pr.callOf[i] < pr.retOf[j];
      assert left - {i} == Positions(|pr.ops|) - (pt.placed + {i});
    }
    NoChoice(pr.ops, left, pt.state);
  }

  lemma NoChoice(ops: seq<Operation>, left: set<nat>, state: Reg)
    requires left != {} && forall j :: j in left ==> j < |ops|
    requires forall i: nat ::
      MayGoFirst(ops, left, i) && StepReg(state, ops[i]).0 ==> !CanFinish(ops, left - {i}, StepReg(state, ops[i]).1)
    ensures !CanFinish(ops, left, state)
  {
    if CanFinish(ops, left, state) { var i := FinishStarts(ops, left, state); }
  }

  /** The scan came to the end: everything is placed. */
  lemma EndIsAll(pr: Problem, pt: Point)
    requires Layout(pr) && pt.placed <= Positions(|pr.ops|) && Scanned(pr, pt, 2 * |pr.ops|)
    ensures !Dead(pr, pt)
  {
    forall j | 0 <= j < |pr.ops| ensures j in pt.placed {
      assert OpCells(pr, j);
      assert pr.retOf[j] < 2 * |pr.ops|;
    }
    assert Positions(|pr.ops|) - pt.placed == {};
    FinishNothing(pr.ops, pt.state);
  }

  /** What can be finished after a lift can be finished before it. */
  lemma LiftKeepsFinish(pr: Problem, f: Frame, a: Point, b: Point, s: seq<ListNode>, t: seq<ListNode>)
    requires Layout(pr) && Lift(pr, f, a, b, s, t) && !Dead(pr, b)
    ensures !Dead(pr, a)
  {
    hide Linked, SameShape, Unlinked, Near;
    var i := pr.base[f.entry].op;
    var left := Positions(|pr.ops|) - a.placed;
    assert pr.callOf[i] == f.entry;
    forall j | j in left ensures pr.ops[i].invoked < Returned(pr.ops[j]) {
      assert pr.retOf[j] >= f.entry;
      assert OpCells(pr, j);
    }
    assert left - {i} == Positions(|pr.ops|) - b.placed;
    FinishVia(pr.ops, left, a.state, i);
  }

  lemma {:induction false} PathKeepsFinish(pr: Problem, calls: seq<Frame>, points: seq<Point>,
                                           lists: seq<seq<ListNode>>, k: nat)
    requires Layout(pr) && PathOk(pr, calls, points, lists) && k <= |calls| && !Dead(pr, points[k])
    ensures !Dead(pr, points[0])
    decreases k
  {
    hide Lift, Dead, ListAt, Layout;
    if k > 0 {
      assert Lift(pr, calls[k - 1], points[k - 1], points[k - 1 + 1], lists[k - 1], lists[k - 1 + 1]);
      LiftKeepsFinish(pr, calls[k - 1], points[k - 1], points[k], lists[k - 1], lists[k]);
      PathKeepsFinish(pr, calls, points, lists, k - 1);
    }
  }

  // ---- choosing and undoing ----------------------------------------------------------------

  lemma ShapeTrans(s: seq<ListNode>, t: seq<ListNode>, u: seq<ListNode>)
    requires SameShape(s, t) && SameShape(s, u)
    ensures SameShape(u, t)
  {
  }

  /** Lifting the call at `e` extends the path. */
  lemma PushKeepsPath(pr: Problem, calls: seq<Frame>, points: seq<Point>, lists: seq<seq<ListNode>>, e: nat, next: Reg)
    requires Layout(pr) && PathOk(pr, calls, points, lists)
    requires Scanned(pr, points[|calls|], e) && e in Cells(pr, points[|calls|].placed) && pr.base[e].isCall
    requires pr.base[e].op < |pr.ops| && StepReg(points[|calls|].state, pr.ops[pr.base[e].op]) == (true, next)
    ensures var pt := points[|calls|]; var s := lists[|calls|]; var q := Point(pt.placed + {pr.base[e].op}, next);
      && e < |s| && Near(s, e) && Near(Unlinked(s, e), s[e].peer) && s[e].peer == pr.base[e].peer && s[e].peer < |s|
      && PathOk(pr, calls + [Frame(e, pt.state)], points + [q], lists + [Lifted(s, e)])
  {
    var pt, s := points[|calls|], lists[|calls|];
    var i := pr.base[e].op;
    CellsWithout(pr, pt.placed, i);
    assert OpCells(pr, i);
    hide Linked, SameShape, Unlinked, Near, Scanned;
    ShapeAt(s, pr.base, e);
    LiftedLinked(s, Cells(pr, pt.placed), e);
    ShapeTrans(s, pr.base, Lifted(s, e));
    var q := Point(pt.placed + {i}, next);
    assert ListAt(pr, q, Lifted(s, e));
    assert Lift(pr, Frame(e, pt.state), pt, q, s, Lifted(s, e));
    hide Lift, ListAt;
    ExtendPath(pr, calls, points, lists, Frame(e, pt.state), q, Lifted(s, e));
  }

  lemma ShapeAt(s: seq<ListNode>, t: seq<ListNode>, x: nat)
    requires SameShape(s, t) && x < |t|
    ensures x < |s| == |t| && s[x].isCall == t[x].isCall && s[x].op == t[x].op && s[x].peer == t[x].peer
  {
  }

  lemma ExtendPath(pr: Problem, calls: seq<Frame>, points: seq<Point>, lists: seq<seq<ListNode>>, f: Frame, q: Point,
                   t: seq<ListNode>)
    requires Layout(pr) && PathOk(pr, calls, points, lists) && |q.placed| == |points|
    requires Lift(pr, f, points[|calls|], q, lists[|calls|], t) && ListAt(pr, q, t)
    ensures PathOk(pr, calls + [f], points + [q], lists + [t])
  {
    hide Lift, ListAt, Layout;
  }

  /** Putting back the cells of frame `f` turns `t` into `s` and `b` into `a`. */
  ghost predicate Undone(pr: Problem, f: Frame, a: Point, b: Point, s: seq<ListNode>, t: seq<ListNode>)
    requires Layout(pr)
  {
    var e := f.entry;
    && e < |t| == |s| && e < |pr.base| && f.prior == a.state && Scanned(pr, a, e) && e in Cells(pr, a.placed)
    && pr.base[e].isCall && t[e].op == pr.base[e].op == s[e].op
    && t[e].op < |pr.ops| && t[e].op !in a.placed
      && b == Point(a.placed + {t[e].op}, StepReg(a.state, pr.ops[t[e].op]).1)
    && Near(t, t[e].peer) && Near(Relinked(t, t[e].peer), e) && Relinked(Relinked(t, t[e].peer), e) == s
  }

  /** Undoing the last choice: the path is the shorter one, and putting the cells back restores its list. */
  lemma PopKeepsPath(pr: Problem, calls: seq<Frame>, points: seq<Point>, lists: seq<seq<ListNode>>)
    requires Layout(pr) && PathOk(pr, calls, points, lists) && |calls| > 0
    ensures |points| == |lists| == |calls| + 1
    ensures Undone(pr, calls[|calls| - 1], points[|calls| - 1], points[|calls|], lists[|calls| - 1], lists[|calls|])
    ensures PathOk(pr, calls[..|calls| - 1], points[..|calls|], lists[..|calls|])
  {
    hide Linked, SameShape, Unlinked, Near, Relinked, Scanned, ListAt, Lift, Layout, PathOk, Undone;
    var d := |calls| - 1;
    LastLift(pr, calls, points, lists);
    LiftUndone(pr, calls[d], points[d], points[d + 1], lists[d], lists[d + 1]);
    ShrinkPath(pr, calls, points, lists);
  }

  lemma LastLift(pr: Problem, calls: seq<Frame>, points: seq<Point>, lists: seq<seq<ListNode>>)
    requires Layout(pr) && PathOk(pr, calls, points, lists) && |calls| > 0
    ensures |points| == |lists| == |calls| + 1 && ListAt(pr, points[|calls|], lists[|calls|])
    ensures Lift(pr, calls[|calls| - 1], points[|calls| - 1], points[|calls|], lists[|calls| - 1], lists[|calls|])
  {
    hide Lift, ListAt, Layout;
    assert Lift(pr, calls[|calls| - 1], points[|calls| - 1], points[|calls| - 1 + 1], lists[|calls| - 1],
                lists[|calls| - 1 + 1]);
  }

  lemma LiftUndone(pr: Problem, f: Frame, a: Point, b: Point, s: seq<ListNode>, t: seq<ListNode>)
    requires Layout(pr) && Lift(pr, f, a, b, s, t) && ListAt(pr, b, t)
    ensures Undone(pr, f, a, b, s, t)
  {
    hide Linked, SameShape, Unlinked, Near, Relinked, Scanned;
    var e := f.entry;
    CellsWithout(pr, a.placed, pr.base[e].op);
    assert OpCells(pr, pr.base[e].op);
    ShapeAt(s, pr.base, e);
    ShapeAt(t, pr.base, e);
    UnliftUndoes(s, Cells(pr, a.placed), e);
  }

  lemma ShrinkPath(pr: Problem, calls: seq<Frame>, points: seq<Point>, lists: seq<seq<ListNode>>)
    requires Layout(pr) && PathOk(pr, calls, points, lists) && |calls| > 0
    ensures PathOk(pr, calls[..|calls| - 1], points[..|calls|], lists[..|calls|])
  {
    hide Lift, ListAt, Layout;
    var d := |calls| - 1;
    LiftFrom(pr, calls[d], points[d], points[d + 1], lists[d], lists[d + 1]);
    var cs, ps, ls := calls[..d], points[..d + 1], lists[..d + 1];
    forall k {:trigger cs[k]} | 0 <= k < |cs| ensures Lift(pr, cs[k], ps[k], ps[k + 1], ls[k], ls[k + 1]) {
      assert cs[k] == calls[k];
    }
  }

  lemma LiftFrom(pr: Problem, f: Frame, a: Point, b: Point, s: seq<ListNode>, t: seq<ListNode>)
    requires Layout(pr) && Lift(pr, f, a, b, s, t)
    ensures ListAt(pr, a, s)
  {
  }

  // ---- the search --------------------------------------------------------------------------------

  datatype Verdict = Legal | Violation(key: Text) | Unknown(key: Text)

  const DEFAULT_BUDGET: nat := 5_000_000

  lemma StartPath(pr: Problem, s: seq<ListNode>)
    requires Layout(pr) && SameShape(s, pr.base) && Linked(s, Cells(pr, {}))
    ensures PathOk(pr, [], [START], [s])
  {
  }

  /** The start of the path can be finished exactly when the operations are linearizable. */
  lemma StartIsWhole(pr: Problem)
    ensures Dead(pr, START) <==> !Linearizable(multiset(pr.ops))
  {
    CanFinishIsLinearizable(pr.ops);
    assert Positions(|pr.ops|) - {} == Positions(|pr.ops|);
  }

  /** A cached configuration one deeper than the path is not on it. */
  lemma CachedIsTried(pr: Problem, cache: set<Point>, calls: seq<Frame>, points: seq<Point>, lists: seq<seq<ListNode>>,
                      i: nat)
    requires Layout(pr) && PathOk(pr, calls, points, lists) && CacheOk(pr, cache, points)
    requires i < |pr.ops| && i !in points[|calls|].placed
    requires var pt := points[|calls|]; Point(pt.placed + {i}, StepReg(pt.state, pr.ops[i]).1) in cache
    ensures Tried(pr, points[|calls|], i)
  {
    hide Lift, ListAt, Layout, Dead;
    var pt := points[|calls|];
    var c := Point(pt.placed + {i}, StepReg(pt.state, pr.ops[i]).1);
    assert |c.placed| == |calls| + 1;
    forall k | 0 <= k < |points| ensures points[k] != c { assert |points[k].placed| == k; }
  }

  lemma CachePops(pr: Problem, cache: set<Point>, points: seq<Point>)
    requires |points| > 0 && CacheOk(pr, cache, points) && Dead(pr, points[|points| - 1])
    ensures CacheOk(pr, cache, points[..|points| - 1])
  {
    hide Dead;
    var init := points[..|points| - 1];
    forall c | c in cache ensures c in init || Dead(pr, c) {
      if c in points && c != points[|points| - 1] {
        var k :| 0 <= k < |points| && points[k] == c;
        assert init[k] == c;
      }
    }
  }

  // ---- how long it takes -------------------------------------------------------------------------

  /** Every configuration on the path and in the cache is one that a legal beginning leads to. */
  ghost predicate Known(pr: Problem, cache: set<Point>, points: seq<Point>) {
    && cache <= Reached(pr.ops, |pr.ops|) - {START}
    && forall k :: 0 <= k < |points| ==> points[k] in Reached(pr.ops, k)
  }

  /** The call under the scan may be placed next, if the register lets it. */
  lemma ScannedMayGo(pr: Problem, pt: Point, e: nat)
    requires Layout(pr) && Scanned(pr, pt, e) && e in Cells(pr, pt.placed) && pr.base[e].isCall
    requires pr.base[e].op < |pr.ops| && StepReg(pt.state, pr.ops[pr.base[e].op]).0
    ensures CanPlace(pr.ops, pt, pr.base[e].op)
  {
    var i := pr.base[e].op;
    assert pr.callOf[i] == e;
    forall j | 0 <= j < |pr.ops| && j !in pt.placed ensures pr.ops[i].invoked < Returned(pr.ops[j]) {
      assert pr.retOf[j] >= e;
      assert OpCells(pr, j);
    }
  }

  lemma PushKnown(pr: Problem, cache: set<Point>, points: seq<Point>, i: nat)
    requires Known(pr, cache, points) && 0 < |points| <= |pr.ops| && i < |pr.ops|
    requires CanPlace(pr.ops, points[|points| - 1], i)
    ensures var q := PlaceNext(pr.ops, points[|points| - 1], i); Known(pr, cache + {q}, points + [q])
  {
    hide CanPlace, Reached;
    OnwardReached(pr.ops, |points| - 1, points[|points| - 1], i);
    ReachedGrows(pr.ops, |points|, |pr.ops|);
    assert i in PlaceNext(pr.ops, points[|points| - 1], i).placed;
  }

  lemma PopKnown(pr: Problem, cache: set<Point>, points: seq<Point>)
    requires Known(pr, cache, points) && |points| > 0
    ensures Known(pr, cache, points[..|points| - 1])
  {
  }

  lemma StartKnown(pr: Problem)
    ensures Known(pr, {}, [START])
  {
  }

  /** The cells that were scanned to come to the calls on the path. */
  ghost function Spent(calls: seq<Frame>): nat {
    if |calls| == 0 then 0 else Spent(calls[..|calls| - 1]) + calls[|calls| - 1].entry + 1
  }

  /**
   What the steps were for: each configuration that was left took a scan of the list at most, and those
   on the path have been scanned up to where the next one was chosen. `size` is that of the list.
  */
  ghost predicate Paid(size: nat, known: nat, calls: seq<Frame>, entry: nat, steps: nat) {
    && |calls| <= known && (forall f :: f in calls ==> f.entry < size)
    && steps <= size * (known - |calls|) + Spent(calls) + entry
  }

  lemma StartPaid(size: nat, entry: nat)
    ensures Paid(size, 0, [], entry, 0)
  {
  }

  lemma PaidPush(size: nat, known: nat, calls: seq<Frame>, entry: nat, steps: nat, f: Frame, next: nat)
    requires Paid(size, known, calls, entry, steps) && f.entry == entry < size
    ensures Paid(size, known + 1, calls + [f], next, steps + 1)
  {
    assert (calls + [f])[..|calls|] == calls;
    assert known + 1 - |calls + [f]| == known - |calls|;
  }

  lemma PaidOn(size: nat, known: nat, calls: seq<Frame>, entry: nat, steps: nat, next: nat)
    requires Paid(size, known, calls, entry, steps) && entry < next
    ensures Paid(size, known, calls, next, steps + 1)
  {
  }

  lemma PaidPop(size: nat, known: nat, calls: seq<Frame>, entry: nat, steps: nat, next: nat)
    requires Paid(size, known, calls, entry, steps) && |calls| > 0 && entry < size
    requires calls[|calls| - 1].entry < next
    ensures Paid(size, known, calls[..|calls| - 1], next, steps + 1)
  {
    assert size * (known - (|calls| - 1)) == size * (known - |calls|) + size;
  }

  lemma {:induction false} SpentAtMost(size: nat, calls: seq<Frame>)
    requires forall f :: f in calls ==> f.entry < size
    ensures Spent(calls) <= size * |calls|
  {
    if |calls| > 0 {
      var d := |calls| - 1;
      SpentAtMost(size, calls[..d]);
      assert calls[d].entry < size;
      assert size * |calls| == size * d + size;
    }
  }

  lemma PaidBound(pr: Problem, cache: set<Point>, points: seq<Point>, calls: seq<Frame>, entry: nat, steps: nat)
    requires Known(pr, cache, points) && Paid(2 * |pr.ops|, |cache|, calls, entry, steps) && entry < 2 * |pr.ops|
    ensures steps < Bound(pr.ops)
  {
    var size, all := 2 * |pr.ops|, Reached(pr.ops, |pr.ops|);
    ReachedGrows(pr.ops, 0, |pr.ops|);
    assert START in Reached(pr.ops, 0);
    hide Reached;
    SpentAtMost(size, calls);
    assert all == (all - {START}) + {START};
    assert all - {START} == cache + (all - {START} - cache);
    assert size * (|cache| - |calls|) + size * |calls| == size * |cache|;
    MulGrows(size, size, |cache| + 1, |all|);
    assert size * (|cache| + 1) == size * |cache| + size;
  }

  /** The search has come to cell `entry` of the last list on its path, in that many steps. */
  ghost predicate Searching(pr: Problem, cache: set<Point>, calls: seq<Frame>, points: seq<Point>,
                            lists: seq<seq<ListNode>>, entry: nat, steps: nat)
  {
    && Layout(pr) && PathOk(pr, calls, points, lists) && CacheOk(pr, cache, points)
    && Scanned(pr, points[|calls|], entry)
    && Known(pr, cache, points) && Paid(2 * |pr.ops|, |cache|, calls, entry, steps)
  }

  lemma StartSearching(pr: Problem, s: seq<ListNode>)
    requires Layout(pr) && SameShape(s, pr.base) && Linked(s, Cells(pr, {}))
    ensures |s| == 2 * |pr.ops| + 1 && Searching(pr, {}, [], [START], [s], s[|s| - 1].next, 0)
    ensures s[|s| - 1].next in Cells(pr, {}) || s[|s| - 1].next == |s| - 1
  {
    hide Linked, Layout, PathOk, CacheOk, Scanned, Known, Paid;
    StartPath(pr, s);
    SearchFacts(pr, [], [START], [s]);
    HeadScanned(pr, START, s);
    EmptyCache(pr, [START]);
    StartKnown(pr);
    StartPaid(2 * |pr.ops|, s[|s| - 1].next);
  }

  lemma FoundAll(pr: Problem, cache: set<Point>, calls: seq<Frame>, points: seq<Point>, lists: seq<seq<ListNode>>,
                 steps: nat)
    requires Searching(pr, cache, calls, points, lists, 2 * |pr.ops|, steps)
    ensures !Dead(pr, START)
  {
    hide Layout, PathOk, CacheOk, Scanned, Known, Paid, Dead, ListAt;
    SearchFacts(pr, calls, points, lists);
    EndIsAll(pr, points[|calls|]);
    PathKeepsFinish(pr, calls, points, lists, |calls|);
  }

  lemma InBound(pr: Problem, cache: set<Point>, calls: seq<Frame>, points: seq<Point>, lists: seq<seq<ListNode>>,
                entry: nat, steps: nat)
    requires Searching(pr, cache, calls, points, lists, entry, steps) && |points| == |calls| + 1
    requires entry in Cells(pr, points[|calls|].placed)
    ensures entry < 2 * |pr.ops| && steps < Bound(pr.ops)
  {
    hide PathOk, CacheOk, Scanned, Known, Paid, Bound;
    PaidBound(pr, cache, points, calls, entry, steps);
  }

  /** The cell under the scan belongs to an operation not placed yet. */
  lemma EntryFacts(pr: Problem, cache: set<Point>, calls: seq<Frame>, points: seq<Point>, lists: seq<seq<ListNode>>,
                   entry: nat, steps: nat)
    requires Searching(pr, cache, calls, points, lists, entry, steps) && |points| == |calls| + 1 == |lists|
    requires entry in Cells(pr, points[|calls|].placed)
    ensures var s := lists[|calls|];
      && entry < |s| - 1 == 2 * |pr.ops| && s[entry].isCall == pr.base[entry].isCall && s[entry].op == pr.base[entry].op
      && s[entry].op < |pr.ops| && s[entry].op !in points[|calls|].placed
  {
    hide PathOk, CacheOk, Scanned, Known, Paid, Linked;
    SearchFacts(pr, calls, points, lists);
  }

  /** The call under the scan is placed next. */
  lemma Chosen(pr: Problem, cache: set<Point>, calls: seq<Frame>, points: seq<Point>, lists: seq<seq<ListNode>>,
               entry: nat, steps: nat)
    requires Searching(pr, cache, calls, points, lists, entry, steps) && |points| == |calls| + 1 == |lists|
    requires entry in Cells(pr, points[|calls|].placed) && pr.base[entry].isCall && pr.base[entry].op < |pr.ops|
    requires StepReg(points[|calls|].state, pr.ops[pr.base[entry].op]).0
    requires PlaceNext(pr.ops, points[|calls|], pr.base[entry].op) !in cache
    ensures var s := lists[|calls|];
      entry < |s| == 2 * |pr.ops| + 1 && s[entry].peer < |s|
      && Near(s, entry) && Near(Unlinked(s, entry), s[entry].peer)
    ensures var pt, s := points[|calls|], lists[|calls|];
      var q, t := PlaceNext(pr.ops, pt, pr.base[entry].op), Lifted(s, entry);
      && |t| == |s| && (t[|s| - 1].next in Cells(pr, q.placed) || t[|s| - 1].next == |s| - 1)
      && Searching(pr, cache + {q}, calls + [Frame(entry, pt.state)], points + [q], lists + [t], t[|s| - 1].next,
                   steps + 1)
  {
    hide Layout, PathOk, CacheOk, Scanned, Known, Paid, Unlinked, Near, Cells, CanPlace, ListAt;
    var pt, s := points[|calls|], lists[|calls|];
    var i := pr.base[entry].op;
    var q := PlaceNext(pr.ops, pt, i);
    ScannedMayGo(pr, pt, entry);
    SearchFacts(pr, calls, points, lists);
    PushKeepsPath(pr, calls, points, lists, entry, q.state);
    var t, more := Lifted(s, entry), calls + [Frame(entry, pt.state)];
    SearchFacts(pr, more, points + [q], lists + [t]);
    PathFits(pr, more, points + [q], lists + [t]);
    HeadScanned(pr, q, t);
    CachePushes(pr, cache, points, q);
    PushKnown(pr, cache, points, i);
    CellBelow(pr, pt.placed, entry);
    PaidPush(2 * |pr.ops|, |cache|, calls, entry, steps, Frame(entry, pt.state), t[|s| - 1].next);
    assert |cache + {q}| == |cache| + 1;
  }

  lemma CellBelow(pr: Problem, placed: set<nat>, e: nat)
    requires Layout(pr) && e in Cells(pr, placed)
    ensures e < 2 * |pr.ops|
  {
  }

  /** A call whose placing is cached need not be tried. */
  lemma CachedNext(pr: Problem, cache: set<Point>, calls: seq<Frame>, points: seq<Point>, lists: seq<seq<ListNode>>,
                   entry: nat, steps: nat)
    requires Searching(pr, cache, calls, points, lists, entry, steps) && |points| == |calls| + 1
    requires Layout(pr) && entry in Cells(pr, points[|calls|].placed)
    requires pr.base[entry].op < |pr.ops| && PlaceNext(pr.ops, points[|calls|], pr.base[entry].op) in cache
    ensures Tried(pr, points[|calls|], pr.base[entry].op)
  {
    hide Layout, PathOk, CacheOk, Scanned, Known, Paid;
    CachedIsTried(pr, cache, calls, points, lists, pr.base[entry].op);
  }

  /** The scan goes on past a call that was tried. */
  lemma Passed(pr: Problem, cache: set<Point>, calls: seq<Frame>, points: seq<Point>, lists: seq<seq<ListNode>>,
               entry: nat, steps: nat)
    requires Searching(pr, cache, calls, points, lists, entry, steps) && |points| == |calls| + 1 == |lists|
    requires entry in Cells(pr, points[|calls|].placed) && pr.base[entry].isCall && pr.base[entry].op < |pr.ops|
    requires Tried(pr, points[|calls|], pr.base[entry].op)
    ensures var s := lists[|calls|];
      && entry < |s| == 2 * |pr.ops| + 1
      && (s[entry].next in Cells(pr, points[|calls|].placed) || s[entry].next == |s| - 1)
      && Searching(pr, cache, calls, points, lists, s[entry].next, steps + 1)
  {
    hide Layout, PathOk, CacheOk, Scanned, Known, Paid, Cells, ListAt, Tried;
    SearchFacts(pr, calls, points, lists);
    NextScanned(pr, points[|calls|], lists[|calls|], entry);
    PaidOn(2 * |pr.ops|, |cache|, calls, entry, steps, lists[|calls|][entry].next);
  }

  /** A return in the way ends the last configuration. */
  lemma StuckHere(pr: Problem, cache: set<Point>, calls: seq<Frame>, points: seq<Point>, lists: seq<seq<ListNode>>,
                  entry: nat, steps: nat)
    requires Searching(pr, cache, calls, points, lists, entry, steps) && |points| == |calls| + 1
    requires entry in Cells(pr, points[|calls|].placed) && !pr.base[entry].isCall
    ensures Dead(pr, points[|calls|])
  {
    hide Layout, PathOk, CacheOk, Scanned, Known, Paid, Dead, Cells;
    StuckIsDead(pr, points[|calls|], entry);
  }

  /** Putting back the cells that frame `f` took out turns `t` into `s`, and `b` into `a`. */
  ghost predicate PutsBack(f: Frame, a: Point, b: Point, s: seq<ListNode>, t: seq<ListNode>) {
    && f.entry < |t| == |s| && f.prior == a.state && a.placed == b.placed - {t[f.entry].op}
    && Near(t, t[f.entry].peer) && Near(Relinked(t, t[f.entry].peer), f.entry)
    && Relinked(Relinked(t, t[f.entry].peer), f.entry) == s
  }

  lemma UndonePutsBack(pr: Problem, f: Frame, a: Point, b: Point, s: seq<ListNode>, t: seq<ListNode>)
    requires Layout(pr) && Undone(pr, f, a, b, s, t)
    ensures PutsBack(f, a, b, s, t)
  {
    hide Layout, Scanned, Cells, Near, Relinked;
  }

  /** Putting back the cells of the last choice gives the list before it. */
  lemma PutBack(pr: Problem, cache: set<Point>, calls: seq<Frame>, points: seq<Point>, lists: seq<seq<ListNode>>,
                entry: nat, steps: nat)
    requires Searching(pr, cache, calls, points, lists, entry, steps) && |calls| > 0
    ensures |points| == |calls| + 1 == |lists|
    ensures var d := |calls| - 1; PutsBack(calls[d], points[d], points[d + 1], lists[d], lists[d + 1])
  {
    hide Layout, PathOk, CacheOk, Scanned, Known, Paid, Cells, ListAt, Undone, PutsBack;
    var d := |calls| - 1;
    PopKeepsPath(pr, calls, points, lists);
    UndonePutsBack(pr, calls[d], points[d], points[d + 1], lists[d], lists[d + 1]);
  }

  /** The last choice is undone, and the scan goes on behind it. */
  lemma TakenBack(pr: Problem, cache: set<Point>, calls: seq<Frame>, points: seq<Point>, lists: seq<seq<ListNode>>,
                  entry: nat, steps: nat)
    requires Searching(pr, cache, calls, points, lists, entry, steps) && |calls| > 0
    requires |points| == |calls| + 1 == |lists| && entry in Cells(pr, points[|calls|].placed)
    requires Dead(pr, points[|calls|])
    ensures var d := |calls| - 1; var f, a, s := calls[d], points[d], lists[d];
      && f.entry < |s| == 2 * |pr.ops| + 1 && (s[f.entry].next in Cells(pr, a.placed) || s[f.entry].next == |s| - 1)
      && Searching(pr, cache, calls[..d], points[..d + 1], lists[..d + 1], s[f.entry].next, steps + 1)
  {
    hide Layout, PathOk, CacheOk, Scanned, Known, Paid, Cells, ListAt, Dead, Tried, Undone;
    var d := |calls| - 1;
    var f, a, b, s := calls[d], points[d], points[d + 1], lists[d];
    PopKeepsPath(pr, calls, points, lists);
    UndoneScan(pr, f, a, b, s, lists[d + 1]);
    SearchFacts(pr, calls[..d], points[..d + 1], lists[..d + 1]);
    CachePops(pr, cache, points);
    PopKnown(pr, cache, points);
    NextScanned(pr, a, s, f.entry);
    CellBelow(pr, b.placed, entry);
    PaidPop(2 * |pr.ops|, |cache|, calls, entry, steps, s[f.entry].next);
  }

  /** What the scan had come to when the choice was made, now that it leads nowhere. */
  lemma UndoneScan(pr: Problem, f: Frame, a: Point, b: Point, s: seq<ListNode>, t: seq<ListNode>)
    requires Layout(pr) && Undone(pr, f, a, b, s, t) && Dead(pr, b)
    ensures Scanned(pr, a, f.entry) && f.entry in Cells(pr, a.placed) && f.entry < |pr.base|
    ensures pr.base[f.entry].isCall && pr.base[f.entry].op < |pr.ops| && Tried(pr, a, pr.base[f.entry].op)
  {
    hide Layout, Scanned, Cells, Near, Relinked, Dead, Tried;
    DeadIsTried(pr, a, pr.base[f.entry].op);
  }

  /**
   Within its budget the search decides linearizability exactly: it answers Legal when some order of
   all operations is legal, Violation when none is, and Unknown only when the budget ran out, which
   is less than the configurations that legal beginnings lead to, times the length of the list.
  */
  method CheckPartition(key: Text, ops: seq<Operation>, budget: nat) returns (v: Verdict, steps: nat)
    ensures v == Legal ==> Linearizable(multiset(ops))
    ensures v.Violation? ==> v.key == key && !Linearizable(multiset(ops))
    ensures v.Unknown? ==> v.key == key && steps > budget && budget < Bound(ops)
    ensures steps <= budget + 1
  {
    hide Linked, SameShape, Unlinked, Relinked, Near, Layout, Searching, Dead, Tried, Linearizable, Cells, Bound;
    steps := 0;
    if |ops| == 0 {
      NothingIsLegal(ops);
      return Legal, 0;
    }
    ghost var pr;
    var nodes;
    nodes, pr := BuildList(ops);
    StartIsWhole(pr);
    var sentinel := 2 * |ops|;
    var linearized: set<nat> := {};
    var cache: set<Point> := {};
    var calls: seq<Frame> := [];
    var state: Reg := None;
    ghost var points := [START];
    ghost var lists := [nodes[..]];
    StartSearching(pr, nodes[..]);
    var entry := nodes[sentinel].next;
    while true
      invariant pr.ops == ops && Layout(pr) && nodes.Length == 2 * |ops| + 1
      invariant |points| == |calls| + 1 == |lists| && points[0] == START && points[|calls|] == Point(linearized, state)
      invariant lists[|calls|] == nodes[..]
      invariant entry == sentinel || entry in Cells(pr, linearized)
      invariant Searching(pr, cache, calls, points, lists, entry, steps)
      invariant steps <= budget
      decreases budget - steps
    {
      if entry == sentinel {
        FoundAll(pr, cache, calls, points, lists, steps);
        return Legal, steps;
      }
      InBound(pr, cache, calls, points, lists, entry, steps);
      ghost var seen := steps;
      steps := steps + 1;
      if steps > budget {
        return Unknown(key), steps;
      }
      EntryFacts(pr, cache, calls, points, lists, entry, seen);
      if nodes[entry].isCall {
        var i := nodes[entry].op;
        var (ok, next) := StepReg(state, ops[i]);
        var advanced := false;
        if ok {
          var bits := linearized + {i};
          if Point(bits, next) !in cache {
            Chosen(pr, cache, calls, points, lists, entry, seen);
            cache := cache + {Point(bits, next)};
            linearized := bits;
            calls := calls + [Frame(entry, state)];
            state := next;
            var ret := nodes[entry].peer;
            ghost var was := nodes[..];
            Unlink(nodes, entry);
            UnlinkedAt(was, entry, entry);
            Unlink(nodes, ret);
            points := points + [Point(bits, next)];
            lists := lists + [nodes[..]];
            entry := nodes[sentinel].next;
            advanced := true;
          } else {
            CachedNext(pr, cache, calls, points, lists, entry, seen);
          }
        } else {
          RefusedIsTried(pr, points[|calls|], i);
        }
        if !advanced {
          Passed(pr, cache, calls, points, lists, entry, seen);
          entry := nodes[entry].next;
        }
      } else {
        StuckHere(pr, cache, calls, points, lists, entry, seen);
        if |calls| == 0 {
          return Violation(key), steps;
        }
        var d := |calls| - 1;
        var Frame(call, prior) := calls[d];
        PutBack(pr, cache, calls, points, lists, entry, seen);
        TakenBack(pr, cache, calls, points, lists, entry, seen);
        var i := nodes[call].op;
        linearized := linearized - {i};
        state := prior;
        var ret := nodes[call].peer;
        Relink(nodes, ret);
        Relink(nodes, call);
        calls, points, lists := calls[..d], points[..d + 1], lists[..d + 1];
        entry := nodes[call].next;
      }
    }
  }

  lemma NothingIsLegal(ops: seq<Operation>)
    requires |ops| == 0
    ensures Linearizable(multiset(ops))
  {
    assert IsLinearization(multiset(ops), []);
  }

  lemma EmptyCache(pr: Problem, points: seq<Point>)
    ensures CacheOk(pr, {}, points)
  {
  }

  lemma CachePushes(pr: Problem, cache: set<Point>, points: seq<Point>, q: Point)
    requires CacheOk(pr, cache, points)
    ensures CacheOk(pr, cache + {q}, points + [q])
  {
    hide Dead;
    assert q == (points + [q])[|points|];
    forall c | c in cache + {q} ensures c in points + [q] || Dead(pr, c) {
      if c in points { assert c in points + [q]; }
    }
  }

  lemma RefusedIsTried(pr: Problem, pt: Point, i: nat)
    requires i < |pr.ops| && !StepReg(pt.state, pr.ops[i]).0
    ensures Tried(pr, pt, i)
  {
  }

  lemma DeadIsTried(pr: Problem, pt: Point, i: nat)
    requires i < |pr.ops| && Dead(pr, Point(pt.placed + {i}, StepReg(pt.state, pr.ops[i]).1))
    ensures Tried(pr, pt, i)
  {
  }

  /** The path's end: its list and its size. */
  lemma SearchFacts(pr: Problem, calls: seq<Frame>, points: seq<Point>, lists: seq<seq<ListNode>>)
    requires Layout(pr) && PathOk(pr, calls, points, lists)
    ensures |points| == |calls| + 1 == |lists| && points[0] == START
    ensures ListAt(pr, points[|calls|], lists[|calls|]) && |lists[|calls|]| == 2 * |pr.ops| + 1
    ensures points[|calls|].placed <= Positions(|pr.ops|)
  {
    hide Lift;
  }

  lemma PathFits(pr: Problem, calls: seq<Frame>, points: seq<Point>, lists: seq<seq<ListNode>>)
    requires Layout(pr) && PathOk(pr, calls, points, lists)
    ensures |calls| <= |pr.ops|
  {
    hide Lift, Layout, Linked, SameShape;
    PositionsSize(|pr.ops|);
    assert Positions(|pr.ops|) == points[|calls|].placed + (Positions(|pr.ops|) - points[|calls|].placed);
  }

  lemma {:induction false} PositionsSize(n: nat)
    ensures |Positions(n)| == n
  {
    if n > 0 { PositionsSize(n - 1); }
  }

  // ---- a whole history -----------------------------------------------------------------------

  /** The operations of each key, in the order of the history. */
  ghost predicate ByKey(ops: seq<Operation>, byKey: map<Text, seq<Operation>>) {
    byKey.Keys == Keys(ops) && forall key :: key in byKey ==> byKey[key] == OnKey(ops, key)
  }

  function AddTo(byKey: map<Text, seq<Operation>>, o: Operation): map<Text, seq<Operation>> {
    match KeyOf(o.op)
    case None => byKey
    case Some(key) => byKey[key := (if key in byKey then byKey[key] else []) + [o]]
  }

  lemma KeysAppend(ops: seq<Operation>, o: Operation, key: Text)
    ensures key in Keys(ops + [o]) <==> key in Keys(ops) || KeyOf(o.op) == Some(key)
  {
    assert forall x :: x in ops + [o] <==> x in ops || x == o;
  }

  lemma KeysNone(ops: seq<Operation>, key: Text)
    requires key !in Keys(ops)
    ensures OnKey(ops, key) == []
  {
    NoKey(ops, key);
  }

  lemma ByKeyGrows(ops: seq<Operation>, o: Operation, byKey: map<Text, seq<Operation>>)
    requires ByKey(ops, byKey)
    ensures ByKey(ops + [o], AddTo(byKey, o))
  {
    hide OnKey, Keys;
    forall key
      ensures key in Keys(ops + [o]) <==> key in Keys(ops) || KeyOf(o.op) == Some(key)
      ensures OnKey(ops + [o], key) == OnKey(ops, key) + (if KeyOf(o.op) == Some(key) then [o] else [])
      ensures key !in Keys(ops) ==> OnKey(ops, key) == []
    {
      KeysAppend(ops, o, key);
      OnKeyAppend(ops, [o], key);
      OnKeyAll([o], key);
      if key !in Keys(ops) { KeysNone(ops, key); }
    }
  }

  method Partition(ops: seq<Operation>) returns (byKey: map<Text, seq<Operation>>)
    ensures ByKey(ops, byKey)
  {
    hide ByKey;
    byKey := map[];
    ByNoKey();
    for m := 0 to |ops|
      invariant ByKey(ops[..m], byKey)
    {
      var o := ops[m];
      ByKeyGrows(ops[..m], o, byKey);
      assert ops[..m + 1] == ops[..m] + [o];
      if KeyOf(o.op).Some? {
        var key := KeyOf(o.op).value;
        byKey := byKey[key := (if key in byKey then byKey[key] else []) + [o]];
      }
    }
    assert ops[..|ops|] == ops;
  }

  lemma ByNoKey()
    ensures ByKey([], map[])
  {
  }

  /**
   The verdict on a whole history: Legal exactly vouches for one legal order over the map, Violation
   names a key whose operations have none, so that the history has none either, and Unknown names one
   whose operations lead to more configurations than the budget is enough for (`steps`: those of the
   last key searched).
  */
  method CheckHistory(ops: seq<Operation>, budget: nat) returns (v: Verdict, steps: nat)
    ensures v == Legal ==> MapLinearizable(ops)
    ensures v.Violation? ==> !Linearizable(multiset(OnKey(ops, v.key))) && !MapLinearizable(ops)
    ensures v.Unknown? ==> v.key in Keys(ops) && steps > budget && budget < Bound(OnKey(ops, v.key))
    ensures steps <= budget + 1
  {
    hide Bound;
    hide MapLinearizable, Linearizable;
    var byKey := Partition(ops);
    var todo := byKey.Keys;
    LocalityTheorem(ops);
    steps := 0;
    while todo != {}
      invariant todo <= byKey.Keys && steps <= budget + 1
      invariant forall key :: key in byKey && key !in todo ==> Linearizable(multiset(byKey[key]))
      decreases |todo|
    {
      var key :| key in todo;
      v, steps := CheckPartition(key, byKey[key], budget);
      if v != Legal { return; }
      todo := todo - {key};
    }
    v := Legal;
  }
}
