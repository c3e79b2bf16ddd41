/**
 A Raft node that updates its fields in place, event by event. Each handler does to the fields, and
 hands to the network, exactly what its function in `RaftSpec` says of the node's value.
*/
module RaftNode {
  import opened Types
  import opened RaftSpec

  // ---- the index a quorum holds ----------------------------------------------------------

  /** How many of the numbers are at least `k`. */
  function AtLeast(s: seq<nat>, k: nat): nat {
    if |s| == 0 then 0 else AtLeast(s[..|s| - 1], k) + (if s[|s| - 1] >= k then 1 else 0)
  }

  predicate Descending(s: seq<nat>) { forall i, j :: 0 <= i < j < |s| ==> s[i] >= s[j] }

  function InsertDescending(s: seq<nat>, x: nat): (r: seq<nat>)
    requires Descending(s)
    ensures Descending(r) && |r| == |s| + 1
    ensures forall y :: y in r ==> y in s || y == x
  {
    if |s| == 0 || s[|s| - 1] >= x then s + [x]
    else
      var init, last := s[..|s| - 1], s[|s| - 1];
      assert s == init + [last];
      assert Descending(init);
      var r := InsertDescending(init, x);
      assert forall y :: y in r ==> y >= last;
      assert forall i :: 0 <= i < |r| ==> r[i] in r;
      r + [last]
  }

  lemma {:induction false} InsertCounts(s: seq<nat>, x: nat, k: nat)
    requires Descending(s)
    ensures AtLeast(InsertDescending(s, x), k) == AtLeast(s, k) + (if x >= k then 1 else 0)
  {
    if |s| == 0 || s[|s| - 1] >= x {
      assert (s + [x])[..|s|] == s;
    } else {
      InsertCounts(s[..|s| - 1], x, k);
      var r := InsertDescending(s[..|s| - 1], x);
      assert (r + [s[|s| - 1]])[..|r|] == r;
    }
  }

  lemma {:induction false} AtLeastBounds(s: seq<nat>, i: nat)
    requires Descending(s) && i < |s|
    ensures AtLeast(s, s[i]) >= i + 1 && AtLeast(s, s[i] + 1) <= i
  {
    var init := s[..|s| - 1];
    if i < |s| - 1 {
      AtLeastBounds(init, i);
    } else if i > 0 {
      AtLeastAll(init, s[i]);
      AtLeastMost(init, s[i] + 1);
    } else {
      assert init == [];
    }
  }

  lemma {:induction false} AtLeastAll(s: seq<nat>, k: nat)
    requires forall i :: 0 <= i < |s| ==> s[i] >= k
    ensures AtLeast(s, k) == |s|
  {
    if |s| > 0 { AtLeastAll(s[..|s| - 1], k); }
  }

  lemma {:induction false} AtLeastMost(s: seq<nat>, k: nat)
    ensures AtLeast(s, k) <= |s|
  {
    if |s| > 0 { AtLeastMost(s[..|s| - 1], k); }
  }

  /** The members among `ids` that hold index `k`. */
  function HoldersIn(n: Node, ids: set<NodeId>, k: nat): set<NodeId> {
    set m | m in ids && MatchOf(n, m) >= k
  }

  lemma HoldersAdd(n: Node, ids: set<NodeId>, m: NodeId, k: nat)
    requires m !in ids
    ensures |HoldersIn(n, ids + {m}, k)| == |HoldersIn(n, ids, k)| + (if MatchOf(n, m) >= k then 1 else 0)
  {
    if MatchOf(n, m) >= k {
      assert HoldersIn(n, ids + {m}, k) == HoldersIn(n, ids, k) + {m};
    } else {
      assert HoldersIn(n, ids + {m}, k) == HoldersIn(n, ids, k);
    }
  }

  lemma HoldersShrink(n: Node, k: nat, l: nat)
    requires k <= l
    ensures |Holders(n, l)| <= |Holders(n, k)|
  {
    assert Holders(n, k) == Holders(n, l) + (Holders(n, k) - Holders(n, l));
  }

  /** There is at most one greatest index held by a quorum. */
  lemma QuorumIndexUnique(n: Node, k: nat, l: nat)
    requires IsQuorumIndex(n, k) && IsQuorumIndex(n, l)
    ensures k == l
  {
    if k < l { HoldersShrink(n, k + 1, l); }
    if l < k { HoldersShrink(n, l + 1, k); }
  }

  // ---- durable ranges ------------------------------------------------------------------------

  lemma {:induction false} ReachStep(at: nat, parked: seq<(nat, nat)>, cap: nat, to: nat)
    requires at <= to <= cap && forall i :: at < i <= to ==> Covered(parked, i)
    ensures Reach(at, parked, cap) == Reach(to, parked, cap)
    decreases cap - at
  {
    if at < to {
      assert Covered(parked, at + 1);
      ReachStep(at + 1, parked, cap, to);
    }
  }

  /**
   The claim goes as far as it can: to the greatest index under the cap with everything from the old
   claim on covered.
  */
  lemma ReachGreatest(at: nat, parked: seq<(nat, nat)>, cap: nat, e: nat)
    requires at <= e <= cap && forall i :: at < i <= e ==> Covered(parked, i)
    ensures e <= Reach(at, parked, cap)
    ensures forall i :: at < i <= Reach(at, parked, cap) ==> Covered(parked, i) && i <= cap
  {
    ReachStep(at, parked, cap, e);
  }

  /** In whatever order the ranges came, the claim ends at the same index. */
  lemma ReachUnordered(at: nat, a: seq<(nat, nat)>, b: seq<(nat, nat)>, cap: nat)
    requires multiset(a) == multiset(b)
    ensures Reach(at, a, cap) == Reach(at, b, cap)
  {
    forall r ensures r in a <==> r in b { assert r in multiset(a) <==> r in multiset(b); }
    ReachSame(at, a, b, cap);
  }

  /** Only ranges that end above the claim matter to where it can go. */
  lemma {:induction false} ReachSame(at: nat, a: seq<(nat, nat)>, b: seq<(nat, nat)>, cap: nat)
    requires forall i :: i > at ==> (Covered(a, i) <==> Covered(b, i))
    ensures Reach(at, a, cap) == Reach(at, b, cap)
    decreases cap - at
  {
    if at < cap && Covered(a, at + 1) { ReachSame(at + 1, a, b, cap); }
  }

  lemma CoveredAbove(parked: seq<(nat, nat)>, at: nat, i: nat)
    requires i > at
    ensures Covered(Above(parked, at), i) <==> Covered(parked, i)
  {
    if Covered(parked, i) {
      var r :| r in parked && r.0 <= i <= r.1;
      assert r in Above(parked, at);
    }
  }

  lemma {:induction false} AboveAbove(parked: seq<(nat, nat)>, a: nat, b: nat)
    requires a <= b
    ensures Above(Above(parked, a), b) == Above(parked, b)
  {
    if |parked| > 0 { AboveAbove(parked[1..], a, b); }
  }

  lemma {:induction false} AboveAppend(p: seq<(nat, nat)>, q: seq<(nat, nat)>, at: nat)
    ensures Above(p + q, at) == Above(p, at) + Above(q, at)
  {
    hide Above;
    if |p| == 0 {
      AboveNone(at);
      assert p + q == q;
    } else {
      AboveAppend(p[1..], q, at);
      AboveFirst(p, at);
      AboveFirst(p + q, at);
      assert (p + q)[1..] == p[1..] + q;
    }
  }

  lemma AboveNone(at: nat)
    ensures Above([], at) == []
  {
  }

  lemma AboveFirst(p: seq<(nat, nat)>, at: nat)
    requires |p| > 0
    ensures Above(p, at) == (if p[0].1 > at then [p[0]] else []) + Above(p[1..], at)
  {
  }

  /** A range that ends at the claim is dropped anyway. */
  lemma AboveWithout(parked: seq<(nat, nat)>, k: nat, at: nat)
    requires k < |parked| && parked[k].1 <= at
    ensures Above(parked[..k] + parked[k + 1..], at) == Above(parked, at)
  {
    assert parked == parked[..k] + ([parked[k]] + parked[k + 1..]);
    AboveAppend(parked[..k], [parked[k]] + parked[k + 1..], at);
    AboveAppend([parked[k]], parked[k + 1..], at);
    AboveAppend(parked[..k], parked[k + 1..], at);
    var one := [parked[k]];
    assert one[1..] == [];
    assert Above(one, at) == Above(one[1..], at) == [];
  }

  /** One turn of the loop: the claim moves up through a range, and the destination stays. */
  lemma AdvanceOnce(at: nat, parked: seq<(nat, nat)>, cap: nat, k: nat)
    requires k < |parked| && parked[k].0 <= at + 1 && parked[k].1 > at && at < cap
    ensures var claim := Min(parked[k].1, cap);
      var rest := if claim == parked[k].1 then parked[..k] + parked[k + 1..] else parked;
      Reach(claim, rest, cap) == Reach(at, parked, cap) && forall b :: b >= claim ==> Above(rest, b) == Above(parked, b)
  {
    var claim := Min(parked[k].1, cap);
    var rest := if claim == parked[k].1 then parked[..k] + parked[k + 1..] else parked;
    forall i | at < i <= claim ensures Covered(parked, i) { assert parked[k] in parked; }
    ReachStep(at, parked, cap, claim);
    forall b | b >= claim ensures Above(rest, b) == Above(parked, b) {
      if claim == parked[k].1 { AboveWithout(parked, k, b); }
    }
    forall i | i > claim ensures Covered(rest, i) <==> Covered(parked, i) {
      CoveredAbove(rest, claim, i);
      CoveredAbove(parked, claim, i);
    }
    ReachSame(claim, rest, parked, cap);
  }

  /** Where no range helps, the claim stays. */
  lemma AdvanceStops(at: nat, parked: seq<(nat, nat)>, cap: nat)
    requires forall r :: r in parked ==> !(r.0 <= at + 1 && r.1 > at && r.0 <= cap) || cap <= at
    ensures Reach(at, parked, cap) == at
  {
  }

  /** The first parked range that extends the claim. */
  method FindRange(parked: seq<(nat, nat)>, at: nat, cap: nat) returns (pos: Option<nat>)
    ensures pos.Some? ==>
      pos.value < |parked| && parked[pos.value].0 <= at + 1 && parked[pos.value].1 > at && parked[pos.value].0 <= cap
    ensures pos.None? ==> forall r :: r in parked ==> !(r.0 <= at + 1 && r.1 > at && r.0 <= cap)
  {
    for k := 0 to |parked|
      invariant forall j :: 0 <= j < k ==> !(parked[j].0 <= at + 1 && parked[j].1 > at && parked[j].0 <= cap)
    {
      if parked[k].0 <= at + 1 && parked[k].1 > at && parked[k].0 <= cap { return Some(k); }
    }
    pos := None;
  }

  method Retain(parked: seq<(nat, nat)>, at: nat) returns (kept: seq<(nat, nat)>)
    ensures kept == Above(parked, at)
  {
    kept := [];
    for k := 0 to |parked|
      invariant kept == Above(parked[..k], at)
    {
      assert parked[..k + 1] == parked[..k] + [parked[k]];
      AboveAppend(parked[..k], [parked[k]], at);
      if parked[k].1 > at { kept := kept + [parked[k]]; }
    }
    assert parked[..|parked|] == parked;
  }

  /** Claim one range after another, going round again while any of them went further. */
  method Extend(durable: nat, ranges: seq<(nat, nat)>, cap: nat) returns (d: nat, parked: seq<(nat, nat)>)
    ensures d == Reach(durable, ranges, cap) && parked == Above(ranges, d)
  {
    d, parked := durable, ranges;
    while true
      invariant Reach(d, parked, cap) == Reach(durable, ranges, cap)
      invariant forall b :: b >= d ==> Above(parked, b) == Above(ranges, b)
      decreases cap - d
    {
      ghost var before := parked;
      parked := Retain(parked, d);
      forall i | i > d ensures Covered(parked, i) <==> Covered(before, i) { CoveredAbove(before, d, i); }
      ReachSame(d, parked, before, cap);
      forall b | b >= d ensures Above(parked, b) == Above(ranges, b) { AboveAbove(before, d, b); }
      var pos := FindRange(parked, d, cap);
      if pos.None? {
        AdvanceStops(d, parked, cap);
        break;
      }
      var to := parked[pos.value].1;
      var claim := Min(to, cap);
      if claim <= d {
        AdvanceStops(d, parked, cap);
        break;
      }
      AdvanceOnce(d, parked, cap, pos.value);
      if claim == to { parked := parked[..pos.value] + parked[pos.value + 1..]; }
      d := claim;
    }
  }

  // ---- cutting claims ------------------------------------------------------------------------

  method ClampBatches(batches: seq<Batch>, cap: nat) returns (r: seq<Batch>)
    ensures r == ClampAll(batches, cap)
  {
    r := batches;
    for k := 0 to |batches|
      invariant |r| == |batches|
      invariant forall j :: 0 <= j < k ==> r[j] == batches[j].(action := Clamp(batches[j].action, cap))
      invariant forall j :: k <= j < |r| ==> r[j] == batches[j]
    {
      r := r[k := r[k].(action := Clamp(r[k].action, cap))];
    }
  }

  lemma {:induction false} ClampAppend(p: seq<(nat, nat)>, r: (nat, nat), cap: nat)
    ensures ClampRanges(p + [r], cap) == ClampRanges(p, cap) + (if r.0 <= cap then [(r.0, Min(r.1, cap))] else [])
  {
    if |p| == 0 {
      assert p + [r] == [r] && (p + [r])[1..] == [];
      assert ClampRanges((p + [r])[1..], cap) == [];
    } else {
      ClampAppend(p[1..], r, cap);
      assert (p + [r])[1..] == p[1..] + [r];
    }
  }

  method ClampParked(parked: seq<(nat, nat)>, cap: nat) returns (r: seq<(nat, nat)>)
    ensures r == ClampRanges(parked, cap)
  {
    r := [];
    for k := 0 to |parked|
      invariant r == ClampRanges(parked[..k], cap)
    {
      assert parked[..k + 1] == parked[..k] + [parked[k]];
      ClampAppend(parked[..k], parked[k], cap);
      if parked[k].0 <= cap { r := r + [(parked[k].0, Min(parked[k].1, cap))]; }
    }
    assert parked[..|parked|] == parked;
  }

  lemma UnreadyNone(n: Node)
    ensures Unready(n, []) == []
  {
  }

  lemma {:induction false} UnreadyAppend(n: Node, p: seq<PendingRead>, r: PendingRead)
    ensures Unready(n, p + [r]) == Unready(n, p) + (if Ready(n, r) then [] else [r])
  {
    hide Ready;
    if |p| == 0 {
      assert p + [r] == [r] && (p + [r])[1..] == [];
      assert Unready(n, (p + [r])[1..]) == [];
    } else {
      UnreadyAppend(n, p[1..], r);
      assert (p + [r])[1..] == p[1..] + [r];
    }
  }

  /** Look for the first entry that is new here or contradicts what is here; an old duplicate has none. */
  method ScanEntries(log: seq<Entry>, prev: nat, entries: seq<Entry>) returns (k: nat)
    ensures k == FirstNew(log, prev, entries)
  {
    hide FirstNew;
    k := 0;
    assert entries[0..] == entries;
    while k < |entries| && prev + k < |log| && log[prev + k].term == entries[k].term
      invariant k <= |entries| && k + FirstNew(log, prev + k, entries[k..]) == FirstNew(log, prev, entries)
    {
      NextKnown(log, prev + k, entries[k..]);
      assert entries[k..][1..] == entries[k + 1..];
      k := k + 1;
    }
    NothingKnown(log, prev + k, entries[k..]);
  }

  lemma NextKnown(log: seq<Entry>, prev: nat, entries: seq<Entry>)
    requires |entries| > 0 && prev < |log| && log[prev].term == entries[0].term
    ensures FirstNew(log, prev, entries) == 1 + FirstNew(log, prev + 1, entries[1..])
  {
  }

  lemma NothingKnown(log: seq<Entry>, prev: nat, entries: seq<Entry>)
    requires |entries| == 0 || prev >= |log| || log[prev].term != entries[0].term
    ensures FirstNew(log, prev, entries) == 0
  {
  }

  lemma FirstNewFits(log: seq<Entry>, prev: nat, entries: seq<Entry>)
    requires prev <= |log|
    ensures prev + FirstNew(log, prev, entries) <= |log|
  {
  }

  // ---- sending to one peer after another ---------------------------------------------------

  /** The node as it starts to lead, before anything is written or sent. */
  function Led(n: Node): Node {
    n.(role := Leader, nextIndex := Filled(Peers(n), |n.log| + 1),
       matchIndex := Filled(Peers(n), NO_INDEX), probeAcked := map[],
       log := n.log + [Entry(n.term, |n.log| + 1, NOOP_COMMAND)])
  }

  lemma LedIs(n: Node)
    ensures var m := RaftSpec.StartPlain(Led(n), LogDurable(|n.log| + 1, |n.log| + 1, UNBOUNDED, None, 0));
      RaftSpec.BecomeLeader(n) == Reaction(m, RaftSpec.BroadcastAppend(m))
  {
    hide RaftSpec.BroadcastAppend;
    var led := RaftSpec.BecomeLeader(n).node;
    assert led.nextIndex == Led(n).nextIndex && led.matchIndex == Led(n).matchIndex;
  }

  method Fill(ps: set<NodeId>, v: nat) returns (m: map<NodeId, nat>)
    ensures m == Filled(ps, v)
  {
    m := map[];
    var todo := ps;
    while todo != {}
      invariant todo <= ps && m == Filled(ps - todo, v)
      decreases |todo|
    {
      var p :| p in todo;
      m := m[p := v];
      todo := todo - {p};
    }
    assert ps - {} == ps;
  }

  function Filled(ps: set<NodeId>, v: nat): map<NodeId, nat> { map p | p in ps :: v }

  function Addressed(n: Node, msg: Message, ps: set<NodeId>): set<Packet> {
    if msg.term > n.durableTerm then {} else set p | p in ps :: Packet(n.id, p, msg)
  }

  lemma AddressedAdd(n: Node, msg: Message, ps: set<NodeId>, p: NodeId)
    ensures Addressed(n, msg, ps + {p}) == Addressed(n, msg, ps) + RaftSpec.Send(n, p, msg)
  {
  }

  lemma AddressedAll(n: Node, msg: Message)
    ensures Addressed(n, msg, Peers(n)) == RaftSpec.Broadcast(n, msg) && Addressed(n, msg, {}) == {}
  {
  }

  function AppendsTo(n: Node, ps: set<NodeId>): set<Packet> { set p, q | p in ps && q in SendAppend(n, p) :: q }

  lemma AppendsAdd(n: Node, ps: set<NodeId>, p: NodeId)
    ensures AppendsTo(n, ps + {p}) == AppendsTo(n, ps) + SendAppend(n, p)
  {
    hide SendAppend;
  }

  lemma AppendsAll(n: Node)
    ensures AppendsTo(n, Peers(n)) == RaftSpec.BroadcastAppend(n) && AppendsTo(n, {}) == {}
  {
    hide SendAppend;
  }

  // ---- what an append may remove -----------------------------------------------------------

  /** No entry the append covers contradicts the log. */
  ghost predicate NoConflict(log: seq<Entry>, prev: nat, entries: seq<Entry>) {
    forall j :: 0 <= j < |entries| && prev + j < |log| ==> log[prev + j].term == entries[j].term
  }

  /** The log after the new part of matching entries is taken in. */
  function TakenLog(log: seq<Entry>, prev: nat, entries: seq<Entry>): seq<Entry>
    requires prev <= |log|
  {
    var k := FirstNew(log, prev, entries);
    if k < |entries| then log[..prev + k] + entries[k..] else log
  }

  lemma AcceptLog(n: Node, from: NodeId, prev: nat, entries: seq<Entry>, dirty: bool)
    requires prev <= |n.log|
    ensures Accept(n, from, prev, entries, dirty).node.log == TakenLog(n.log, prev, entries)
  {
    hide ClampAll, ClampRanges;
    var k := FirstNew(n.log, prev, entries);
    if prev + k == |n.log| { assert n.log[..prev + k] == n.log; }
  }

  lemma AppendLog(n: Node, from: NodeId, term: nat, prev: nat, prevTerm: nat, entries: seq<Entry>, commit: nat)
    ensures var log := OnAppendEntries(n, from, term, prev, prevTerm, entries, commit).node.log;
      log == n.log || (prev <= |n.log| && log == TakenLog(n.log, prev, entries))
  {
    hide Accept, TakenLog;
    if term >= n.term && TermAt(n.log, prev) == Some(prevTerm) {
      AcceptLog(Concede(if term > n.term then RaftSpec.StepDown(n, term) else n), from, prev, entries, term > n.term);
    }
  }

  /** An append that contradicts nothing removes nothing, however late or often it comes. */
  lemma MatchingAppendKeeps(n: Node, from: NodeId, term: nat, prev: nat, prevTerm: nat, entries: seq<Entry>,
                            commit: nat)
    requires NoConflict(n.log, prev, entries)
    ensures n.log <= OnAppendEntries(n, from, term, prev, prevTerm, entries, commit).node.log
  {
    hide OnAppendEntries;
    AppendLog(n, from, term, prev, prevTerm, entries, commit);
  }

  /** What an append removes begins at the first entry that contradicts the log; everything below stays. */
  lemma AppendRemovesFromConflict(n: Node, from: NodeId, term: nat, prev: nat, prevTerm: nat, entries: seq<Entry>,
                                  commit: nat)
    ensures var log := OnAppendEntries(n, from, term, prev, prevTerm, entries, commit).node.log;
      n.log <= log || exists k: nat :: Replaces(n.log, prev, entries, k, log)
  {
    hide OnAppendEntries;
    AppendLog(n, from, term, prev, prevTerm, entries, commit);
    var k := FirstNew(n.log, prev, entries);
    if k < |entries| && prev + k < |n.log| {
      assert Replaces(n.log, prev, entries, k, TakenLog(n.log, prev, entries));
    }
  }

  /** From position `prev + k`, where they contradict each other, the entries take the place of the log. */
  ghost predicate Replaces(log: seq<Entry>, prev: nat, entries: seq<Entry>, k: nat, log': seq<Entry>) {
    k < |entries| && prev + k < |log| && log[prev + k].term != entries[k].term && log' == log[..prev + k] + entries[k..]
  }

  // ---- the node -----------------------------------------------------------------------------

  class RaftNode {
    const id: NodeId
    const maxBatch: nat
    var members: set<NodeId>
    var role: Role
    var term: nat
    var votedFor: Option<NodeId>
    var log: seq<Entry>
    var commitIndex: nat
    var lastApplied: nat
    var votes: set<NodeId>
    var nextIndex: map<NodeId, nat>
    var matchIndex: map<NodeId, nat>
    var durableIndex: nat
    var parked: seq<(nat, nat)>
    var stateSeq: nat
    var durableTerm: nat
    var durableHard: HardState
    var batches: seq<Batch>
    var readSeq: nat
    var pendingReads: seq<PendingRead>
    var probeAcked: map<NodeId, nat>
    var failed: bool
    /** What was handed to the network. */
    var sent: set<Packet>

    ghost function View(): Node
      reads this
    {
      Node(id, members, maxBatch, role, term, votedFor, log, commitIndex, lastApplied, votes, nextIndex, matchIndex,
           durableIndex, parked, stateSeq, durableTerm, durableHard, batches, readSeq, pendingReads, probeAcked, failed)
    }

    /** The node did what `r` says. */
    twostate predicate Reacts(new r: Reaction)
      reads this
    {
      View() == r.node && sent == old(sent) + r.sent
    }

    /** Start from what the disk holds. */
    constructor (id: NodeId, members: set<NodeId>, maxBatch: nat, hs: HardState, log: seq<Entry>)
      ensures View() == Recovered(id, members, maxBatch, hs, log) && sent == {}
    {
      this.id, this.members, this.maxBatch := id, members, maxBatch;
      role, term, votedFor, this.log := Follower, hs.term, hs.votedFor, log;
      commitIndex, lastApplied, votes, nextIndex, matchIndex := 0, 0, {}, map[], map[];
      durableIndex, parked, stateSeq, durableTerm, durableHard := |log|, [], hs.seqno + 1, hs.term, hs;
      batches, readSeq, pendingReads, probeAcked, failed, sent := [], 0, [], map[], false, {};
    }

    // ---- sending and persisting

    method Send(to: NodeId, msg: Message)
      modifies this`sent
      ensures sent == old(sent) + RaftSpec.Send(old(View()), to, msg)
    {
      if msg.term > durableTerm { return; }
      sent := sent + {Packet(id, to, msg)};
    }

    method Broadcast(msg: Message)
      modifies this`sent
      ensures sent == old(sent) + RaftSpec.Broadcast(old(View()), msg)
    {
      hide Addressed, RaftSpec.Broadcast, RaftSpec.Send;
      var todo := members - {id};
      ghost var n := View();
      AddressedAll(n, msg);
      assert Peers(n) - Peers(n) == {};
      while todo != {}
        invariant todo <= Peers(n)
        invariant sent == old(sent) + Addressed(n, msg, Peers(n) - todo)
        decreases |todo|
      {
        var p :| p in todo;
        Send(p, msg);
        AddressedAdd(n, msg, Peers(n) - todo, p);
        assert Peers(n) - (todo - {p}) == Peers(n) - todo + {p};
        todo := todo - {p};
      }
      assert Peers(n) - {} == Peers(n);
      AddressedAll(n, msg);
    }

    method StartHard(action: Persist)
      modifies this`batches, this`stateSeq
      ensures View() == RaftSpec.StartHard(old(View()), action)
    {
      var hs := HardState(term, votedFor, stateSeq);
      stateSeq := stateSeq + 1;
      batches := batches + [Batch(action, Some(hs))];
    }

    method StartPlain(action: Persist)
      modifies this`batches
      ensures View() == RaftSpec.StartPlain(old(View()), action)
    {
      batches := batches + [Batch(action, None)];
    }

    // ---- durable claims

    /** Move the durable claim up over the parked ranges, then forget those below it. */
    method AdvanceDurable()
      modifies this`durableIndex, this`parked
      ensures View() == RaftSpec.AdvanceDurable(old(View()))
    {
      var cap := LastIndexAtMost(log, durableTerm);
      durableIndex, parked := Extend(durableIndex, parked, cap);
      if |parked| > PARKED_LIMIT { parked := []; }
    }

    // ---- elections

    method StepDown(t: nat)
      modifies this`term, this`votedFor, this`role, this`votes
      ensures View() == RaftSpec.StepDown(old(View()), t)
    {
      term, votedFor, role, votes := t, None, Follower, {};
    }

    method StepDownAndPersist(t: nat)
      modifies this
      ensures Reacts(Reaction(RaftSpec.StepDownAndPersist(old(View()), t), {}))
    {
      StepDown(t);
      StartHard(Quiet);
    }

    /** A new term, a vote for itself, and nothing else yet. */
    method Stand()
      modifies this`term, this`votedFor, this`role, this`votes
      ensures View() == old(View()).(term := old(term) + 1, votedFor := Some(id), role := Candidate, votes := {id})
    {
      term := term + 1;
      votedFor := Some(id);
      role := Candidate;
      votes := {id};
    }

    method BecomeCandidate()
      modifies this
      ensures Reacts(Reaction(RaftSpec.BecomeCandidate(old(View())), {}))
    {
      Stand();
      StartHard(Campaign(term));
    }

    method OnRequestVote(from: NodeId, t: nat, candidate: NodeId, lastIndex: nat, lastTerm: nat, ignore: bool)
      modifies this
      ensures Reacts(RaftSpec.OnRequestVote(old(View()), from, t, candidate, lastIndex, lastTerm, ignore))
    {
      if t < term {
        Send(from, RequestVoteResp(term, false));
        return;
      }
      if t > term && ignore { return; }
      var dirty := false;
      if t > term {
        StepDown(t);
        dirty := true;
      }
      var free := votedFor.None? || votedFor == Some(candidate);
      var granted := free && UpToDate(log, lastIndex, lastTerm);
      if granted && votedFor != Some(candidate) {
        votedFor := Some(candidate);
        dirty := true;
      }
      if dirty {
        StartHard(VoteReply(from, term, granted));
      } else if granted && (durableHard.term != term || durableHard.votedFor != Some(candidate)) {
        // This vote is on its way to the disk already; its completion replies.
      } else {
        Send(from, RequestVoteResp(term, granted));
      }
    }

    method OnVoteResp(from: NodeId, t: nat, granted: bool)
      modifies this
      ensures Reacts(RaftSpec.OnVoteResp(old(View()), from, t, granted))
    {
      if t > term {
        StepDownAndPersist(t);
        return;
      }
      if role != Candidate || t != term { return; }
      if granted {
        votes := votes + {from};
        if |votes * members| >= Quorum(members) { BecomeLeader(); }
      }
    }

    method BecomeLeader()
      modifies this
      ensures Reacts(RaftSpec.BecomeLeader(old(View())))
    {
      ghost var n := View();
      LedIs(n);
      var next := |log| + 1;
      Lead(next);
      StartPlain(LogDurable(next, next, UNBOUNDED, None, 0));
      BroadcastAppend();
    }

    /** Open the term with an entry of its own. */
    method Lead(next: nat)
      requires next == |log| + 1
      modifies this`role, this`nextIndex, this`matchIndex, this`probeAcked, this`log
      ensures View() == Led(old(View()))
    {
      ForgetPeers(next);
      role := Leader;
      log := log + [Entry(term, next, NOOP_COMMAND)];
    }

    /** Earlier terms' acknowledgements say nothing about this one. */
    method ForgetPeers(next: nat)
      modifies this`nextIndex, this`matchIndex, this`probeAcked
      ensures var n := old(View());
        View() == n.(nextIndex := Filled(Peers(n), next), matchIndex := Filled(Peers(n), NO_INDEX), probeAcked := map[])
    {
      nextIndex := Fill(members - {id}, next);
      matchIndex := Fill(members - {id}, NO_INDEX);
      probeAcked := map[];
    }

    // ---- replication

    method SendAppendTo(to: NodeId)
      modifies this`sent
      ensures sent == old(sent) + SendAppend(old(View()), to)
    {
      var next := Max(if to in nextIndex then nextIndex[to] else 1, 1);
      var prev := next - 1;
      var at := TermAt(log, prev);
      if at.None? { return; }
      Send(to, AppendEntries(term, id, prev, at.value, Slice(log, next, maxBatch), commitIndex));
    }

    method BroadcastAppend()
      modifies this`sent
      ensures sent == old(sent) + RaftSpec.BroadcastAppend(old(View()))
    {
      hide AppendsTo, RaftSpec.BroadcastAppend, SendAppend;
      var todo := members - {id};
      ghost var n := View();
      AppendsAll(n);
      assert Peers(n) - Peers(n) == {};
      while todo != {}
        invariant todo <= Peers(n)
        invariant sent == old(sent) + AppendsTo(n, Peers(n) - todo)
        decreases |todo|
      {
        var p :| p in todo;
        SendAppendTo(p);
        AppendsAdd(n, Peers(n) - todo, p);
        assert Peers(n) - (todo - {p}) == Peers(n) - todo + {p};
        todo := todo - {p};
      }
      assert Peers(n) - {} == Peers(n);
      AppendsAll(n);
    }

    /** Cut the log before index `at`, and every claim that reaches past the cut. */
    method Truncate(at: nat)
      requires 0 < at <= |log|
      modifies this`log, this`durableIndex, this`batches, this`parked
      ensures View() == RaftSpec.Truncate(old(View()), at)
    {
      log := log[..at - 1];
      ClampClaims(at - 1);
    }

    method ClampClaims(cap: nat)
      modifies this`durableIndex, this`batches, this`parked
      ensures var n := old(View());
        View() ==
          n.(durableIndex := Min(n.durableIndex, cap), batches := ClampAll(n.batches, cap),
             parked := ClampRanges(n.parked, cap))
    {
      hide ClampAll, ClampRanges, Min;
      durableIndex := Min(durableIndex, cap);
      batches := ClampBatches(batches, cap);
      parked := ClampParked(parked, cap);
    }

    /** The first index of the run of entries that conflicts, or one past the log's end. */
    method Hint(prev: nat) returns (i: nat)
      ensures i == ConflictHint(log, prev)
    {
      if |log| < prev { return |log| + 1; }
      i := prev;
      while i > 1 && log[i - 2].term == log[i - 1].term
        invariant i <= prev && RunStart(log, i) == RunStart(log, prev)
      {
        i := i - 1;
      }
    }

    method OnAppendEntries(from: NodeId, t: nat, prev: nat, prevTerm: nat, entries: seq<Entry>, leaderCommit: nat)
      modifies this
      ensures Reacts(RaftSpec.OnAppendEntries(old(View()), from, t, prev, prevTerm, entries, leaderCommit))
    {
      hide Accept, FollowCommit, ConflictHint;
      if t < term {
        Send(from, AppendEntriesResp(term, false, NO_INDEX, NO_INDEX));
        return;
      }
      var dirty := false;
      if t > term {
        StepDown(t);
        dirty := true;
      }
      Yield();
      if TermAt(log, prev) != Some(prevTerm) {
        var hint := Hint(prev);
        var reply := AppendEntriesResp(term, false, durableIndex, hint);
        if dirty { StartHard(Reply(from, reply)); } else { Send(from, reply); }
        return;
      }
      TakeEntries(from, prev, entries, dirty);
      Follow(leaderCommit, prev + |entries|);
    }

    /** Commit what the leader committed, as far as this message verified. */
    method Follow(leaderCommit: nat, lastNew: nat)
      modifies this`commitIndex
      ensures View() == FollowCommit(old(View()), leaderCommit, lastNew)
    {
      if leaderCommit > commitIndex {
        var commit := Min(Min(leaderCommit, lastNew), |log|);
        if commit > commitIndex { commitIndex := commit; }
      }
    }

    /** Give up a candidacy: someone else leads the term. */
    method Yield()
      modifies this`role, this`votes
      ensures View() == Concede(old(View()))
    {
      if role != Follower {
        role := Follower;
        votes := {};
      }
    }

    /** Store what is new in an append whose previous entry matches, and answer or see that it is answered. */
    method TakeEntries(from: NodeId, prev: nat, entries: seq<Entry>, dirty: bool)
      requires prev <= |log|
      modifies this
      ensures Reacts(Accept(old(View()), from, prev, entries, dirty))
    {
      hide FirstNew, Adopt;
      var lastNew := prev + |entries|;
      var k := ScanEntries(log, prev, entries);
      FirstNewFits(log, prev, entries);
      if k < |entries| {
        var first := prev + 1 + k;
        AdoptEntries(prev, entries, k);
        var action := LogDurable(first, |log|, lastNew, Some(from), term);
        if dirty { StartHard(action); } else { StartPlain(action); }
      } else if dirty {
        StartHard(LogDurable(durableIndex + 1, durableIndex, lastNew, Some(from), term));
      } else {
        Send(from, AppendEntriesResp(term, true, Min(durableIndex, lastNew), NO_INDEX));
      }
    }

    /** Cut a conflicting suffix and append what is new. */
    method AdoptEntries(prev: nat, entries: seq<Entry>, k: nat)
      requires k < |entries| && prev + k <= |log|
      modifies this`log, this`durableIndex, this`batches, this`parked
      ensures View() == Adopt(old(View()), prev, entries, k)
    {
      hide RaftSpec.Truncate;
      if prev + k < |log| { Truncate(prev + k + 1); }
      log := log + entries[k..];
    }

    method OnAppendResp(from: NodeId, t: nat, success: bool, matched: nat, conflict: nat)
      requires members != {}
      modifies this
      ensures Reacts(RaftSpec.OnAppendResp(old(View()), from, t, success, matched, conflict))
    {
      hide RaftSpec.MaybeCommit, SendAppend, RaftSpec.StepDownAndPersist;
      if t > term {
        StepDownAndPersist(t);
        return;
      }
      if role != Leader || t != term { return; }
      if success {
        var best := Max(if from in matchIndex then matchIndex[from] else NO_INDEX, matched);
        NotePeer(from, best, best + 1);
        MaybeCommit();
        if best < |log| { SendAppendTo(from); }
      } else {
        var cur := if from in nextIndex then nextIndex[from] else 1;
        var next := Max(Min(Max(conflict, 1), if cur > 0 then cur - 1 else 0), 1);
        BackUp(from, next);
        SendAppendTo(from);
      }
    }

    method BackUp(from: NodeId, next: nat)
      modifies this`nextIndex
      ensures var n := old(View()); View() == n.(nextIndex := n.nextIndex[from := next])
    {
      nextIndex := nextIndex[from := next];
    }

    method NotePeer(from: NodeId, best: nat, next: nat)
      modifies this`matchIndex, this`nextIndex
      ensures var n := old(View());
        View() == n.(matchIndex := n.matchIndex[from := best], nextIndex := n.nextIndex[from := next])
    {
      matchIndex := matchIndex[from := best];
      nextIndex := nextIndex[from := next];
    }

    /** The index the quorum-th best member holds. */
    method QuorumHolds() returns (k: nat)
      requires members != {}
      ensures IsQuorumIndex(View(), k)
    {
      ghost var n := View();
      var sorted: seq<nat> := [];
      var todo := members;
      while todo != {}
        invariant todo <= members && Descending(sorted) && |sorted| == |members| - |todo|
        invariant forall k: nat {:trigger HoldersIn(n, members - todo, k)} ::
          AtLeast(sorted, k) == |HoldersIn(n, members - todo, k)|
        decreases |todo|
      {
        var m :| m in todo;
        var held := if m == id then durableIndex else if m in matchIndex then matchIndex[m] else NO_INDEX;
        ghost var done := members - todo;
        assert members - (todo - {m}) == done + {m};
        forall k: nat ensures AtLeast(InsertDescending(sorted, held), k) == |HoldersIn(n, done + {m}, k)| {
          InsertCounts(sorted, held, k);
          HoldersAdd(n, done, m, k);
          assert AtLeast(sorted, k) == |HoldersIn(n, members - todo, k)|;
        }
        sorted := InsertDescending(sorted, held);
        todo := todo - {m};
      }
      var q := Quorum(members);
      k := sorted[q - 1];
      AtLeastBounds(sorted, q - 1);
      assert members - {} == members;
      assert HoldersIn(n, members, k) == Holders(n, k) && HoldersIn(n, members, k + 1) == Holders(n, k + 1);
      assert AtLeast(sorted, k) == |HoldersIn(n, members - todo, k)|
        && AtLeast(sorted, k + 1) == |HoldersIn(n, members - todo, k + 1)|;
    }

    method MaybeCommit()
      requires members != {}
      modifies this`commitIndex
      ensures View() == RaftSpec.MaybeCommit(old(View()))
    {
      var k := QuorumHolds();
      QuorumIndexUnique(View(), k, QuorumIndex(View()));
      if k > commitIndex && TermAt(log, k) == Some(term) { commitIndex := k; }
    }

    method Propose(cmd: Command)
      modifies this
      ensures Reacts(RaftSpec.Propose(old(View()), cmd))
    {
      hide RaftSpec.BroadcastAppend;
      if role != Leader || failed { return; }
      AppendOwn(cmd);
      BroadcastAppend();
    }

    /** A new entry of the leader's own, on its way to disk. */
    method AppendOwn(cmd: Command)
      modifies this`log, this`batches
      ensures var n := old(View());
        View() ==
          RaftSpec.StartPlain(n.(log := n.log + [Entry(n.term, |n.log| + 1, cmd)]),
                              LogDurable(|n.log| + 1, |n.log| + 1, UNBOUNDED, None, 0))
    {
      var index := |log| + 1;
      log := log + [Entry(term, index, cmd)];
      StartPlain(LogDurable(index, index, UNBOUNDED, None, 0));
    }

    // ---- completions

    method NoteHard(hard: Option<HardState>)
      modifies this`durableHard, this`durableTerm, this`durableIndex, this`parked
      ensures View() == RaftSpec.NoteHard(old(View()), hard)
    {
      if hard.Some? {
        var hs := hard.value;
        if hs.seqno >= durableHard.seqno { durableHard := hs; }
        if hs.term > durableTerm {
          durableTerm := hs.term;
          AdvanceDurable();
        }
      }
    }

    method OnLogDurable(a: Persist)
      requires a.LogDurable? && members != {}
      modifies this
      ensures Reacts(RaftSpec.OnLogDurable(old(View()), a))
    {
      hide RaftSpec.AdvanceDurable, RaftSpec.MaybeCommit;
      Park(a.from, Min(a.index, |log|));
      if a.replyTo.Some? {
        Send(a.replyTo.value, AppendEntriesResp(a.replyTerm, true, Min(durableIndex, a.verified), NO_INDEX));
      }
      if role == Leader { MaybeCommit(); }
    }

    /** A range landed: claim what it completes. */
    method Park(from: nat, index: nat)
      modifies this`durableIndex, this`parked
      ensures var n := old(View());
        View() == if index > n.durableIndex then RaftSpec.AdvanceDurable(n.(parked := n.parked + [(from, index)]))
                  else n
    {
      if index > durableIndex {
        parked := parked + [(from, index)];
        AdvanceDurable();
      }
    }

    method OnDurable(a: Persist)
      requires members != {}
      modifies this
      ensures Reacts(RaftSpec.OnDurable(old(View()), a))
    {
      hide RaftSpec.OnLogDurable, RaftSpec.BecomeLeader;
      match a {
        case Campaign(t) =>
          if term == t && role == Candidate {
            Broadcast(RequestVote(t, id, |log|, LastTerm(log)));
            if |votes * members| >= Quorum(members) { BecomeLeader(); }
          }
        case VoteReply(to, t, granted) => Send(to, RequestVoteResp(t, granted));
        case Reply(to, msg) => Send(to, msg);
        case LogDurable(_, _, _, _, _) => OnLogDurable(a);
        case Quiet =>
      }
    }

    /** The sync of batch `k` completed. */
    method OnSynced(k: nat)
      requires k < |batches| && members != {}
      modifies this
      ensures Reacts(RaftSpec.OnSynced(old(View()), k))
    {
      hide RaftSpec.OnDurable, RaftSpec.NoteHard;
      var b := batches[k];
      batches := batches[..k] + batches[k + 1..];
      NoteHard(b.hard);
      OnDurable(b.action);
    }

    method OnStorageFailure(k: nat)
      requires k < |batches|
      modifies this`batches, this`failed
      ensures View() == RaftSpec.OnStorageFailure(old(View()), k)
    {
      batches := batches[k := Batch(Quiet, batches[k].hard)];
      failed := true;
    }

    // ---- ReadIndex

    method BroadcastProbe()
      modifies this`sent
      ensures sent == old(sent) + RaftSpec.BroadcastProbe(old(View()))
    {
      Broadcast(ReadProbe(term, id, readSeq));
    }

    method RequestRead(read: nat) returns (accepted: bool)
      modifies this
      ensures Reacts(RaftSpec.RequestRead(old(View()), read)) && accepted == AcceptsRead(old(View()))
    {
      if role != Leader || failed { return false; }
      if TermAt(log, commitIndex) != Some(term) { return false; }
      var confirmed := |members| == 1;
      AddRead(read, confirmed);
      if !confirmed { BroadcastProbe(); }
      accepted := true;
    }

    method AddRead(read: nat, confirmed: bool)
      modifies this`readSeq, this`pendingReads
      ensures var n := old(View());
        View() ==
          n.(readSeq := n.readSeq + 1,
             pendingReads := n.pendingReads + [PendingRead(read, n.commitIndex, n.readSeq + 1, confirmed)])
    {
      readSeq := readSeq + 1;
      pendingReads := pendingReads + [PendingRead(read, commitIndex, readSeq, confirmed)];
    }

    method OnReadProbe(from: NodeId, t: nat, seqno: nat)
      modifies this
      ensures Reacts(RaftSpec.OnReadProbe(old(View()), from, t, seqno))
    {
      if t < term {
        Send(from, ReadProbeResp(term, seqno));
        return;
      }
      if t > term {
        StepDownAndPersist(t);
        return;
      }
      if role == Leader { return; }
      Yield();
      Send(from, ReadProbeResp(t, seqno));
    }

    method OnReadProbeResp(from: NodeId, t: nat, seqno: nat)
      modifies this
      ensures Reacts(RaftSpec.OnReadProbeResp(old(View()), from, t, seqno))
    {
      hide Confirm;
      if t > term {
        StepDownAndPersist(t);
        return;
      }
      if role != Leader || t != term { return; }
      probeAcked := probeAcked[from := Max(if from in probeAcked then probeAcked[from] else 0, seqno)];
      ConfirmReads();
    }

    /** Confirm every pending read that a quorum vouches for. */
    method ConfirmReads()
      modifies this`pendingReads
      ensures var n := old(View());
        View() ==
          n.(pendingReads :=
             seq(|n.pendingReads|, i requires 0 <= i < |n.pendingReads| => Confirm(n, n.pendingReads[i])))
    {
      ghost var n := View();
      var own := if id in members then 1 else 0;
      for i := 0 to |pendingReads|
        invariant |pendingReads| == |n.pendingReads|
        invariant forall j :: 0 <= j < i ==> pendingReads[j] == Confirm(n, n.pendingReads[j])
        invariant forall j :: i <= j < |pendingReads| ==> pendingReads[j] == n.pendingReads[j]
      {
        var r := pendingReads[i];
        if !r.confirmed {
          var acks := set m | m in probeAcked && m in members && probeAcked[m] >= r.seqno;
          assert acks == Vouchers(n, r.seqno);
          if own + |acks| >= Quorum(members) { pendingReads := pendingReads[i := r.(confirmed := true)]; }
        }
      }
    }

    /** Hand committed entries to the state machine, one by one. */
    method Apply()
      modifies this`lastApplied
      ensures View() == ApplyCommitted(old(View()))
    {
      while lastApplied < commitIndex && lastApplied < |log|
        invariant old(lastApplied) <= lastApplied <= Max(old(lastApplied), Min(commitIndex, |log|))
      {
        lastApplied := lastApplied + 1;
      }
    }

    method SplitReads() returns (kept: seq<PendingRead>, ready: set<PendingRead>)
      ensures kept == Unready(View(), pendingReads)
      ensures ready == set r | r in pendingReads && Ready(View(), r)
    {
      hide Unready;
      kept, ready := [], {};
      UnreadyNone(View());
      for i := 0 to |pendingReads|
        invariant kept == Unready(View(), pendingReads[..i])
        invariant ready == set r | r in pendingReads[..i] && Ready(View(), r)
      {
        var r := pendingReads[i];
        assert pendingReads[..i + 1] == pendingReads[..i] + [r];
        UnreadyAppend(View(), pendingReads[..i], r);
        if r.confirmed && lastApplied >= r.readIndex { ready := ready + {r}; } else { kept := kept + [r]; }
      }
      assert pendingReads[..|pendingReads|] == pendingReads;
    }

    /** Apply what is committed, answer the reads that are ready, and drop those of a lost leadership. */
    method Drain() returns (ready: set<PendingRead>)
      modifies this`lastApplied, this`pendingReads
      ensures View() == RaftSpec.Drain(old(View())) && ready == Served(old(View()))
    {
      hide Ready, Unready;
      Apply();
      if role == Leader {
        var kept;
        kept, ready := SplitReads();
        pendingReads := kept;
      } else {
        ready := {};
        pendingReads := [];
      }
    }

    // ---- events

    method OnMessage(from: NodeId, msg: Message, ignore: bool)
      requires members != {}
      modifies this
      ensures Reacts(RaftSpec.OnMessage(old(View()), from, msg, ignore))
    {
      hide RaftSpec.OnRequestVote, RaftSpec.OnVoteResp, RaftSpec.OnAppendEntries, RaftSpec.OnAppendResp,
           RaftSpec.OnReadProbe, RaftSpec.OnReadProbeResp;
      if failed { return; }
      match msg {
        case RequestVote(t, candidate, lastIndex, lastTerm) =>
          OnRequestVote(from, t, candidate, lastIndex, lastTerm, ignore);
        case RequestVoteResp(t, granted) => OnVoteResp(from, t, granted);
        case AppendEntries(t, _, prev, prevTerm, entries, commit) =>
          OnAppendEntries(from, t, prev, prevTerm, entries, commit);
        case AppendEntriesResp(t, success, m, conflict) => OnAppendResp(from, t, success, m, conflict);
        case ReadProbe(t, _, seqno) => OnReadProbe(from, t, seqno);
        case ReadProbeResp(t, seqno) => OnReadProbeResp(from, t, seqno);
      }
    }

    method OnElectionTimeout()
      modifies this
      ensures Reacts(RaftSpec.OnElectionTimeout(old(View())))
    {
      hide RaftSpec.BecomeCandidate;
      if failed || role == Leader || id !in members { return; }
      BecomeCandidate();
    }

    method OnPreVoteRound()
      modifies this
      ensures Reacts(RaftSpec.OnPreVoteRound(old(View())))
    {
      if failed || role == Leader || id !in members { return; }
      role := Follower;
      votes := {};
    }

    method OnNewerTerm(t: nat)
      modifies this
      ensures Reacts(RaftSpec.OnNewerTerm(old(View()), t))
    {
      if failed || t <= term { return; }
      StepDownAndPersist(t);
    }

    method OnHeartbeat()
      modifies this
      ensures Reacts(RaftSpec.OnHeartbeat(old(View())))
    {
      hide RaftSpec.BroadcastAppend, RaftSpec.BroadcastProbe;
      if failed || role != Leader { return; }
      BroadcastAppend();
      var waiting := exists r :: r in pendingReads && !r.confirmed;
      if waiting { BroadcastProbe(); }
    }
  }
}
