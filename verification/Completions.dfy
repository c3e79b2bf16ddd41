/**
 What comes of acknowledgements, of completed writes and of reads, in terms of majorities and of what has
 reached the disk: how far a leader commits, how far a node claims its log durable, and which reads are
 confirmed and served.
*/
module Completions {
  import opened Types
  import opened RaftSpec
  import opened Handlers

  // ---- committing --------------------------------------------------------------------

  /** The members known to hold index `k`. */
  function HeldBy(n: Node, k: nat): set<NodeId> {
    set p | p in n.members && KnownOf(n, p) >= k
  }

  /** How far a member is known to hold the log: the leader as far as it claims, a peer as far as it acknowledged. */
  function KnownOf(n: Node, p: NodeId): nat {
    if p == n.id then n.durableIndex else if p in n.matchIndex then n.matchIndex[p] else 0
  }

  /** `k` is the greatest index a majority is known to hold. */
  ghost predicate MajorityEnds(n: Node, k: nat) {
    Majority(HeldBy(n, k), n.members) && !Majority(HeldBy(n, k + 1), n.members)
  }

  /** A leader may commit index `k`: a majority holds it and nothing beyond, and it is an entry of the leader's term. */
  ghost predicate MayCommit(n: Node, k: nat) {
    0 < k <= |n.log| && n.log[k - 1].term == n.term && MajorityEnds(n, k)
  }

  /** It commits that if it is new, and nothing else, and changes nothing else. */
  ghost predicate Commits(n: Node, m: Node) {
    && m == n.(commitIndex := m.commitIndex)
    && (forall k :: MayCommit(n, k) ==> m.commitIndex == Greatest(n.commitIndex, k))
    && (m.commitIndex != n.commitIndex ==> MayCommit(n, m.commitIndex))
  }

  lemma HeldIsHolders(n: Node, k: nat)
    ensures HeldBy(n, k) == Holders(n, k) <= n.members && (Majority(HeldBy(n, k), n.members) <==>
              |Holders(n, k)| >= Quorum(n.members))
  {
    assert HeldBy(n, k) * n.members == HeldBy(n, k);
  }

  lemma EndsIsQuorum(n: Node, k: nat)
    ensures MajorityEnds(n, k) <==> IsQuorumIndex(n, k)
  {
    HeldIsHolders(n, k);
    HeldIsHolders(n, k + 1);
  }

  /** Who holds an index holds all before it. */
  lemma HeldShrinks(n: Node, k: nat, l: nat)
    requires k <= l
    ensures HeldBy(n, l) <= HeldBy(n, k)
    ensures Majority(HeldBy(n, l), n.members) ==> Majority(HeldBy(n, k), n.members)
  {
    var a, b := HeldBy(n, l) * n.members, HeldBy(n, k) * n.members;
    assert b == a + (b - a);
  }

  lemma EndsOnce(n: Node, k: nat, l: nat)
    requires MajorityEnds(n, k) && MajorityEnds(n, l)
    ensures k == l
  {
    hide HeldBy, Majority;
    if k < l { HeldShrinks(n, k + 1, l); }
    if l < k { HeldShrinks(n, l + 1, k); }
  }

  lemma CommitsWhatItMay(n: Node)
    ensures Commits(n, MaybeCommit(n))
  {
    hide MajorityEnds, IsQuorumIndex;
    var q := QuorumIndex(n);
    EndsIsQuorum(n, q);
    forall k | MayCommit(n, k) ensures MaybeCommit(n).commitIndex == Greatest(n.commitIndex, k) {
      EndsIsQuorum(n, k);
      EndsOnce(n, k, q);
    }
  }

  /**
   Nothing is left uncommitted that could be: after it commits, no entry of the leader's term above its
   commit index is held by a majority, if no peer is taken to hold more than there is.
  */
  lemma CommitsAll(n: Node, m: Node, i: nat)
    requires Commits(n, m) && m.commitIndex < i <= |n.log| && n.log[i - 1].term == n.term
    requires forall j :: 0 <= j < |n.log| ==> n.log[j].term <= n.term
    requires forall j, l :: 0 <= j <= l < |n.log| ==> n.log[j].term <= n.log[l].term
    requires !Majority(HeldBy(n, |n.log| + 1), n.members)
    ensures !Majority(HeldBy(n, i), n.members)
  {
    hide HeldBy, Majority;
    if Majority(HeldBy(n, i), n.members) {
      var k := LastHeld(n, i);
      assert n.log[i - 1].term <= n.log[k - 1].term;
      OwnTermMay(n, k);
    }
  }

  lemma OwnTermMay(n: Node, k: nat)
    requires 0 < k <= |n.log| && n.log[k - 1].term == n.term && MajorityEnds(n, k)
    ensures MayCommit(n, k)
  {
  }

  lemma {:induction false} LastHeld(n: Node, i: nat) returns (k: nat)
    requires i <= |n.log| && Majority(HeldBy(n, i), n.members) && !Majority(HeldBy(n, |n.log| + 1), n.members)
    ensures i <= k <= |n.log| && MajorityEnds(n, k)
    decreases |n.log| - i
  {
    hide HeldBy, Majority;
    k := i;
    if Majority(HeldBy(n, i + 1), n.members) { k := LastHeld(n, i + 1); }
  }

  /** A leader counts an acknowledgement, commits what it may, and sends the peer what it lacks. */
  lemma AckCounted(n: Node, from: NodeId, term: nat, matched: nat, conflict: nat, ignore: bool)
    requires !n.failed && n.role == Leader && term == n.term
    ensures var r := OnMessage(n, from, AppendEntriesResp(term, true, matched, conflict), ignore);
      var best := Greatest(if from in n.matchIndex then n.matchIndex[from] else 0, matched);
      && Commits(n.(matchIndex := n.matchIndex[from := best], nextIndex := n.nextIndex[from := best + 1]), r.node)
      && if best < |n.log| then SendsNext(r.node, r.sent, from) else r.sent == {}
  {
    hide MaybeCommit, SendAppend, SendsNext, Commits;
    var best := Greatest(if from in n.matchIndex then n.matchIndex[from] else 0, matched);
    var c := n.(matchIndex := n.matchIndex[from := best], nextIndex := n.nextIndex[from := best + 1]);
    CommitsWhatItMay(c);
    CommitKeeps(c);
    SendAppendSends(MaybeCommit(c), from);
  }

  lemma CommitKeeps(n: Node)
    ensures MaybeCommit(n).log == n.log
  {
  }

  /** A refusal moves the peer's next index back, to where the peer points if that is lower, and never below 1. */
  lemma RefusalCounted(n: Node, from: NodeId, term: nat, matched: nat, conflict: nat, ignore: bool)
    requires !n.failed && n.role == Leader && term == n.term
    ensures var r := OnMessage(n, from, AppendEntriesResp(term, false, matched, conflict), ignore);
      var cur := if from in n.nextIndex then n.nextIndex[from] else 1;
      var back := Least(Greatest(conflict, 1), if cur > 0 then cur - 1 else 0);
      && r.node == n.(nextIndex := n.nextIndex[from := Greatest(back, 1)])
      && SendsNext(r.node, r.sent, from)
  {
    hide SendAppend, SendsNext;
    var r := OnMessage(n, from, AppendEntriesResp(term, false, matched, conflict), ignore);
    SendAppendSends(r.node, from);
  }

  /** An answer of a newer term ends the leader's reign; other answers that are not for it change nothing. */
  lemma StrayAck(n: Node, from: NodeId, term: nat, success: bool, matched: nat, conflict: nat, ignore: bool)
    requires !n.failed && (n.role != Leader || term != n.term)
    ensures var r := OnMessage(n, from, AppendEntriesResp(term, success, matched, conflict), ignore);
      if term > n.term then StepsDown(n, r, term) else r == Reaction(n, {})
  {
  }

  // ---- commands ------------------------------------------------------------------------

  /** A leader takes a command as the next entry of its log, and sends it on. */
  lemma CommandTaken(n: Node, cmd: Command)
    ensures var r := Propose(n, cmd);
      if n.role != Leader || n.failed then r == Reaction(n, {})
      else
        && r.node == n.(log := n.log + [Entry(n.term, |n.log| + 1, cmd)],
                        batches := n.batches + [Batch(LogDurable(|n.log| + 1, |n.log| + 1, UNBOUNDED, None, 0), None)])
        && SendsAllNext(r.node, r.sent)
  {
    hide BroadcastAppend, SendsAllNext;
    BroadcastSends(Propose(n, cmd).node);
  }

  // ---- writes that completed ---------------------------------------------------------------

  /** All entries up to index `i` are of terms up to `t`. */
  ghost predicate TermsKnown(log: seq<Entry>, i: nat, t: nat) {
    i <= |log| && forall j :: 0 <= j < i ==> log[j].term <= t
  }

  /** From `was`, a claim over the ranges that landed ends at `d`: there is the first index it cannot take in. */
  ghost predicate ClaimEnds(log: seq<Entry>, t: nat, ranges: seq<(nat, nat)>, was: nat, d: nat) {
    && was <= d
    && (forall i :: was < i <= d ==> Landed(ranges, i) && TermsKnown(log, i, t))
    && !(Landed(ranges, d + 1) && TermsKnown(log, d + 1, t))
  }

  /** The ranges that end above the claim are kept, unless there are too many of them. */
  ghost predicate RangesKept(ranges: seq<(nat, nat)>, d: nat, kept: seq<(nat, nat)>) {
    && |kept| <= PARKED_LIMIT && (forall r :: r in kept ==> r in ranges && r.1 > d)
    && (|ranges| <= PARKED_LIMIT ==> forall r :: r in ranges && r.1 > d ==> r in kept)
  }

  ghost predicate ClaimGrows(n: Node, m: Node) {
    && m == n.(durableIndex := m.durableIndex, parked := m.parked)
    && ClaimEnds(n.log, n.durableTerm, n.parked, n.durableIndex, m.durableIndex)
    && RangesKept(n.parked, m.durableIndex, m.parked)
  }

  lemma {:induction false} AboveSize(parked: seq<(nat, nat)>, at: nat)
    ensures |Above(parked, at)| <= |parked|
  {
    if |parked| > 0 { AboveSize(parked[1..], at); }
  }

  lemma Advances(n: Node)
    ensures ClaimGrows(n, AdvanceDurable(n))
  {
    hide Reach, Above, LastIndexAtMost;
    var cap := LastIndexAtMost(n.log, n.durableTerm);
    var d := Reach(n.durableIndex, n.parked, cap);
    CapIs(n.log, n.durableTerm);
    ReachIs(n.durableIndex, n.parked, cap);
    AboveSize(n.parked, d);
    AboveIs(n.parked, d);
  }

  lemma CapIs(log: seq<Entry>, t: nat)
    ensures forall i: nat :: TermsKnown(log, i, t) <==> i <= LastIndexAtMost(log, t)
  {
  }

  lemma ReachIs(at: nat, parked: seq<(nat, nat)>, cap: nat)
    ensures var d := Reach(at, parked, cap);
      at <= d && (forall i :: at < i <= d ==> Landed(parked, i) && i <= cap) && !(Landed(parked, d + 1) && d + 1 <= cap)
  {
    forall i ensures Landed(parked, i) <==> Covered(parked, i) {}
  }

  lemma AboveIs(parked: seq<(nat, nat)>, at: nat)
    ensures forall r :: r in Above(parked, at) <==> r in parked && r.1 > at
  {
  }

  /** A hard state that is durable: the newest counts, and the claim grows with the terms it knows. */
  lemma HardLanded(n: Node, hs: HardState)
    ensures var m := NoteHard(n, Some(hs));
      var k := n.(durableHard := if hs.seqno >= n.durableHard.seqno then hs else n.durableHard,
                  durableTerm := Greatest(n.durableTerm, hs.term));
      && m == k.(durableIndex := m.durableIndex, parked := m.parked)
      && if hs.term > n.durableTerm then ClaimGrows(k, m) else m == k
  {
    hide AdvanceDurable, ClaimGrows;
    var k := n.(durableHard := if hs.seqno >= n.durableHard.seqno then hs else n.durableHard,
                durableTerm := Greatest(n.durableTerm, hs.term));
    Advances(k);
    GrowsKeeps(k, AdvanceDurable(k));
  }

  /**
   Entries that are durable: the claim grows over them and over what landed before them, the leader who
   sent them is told of all it sent that is claimed, and a leader commits what it may.
  */
  lemma EntriesLanded(n: Node, from: nat, index: nat, verified: nat, to: Option<NodeId>, term: nat)
    ensures var r := OnDurable(n, LogDurable(from, index, verified, to, term));
      var upto := Least(index, |n.log|);
      exists c: Node ::
        && (if upto > n.durableIndex then ClaimGrows(n.(parked := n.parked + [(from, upto)]), c) else c == n)
        && (if n.role == Leader then Commits(c, r.node) else r.node == c)
        && match to
           case None => r.sent == {}
           case Some(v) => Tells(n, r.sent, v, AppendEntriesResp(term, true, Least(c.durableIndex, verified), 0))
  {
    hide AdvanceDurable, MaybeCommit, ClaimGrows, Commits;
    var upto := Least(index, |n.log|);
    var p := n.(parked := n.parked + [(from, upto)]);
    var c := if upto > n.durableIndex then AdvanceDurable(p) else n;
    Advances(p);
    GrowsKeeps(p, AdvanceDurable(p));
    CommitsWhatItMay(c);
  }

  lemma GrowsKeeps(n: Node, m: Node)
    requires ClaimGrows(n, m)
    ensures m == n.(durableIndex := m.durableIndex, parked := m.parked)
  {
  }

  /** A candidate whose own vote is durable asks all others for theirs, and leads at once if it is the majority. */
  lemma CampaignLanded(n: Node, term: nat)
    ensures var r := OnDurable(n, Campaign(term));
      if n.role != Candidate || n.term != term then r == Reaction(n, {})
      else
        && TellsAll(n, r.sent - Appends(r.sent),
                    RequestVote(term, n.id, |n.log|, if |n.log| == 0 then 0 else n.log[|n.log| - 1].term))
        && if Majority(n.votes, n.members) then Leads(n, r.node, Appends(r.sent))
           else r.node == n && Appends(r.sent) == {}
  {
    hide BecomeLeader, Leads;
    var asked := Broadcast(n, RequestVote(term, n.id, |n.log|, LastTerm(n.log)));
    var led := BecomeLeader(n);
    MajorityIs(n.votes, n.members);
    BecomesLeader(n);
    LeadSends(n, led.node, led.sent);
    assert Appends(asked + led.sent) == led.sent && asked + led.sent - led.sent == asked && Appends(asked) == {};
  }

  function Appends(sent: set<Packet>): set<Packet> { set p | p in sent && p.msg.AppendEntries? }

  lemma LeadSends(n: Node, m: Node, sent: set<Packet>)
    requires Leads(n, m, sent)
    ensures forall p :: p in sent ==> p.msg.AppendEntries?
  {
    forall p | p in sent ensures p.msg.AppendEntries? {
      assert SendsNext(m, Addressed(sent, p.to), p.to) && p in Addressed(sent, p.to);
    }
  }

  /** A vote, or a refusal, that waited for the disk is given now. */
  lemma AnswerLanded(n: Node, to: NodeId, term: nat, granted: bool, msg: Message)
    ensures OnDurable(n, VoteReply(to, term, granted)).node == n == OnDurable(n, Reply(to, msg)).node
    ensures Tells(n, OnDurable(n, VoteReply(to, term, granted)).sent, to, RequestVoteResp(term, granted))
    ensures Tells(n, OnDurable(n, Reply(to, msg)).sent, to, msg)
    ensures OnDurable(n, Quiet) == Reaction(n, {})
  {
  }

  /** A batch that synced is done with: its hard state is durable, and then its action is taken. */
  lemma BatchLanded(n: Node, k: nat)
    requires k < |n.batches|
    ensures var rest := n.(batches := n.batches[..k] + n.batches[k + 1..]);
      OnSynced(n, k) == OnDurable(if n.batches[k].hard.Some? then NoteHard(rest, n.batches[k].hard) else rest,
                                  n.batches[k].action)
  {
    hide OnDurable;
  }

  // ---- reads --------------------------------------------------------------------------------

  /**
   A leader with a committed entry of its term takes a read at its commit index, with the next probe
   number, and probes all others; alone, it needs none.
  */
  lemma ReadTaken(n: Node, id: nat)
    ensures var r := RequestRead(n, id);
      var read := PendingRead(id, n.commitIndex, n.readSeq + 1, |n.members| == 1);
      if n.role == Leader && !n.failed && HoldsAt(n.log, n.commitIndex, n.term) then
        && r.node == n.(readSeq := n.readSeq + 1, pendingReads := n.pendingReads + [read])
        && if |n.members| == 1 then r.sent == {} else TellsAll(n, r.sent, ReadProbe(n.term, n.id, n.readSeq + 1))
      else r == Reaction(n, {})
  {
  }

  /** A probe is answered with its number, in the node's own term if the probe's is older. */
  lemma ProbeAnswered(n: Node, from: NodeId, term: nat, ld: NodeId, seqno: nat, ignore: bool)
    requires !n.failed
    ensures var r := OnMessage(n, from, ReadProbe(term, ld, seqno), ignore);
      if term > n.term then StepsDown(n, r, term)
      else if term == n.term && n.role == Leader then r == Reaction(n, {})
      else
        && Tells(n, r.sent, from, ReadProbeResp(n.term, seqno))
        && r.node == if term < n.term || n.role == Follower then n else n.(role := Follower, votes := {})
  {
  }

  /** The members that answered probe `seqno` or a later one. */
  function Answered(members: set<NodeId>, acked: map<NodeId, nat>, seqno: nat): set<NodeId> {
    set p | p in members && p in acked && acked[p] >= seqno
  }

  /** How many members vouch for that, the leader itself included. */
  function VouchedBy(n: Node, acked: map<NodeId, nat>, seqno: nat): nat {
    |Answered(n.members, acked, seqno)| + (if n.id in n.members then 1 else 0)
  }

  /** A read is confirmed exactly when a majority has vouched for it. */
  lemma ReplyCounted(n: Node, from: NodeId, term: nat, seqno: nat, ignore: bool)
    requires !n.failed && n.role == Leader && term == n.term
    ensures var r := OnMessage(n, from, ReadProbeResp(term, seqno), ignore);
      var acked := n.probeAcked[from := Greatest(if from in n.probeAcked then n.probeAcked[from] else 0, seqno)];
      && r.sent == {} && r.node == n.(probeAcked := acked, pendingReads := r.node.pendingReads)
      && |r.node.pendingReads| == |n.pendingReads|
      && forall i :: 0 <= i < |n.pendingReads| ==>
           var q := n.pendingReads[i];
           r.node.pendingReads[i] == q.(confirmed := q.confirmed || 2 * VouchedBy(n, acked, q.seqno) > |n.members|)
  {
    var acked := n.probeAcked[from := Greatest(if from in n.probeAcked then n.probeAcked[from] else 0, seqno)];
    var m := n.(probeAcked := acked);
    forall i | 0 <= i < |n.pendingReads|
      ensures Confirm(m, n.pendingReads[i]).confirmed
          <==> n.pendingReads[i].confirmed || 2 * VouchedBy(n, acked, n.pendingReads[i].seqno) > |n.members|
    {
      var s := n.pendingReads[i].seqno;
      assert Vouchers(m, s) == Answered(n.members, acked, s);
    }
  }

  lemma StrayReply(n: Node, from: NodeId, term: nat, seqno: nat, ignore: bool)
    requires !n.failed && (n.role != Leader || term != n.term)
    ensures var r := OnMessage(n, from, ReadProbeResp(term, seqno), ignore);
      if term > n.term then StepsDown(n, r, term) else r == Reaction(n, {})
  {
  }

  /** A drain applies all that is committed; a leader then answers the confirmed reads it has applied, and no others. */
  lemma Drained(n: Node)
    ensures var m := Drain(n);
      && m == n.(lastApplied := m.lastApplied, pendingReads := m.pendingReads)
      && m.lastApplied == Greatest(n.lastApplied, Least(n.commitIndex, |n.log|))
      && (forall r :: r in Served(n) <==>
            n.role == Leader && r in n.pendingReads && r.confirmed && r.readIndex <= m.lastApplied)
      && (forall r :: r in m.pendingReads <==> n.role == Leader && r in n.pendingReads && r !in Served(n))
  {
    hide Unready;
    UnreadyIs(ApplyCommitted(n), n.pendingReads);
  }

  lemma UnreadyIs(n: Node, pending: seq<PendingRead>)
    ensures forall r :: r in Unready(n, pending) <==> r in pending && !(r.confirmed && r.readIndex <= n.lastApplied)
  {
  }

  /** A heartbeat sends every peer what is next for it, and probes again for reads that wait to be confirmed. */
  lemma HeartbeatSends(n: Node)
    ensures var r := OnHeartbeat(n);
      && r.node == n
      && if n.failed || n.role != Leader then r.sent == {}
         else
           SendsAllNext(n, Appends(r.sent))
           && if exists q :: q in n.pendingReads && !q.confirmed
              then TellsAll(n, r.sent - Appends(r.sent), ReadProbe(n.term, n.id, n.readSeq))
              else Appends(r.sent) == r.sent
  {
    hide BroadcastAppend, SendsAllNext;
    BroadcastSends(n);
    AllNextAppends(n, BroadcastAppend(n));
    var probes := OnHeartbeat(n).sent;
    assert !n.failed && n.role == Leader ==> Appends(OnHeartbeat(n).sent) == BroadcastAppend(n);
  }

  lemma AllNextAppends(n: Node, sent: set<Packet>)
    requires SendsAllNext(n, sent)
    ensures forall p :: p in sent ==> p.msg.AppendEntries?
  {
    forall p | p in sent ensures p.msg.AppendEntries? {
      assert SendsNext(n, Addressed(sent, p.to), p.to) && p in Addressed(sent, p.to);
    }
  }
}
