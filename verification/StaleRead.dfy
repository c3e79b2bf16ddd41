/**
 A run of three nodes in which a leader serves a stale read. Node 0 leads term 1 and probes for a
 read, restarts, and leads term 2, numbering its probes from the start again. Node 1 answers the old
 probe in term 2, and the answer is held up while node 1 is elected in term 3 and commits. Then
 node 0, which has not heard of term 3, takes the old answer for one to a new read.
*/
module StaleRead {
  import opened Types
  import opened RaftSpec
  import opened Cluster
  import opened ReadIndex
  import RaftNode

  const M: set<NodeId> := {0, 1, 2}

  function F(id: NodeId, hs: HardState, log: seq<Entry>): Node { Recovered(id, M, 8, hs, log) }

  /** The entry a leader of term `t` opens its term with. */
  function Opening(t: nat, index: nat): Entry { Entry(t, index, NOOP_COMMAND) }

  // ---- single events -------------------------------------------------------------------------

  lemma NothingParked(n: Node)
    requires n.parked == []
    ensures AdvanceDurable(n) == n
  {
    assert forall i :: !Covered(n.parked, i);
    assert Above(n.parked, n.durableIndex) == [];
  }

  /** A campaign's hard state lands: the node asks for votes. */
  lemma CampaignSynced(n: Node, hs: HardState)
    requires n.batches == [Batch(Campaign(n.term), Some(hs))] && n.role == Candidate && n.parked == []
    requires hs.term == n.term
    requires hs.seqno >= n.durableHard.seqno && n.votes == {n.id} && n.members == M && n.id in M
    ensures var m := n.(batches := [], durableHard := hs, durableTerm := Max(n.durableTerm, hs.term));
      OnSynced(n, 0) == Reaction(m, Broadcast(m, RequestVote(n.term, n.id, |n.log|, LastTerm(n.log))))
  {
    var bs := n.batches[..0] + n.batches[0 + 1..];
    assert bs == [];
    NothingParked(n.(batches := [], durableHard := hs, durableTerm := hs.term));
    assert n.votes * n.members == {n.id};
    assert |M| == 3;
  }

  /** A vote's hard state lands: the vote is revealed. */
  lemma VoteSynced(n: Node, hs: HardState, to: NodeId)
    requires n.batches == [Batch(VoteReply(to, n.term, true), Some(hs))] && n.parked == []
    requires hs.term == n.term > n.durableTerm
    requires hs.seqno >= n.durableHard.seqno
    ensures var m := n.(batches := [], durableHard := hs, durableTerm := hs.term);
      OnSynced(n, 0) == Reaction(m, {Packet(n.id, to, RequestVoteResp(n.term, true))})
  {
    var bs := n.batches[..0] + n.batches[0 + 1..];
    assert bs == [];
    NothingParked(n.(batches := [], durableHard := hs, durableTerm := hs.term));
  }

  /** The next entries land: the claim moves to the end of the log. */
  lemma ParkedOne(n: Node, from: nat)
    requires n.parked == [(from, |n.log|)] && from == n.durableIndex + 1 <= |n.log|
    requires LastIndexAtMost(n.log, n.durableTerm) == |n.log|
    ensures AdvanceDurable(n) == n.(durableIndex := |n.log|, parked := [])
  {
    var r := (from, |n.log|);
    assert r in n.parked;
    RaftNode.ReachStep(n.durableIndex, n.parked, |n.log|, |n.log|);
    assert Reach(|n.log|, n.parked, |n.log|) == |n.log|;
    assert n.parked[1..] == [];
    assert Above(n.parked, |n.log|) == Above(n.parked[1..], |n.log|) == [];
  }

  lemma {:induction false} AllAtMost(log: seq<Entry>, t: nat)
    requires forall i :: 0 <= i < |log| ==> log[i].term <= t
    ensures LastIndexAtMost(log, t) == |log|
  {
    if |log| > 0 { AllAtMost(log[1..], t); }
  }

  ghost predicate Below(log: seq<Entry>, t: nat) { forall i :: 0 <= i < |log| ==> log[i].term <= t }

  /** A follower's new entries land: it acknowledges them. */
  lemma FollowerLogSynced(n: Node, from: nat, to: NodeId)
    requires n.batches == [Batch(LogDurable(from, |n.log|, |n.log|, Some(to), n.term), None)] && n.parked == []
    requires n.role == Follower
    requires from == n.durableIndex + 1 <= |n.log| && Below(n.log, n.durableTerm) && n.durableTerm == n.term
    ensures OnSynced(n, 0) ==
      Reaction(n.(batches := [], durableIndex := |n.log|),
               {Packet(n.id, to, AppendEntriesResp(n.term, true, |n.log|, NO_INDEX))})
  {
    var bs := n.batches[..0] + n.batches[0 + 1..];
    assert bs == [];
    AllAtMost(n.log, n.durableTerm);
    var m := n.(batches := [], parked := [(from, |n.log|)]);
    assert [] + [(from, |n.log|)] == [(from, |n.log|)];
    ParkedOne(m, from);
  }

  /** What a quorum of three holds when two hold `k` and one holds nothing. */
  lemma TwoOfThree(n: Node, k: nat, other: NodeId, none: NodeId)
    requires n.members == M && n.id in M && other in M && none in M && n.id != other && none != n.id && none != other
    requires n.durableIndex == k > 0 && other in n.matchIndex && n.matchIndex[other] == k && none in n.matchIndex
    requires n.matchIndex[none] == 0
    ensures QuorumIndex(n) == k && IsQuorumIndex(n, k)
  {
    assert |M| == 3;
    assert Holders(n, k) == {n.id, other};
    assert |Holders(n, k)| == 2;
    assert Holders(n, k + 1) == {};
    assert IsQuorumIndex(n, k);
    RaftNode.QuorumIndexUnique(n, k, QuorumIndex(n));
  }

  /** Only the leader holds anything: nothing new is committed. */
  lemma OneOfThree(n: Node, a: NodeId, b: NodeId)
    requires n.members == M && n.id in M && a in M && b in M && n.id != a && b != n.id && a != b
    requires a in n.matchIndex && n.matchIndex[a] == 0 && b in n.matchIndex && n.matchIndex[b] == 0
    ensures QuorumIndex(n) == 0 && MaybeCommit(n) == n
  {
    assert |M| == 3;
    assert Holders(n, 0) == M;
    assert Holders(n, 1) <= {n.id};
    RaftNode.HoldersShrink(n, 0, 1);
    SmallSet(Holders(n, 1), n.id);
    RaftNode.QuorumIndexUnique(n, 0, QuorumIndex(n));
  }

  lemma SmallSet(s: set<NodeId>, x: NodeId)
    requires s <= {x}
    ensures |s| <= 1
  {
    if x in s { assert s == {x}; } else { assert s == {}; }
  }

  /** The leader's own entry lands. */
  lemma LeaderLogSynced(n: Node, a: NodeId, b: NodeId)
    requires n.batches == [Batch(LogDurable(|n.log|, |n.log|, UNBOUNDED, None, 0), None)] && n.parked == []
    requires n.role == Leader
    requires |n.log| == n.durableIndex + 1 && Below(n.log, n.durableTerm)
    requires n.members == M && n.id in M && a in M && b in M && n.id != a && b != n.id && a != b
    requires a in n.matchIndex && n.matchIndex[a] == 0 && b in n.matchIndex && n.matchIndex[b] == 0
    ensures OnSynced(n, 0) == Reaction(n.(batches := [], durableIndex := |n.log|), {})
  {
    var bs := n.batches[..0] + n.batches[0 + 1..];
    assert bs == [];
    AllAtMost(n.log, n.durableTerm);
    var m := n.(batches := [], parked := [(|n.log|, |n.log|)]);
    assert [] + [(|n.log|, |n.log|)] == [(|n.log|, |n.log|)];
    ParkedOne(m, |n.log|);
    OneOfThree(n.(batches := [], durableIndex := |n.log|), a, b);
  }

  // ---- building the run -----------------------------------------------------------------------

  /** The run so far has come to these three nodes, and these packets among others are in the network. */
  ghost predicate At(rws: seq<ReadWorld>, acts: seq<Action>, p: Node, q: Node, r: Node, net: set<Packet>) {
    && ReadRun(rws, acts)
    && rws[|acts|].w.nodes == map[0 := p, 1 := q, 2 := r] && net <= rws[|acts|].w.net
  }

  /** `rws` and `acts` go on where `was` and `before` ended. */
  ghost predicate Continues(was: seq<ReadWorld>, before: seq<Action>, rws: seq<ReadWorld>, acts: seq<Action>) {
    was <= rws && before <= acts
  }

  ghost predicate Allowed(n: Node, net: set<Packet>, a: Action) {
    match a
    case Deliver(packet, _) => packet in net
    case Synced(_, k) => !n.failed && k < |n.batches|
    case StorageFails(_, k) => !n.failed && k < |n.batches|
    case ClientCommand(_, cmd) => !cmd.op.SetMembers?
    case Crash(_, hs, kept) => Survives(n, hs) && Recoverable(n, hs, kept)
    case _ => true
  }

  lemma Move(first: seq<ReadWorld>, start: seq<Action>, rws: seq<ReadWorld>, acts: seq<Action>, p: Node, q: Node,
             r: Node, net: set<Packet>, a: Action, x: Reaction)
    returns (rws': seq<ReadWorld>, acts': seq<Action>)
    requires At(rws, acts, p, q, r, net) && Actor(a) <= 2 && Continues(first, start, rws, acts)
    requires var n := if Actor(a) == 0 then p else if Actor(a) == 1 then q else r;
      Allowed(n, net, a) && (a.Synced? || a.StorageFails? ==> a.batch < |n.batches|) && React(n, a) == x
    ensures acts' == acts + [a] && Continues(first, start, rws', acts')
    ensures var m := Drain(x.node); var v := Actor(a);
      At(rws', acts', if v == 0 then m else p, if v == 1 then m else q, if v == 2 then m else r, net + x.sent)
  {
    hide React, Drain, Record, RecordReads, Init, Survives, Recoverable;
    var rw := rws[|acts|];
    assert Enabled(rw.w, a);
    acts' := acts + [a];
    rws' := rws + [ReadNext(rw, a)];
    forall i | 0 <= i < |acts'| ensures Enabled(rws'[i].w, acts'[i]) && rws'[i + 1] == ReadNext(rws'[i], acts'[i]) {
      if i < |acts| { assert rws'[i] == rws[i] && rws'[i + 1] == rws[i + 1] && acts'[i] == acts[i]; }
    }
    assert ReadRun(rws', acts');
  }

  // ---- a reign of node 0, voted for and followed by node 1 -------------------------------------

  function Stood(id: NodeId, t: nat, hs: HardState): HardState { HardState(t, Some(id), hs.seqno + 1) }

  /** Node 0 as it leads term `t` with its opening entry replicated to node 1 and committed. */
  function Reigning(hs: HardState, log: seq<Entry>): Node {
    var t, n := hs.term + 1, |log| + 1;
    F(0, hs, log).(
      term := t, votedFor := Some(0), role := Leader, votes := {0, 1}, stateSeq := hs.seqno + 2,
      durableTerm := t, durableHard := Stood(0, t, hs),
      nextIndex := map[1 := n + 1, 2 := n], matchIndex := map[1 := n, 2 := 0],
      log := log + [Opening(t, n)], durableIndex := n, commitIndex := n, lastApplied := n)
  }

  lemma DrainIdle(n: Node)
    requires n.commitIndex == n.lastApplied <= |n.log| && n.pendingReads == []
    ensures Drain(n) == n
  {
  }

  function Asking(hs: HardState, log: seq<Entry>): Node {
    F(0, hs, log).(term := hs.term + 1, votedFor := Some(0), role := Candidate, votes := {0}, stateSeq := hs.seqno + 2,
                   durableTerm := hs.term + 1, durableHard := Stood(0, hs.term + 1, hs))
  }

  function VoteRequest(id: NodeId, to: NodeId, t: nat,
                       log: seq<Entry>): Packet { Packet(id, to, RequestVote(t, id, |log|, LastTerm(log))) }

  lemma TimesOut(p0: Node, p1: Node)
    requires !p0.failed && p0.role != Leader && p0.id in p0.members && p0.batches == []
    requires p1 ==
      p0.(term := p0.term + 1, votedFor := Some(p0.id), role := Candidate, votes := {p0.id},
          stateSeq := p0.stateSeq + 1,
          batches := [Batch(Campaign(p0.term + 1), Some(HardState(p0.term + 1, Some(p0.id), p0.stateSeq)))])
    ensures React(p0, ElectionTimeout(p0.id)) == Reaction(p1, {})
  {
    assert [] + p1.batches == p1.batches;
  }

  lemma SyncedIs(n: Node, k: nat)
    requires k < |n.batches|
    ensures React(n, Synced(n.id, k)) == OnSynced(n, k)
  {
  }

  lemma DeliverIs(n: Node, packet: Packet)
    requires !n.failed
    ensures React(n, Deliver(packet, false)) == OnMessage(n, packet.from, packet.msg, false)
  {
  }

  /** Fewer packets are there too. */
  lemma Narrower(rws: seq<ReadWorld>, acts: seq<Action>, p: Node, q: Node, r: Node, net: set<Packet>, less: set<Packet>)
    requires At(rws, acts, p, q, r, net) && less <= net
    ensures At(rws, acts, p, q, r, less)
  {
  }

  lemma Campaigns(first: seq<ReadWorld>, start: seq<Action>, rws: seq<ReadWorld>, acts: seq<Action>,
                  hs: HardState, log: seq<Entry>, q: Node, r: Node, net: set<Packet>)
    returns (rws': seq<ReadWorld>, acts': seq<Action>)
    requires At(rws, acts, F(0, hs, log), q, r, net) && Continues(first, start, rws, acts)
    ensures Continues(first, start, rws', acts')
    ensures At(rws', acts', Asking(hs, log), q, r, net + {VoteRequest(0, 1, hs.term + 1, log)})
  {
    hide At, React, Continues;
    var t := hs.term + 1;
    var p0 := F(0, hs, log);
    var p1 := p0.(term := t, votedFor := Some(0), role := Candidate, votes := {0}, stateSeq := hs.seqno + 2,
                  batches := [Batch(Campaign(t), Some(Stood(0, t, hs)))]);
    TimesOut(p0, p1);
    DrainIdle(p1);
    rws', acts' := Move(first, start, rws, acts, p0, q, r, net, ElectionTimeout(0), Reaction(p1, {}));
    var m := Asking(hs, log);
    CampaignSynced(p1, Stood(0, t, hs));
    SyncedIs(p1, 0);
    var sent := Broadcast(m, RequestVote(t, 0, |log|, LastTerm(log)));
    DrainIdle(m);
    rws', acts' := Move(first, start, rws', acts', p1, q, r, net + {}, Synced(0, 0), Reaction(m, sent));
    assert VoteRequest(0, 1, t, log) in sent;
    Narrower(rws', acts', m, q, r, net + {} + sent, net + {VoteRequest(0, 1, t, log)});
  }

  /** A node of the same log that hears of a new term votes for its candidate. */
  lemma VotesFor(n: Node, v: Node, c: NodeId, t: nat)
    requires !n.failed && n.term < t && n.batches == []
    requires v == n.(term := t, votedFor := Some(c), role := Follower, votes := {}, stateSeq := n.stateSeq + 1,
                     batches := [Batch(VoteReply(c, t, true), Some(HardState(t, Some(c), n.stateSeq)))])
    ensures forall index, lastTerm :: UpToDate(n.log, index, lastTerm)
              ==> OnMessage(n, c, RequestVote(t, c, index, lastTerm), false) == Reaction(v, {})
  {
    assert [] + v.batches == v.batches;
  }

  /** Node `v` of three gets its vote from `from`, and leads. */
  lemma Wins(n: Node, from: NodeId, other: NodeId, l: Node)
    requires n.role == Candidate && !n.failed && n.members == M && M == {n.id, from, other} && n.votes == {n.id}
    requires n.batches == []
    requires n.id != from && n.id != other && from != other && n.durableTerm == n.term && n.maxBatch > 0
    requires l == n.(votes := {n.id, from}, role := Leader, nextIndex := map[from := |n.log| + 1, other := |n.log| + 1],
                     matchIndex := map[from := NO_INDEX, other := NO_INDEX], probeAcked := map[],
                     log := n.log + [Opening(n.term, |n.log| + 1)],
                     batches := [Batch(LogDurable(|n.log| + 1, |n.log| + 1, UNBOUNDED, None, 0), None)])
    ensures var x := OnMessage(n, from, RequestVoteResp(n.term, true), false);
      x.node == l && FirstAppend(n.id, from, n.term, n.log, n.commitIndex) in x.sent
        && FirstAppend(n.id, other, n.term, n.log, n.commitIndex) in x.sent
  {
    hide RaftSpec.BroadcastAppend;
    var m := n.(votes := n.votes + {from});
    assert m.votes == {n.id, from} && m.votes * m.members == {n.id, from};
    assert |{n.id, from}| == 2 && |M| == 3;
    assert Peers(m) == {from, other};
    assert [] + l.batches == l.batches;
    RaftNode.LedIs(m);
    var s := RaftSpec.StartPlain(RaftNode.Led(m), LogDurable(|m.log| + 1, |m.log| + 1, UNBOUNDED, None, 0));
    assert s == l;
    FirstAppendSent(l, n.log, from);
    FirstAppendSent(l, n.log, other);
  }

  /** What a new leader sends first: its opening entry after the log it stood with. */
  function FirstAppend(id: NodeId, to: NodeId, t: nat, log: seq<Entry>, commit: nat): Packet {
    Packet(id, to, AppendEntries(t, id, |log|, LastTerm(log), [Opening(t, |log| + 1)], commit))
  }

  lemma FirstAppendSent(l: Node, log: seq<Entry>, to: NodeId)
    requires l.log == log + [Opening(l.term, |log| + 1)] && to in l.nextIndex && l.nextIndex[to] == |log| + 1
    requires l.durableTerm == l.term
    requires to in Peers(l) && l.maxBatch > 0
    ensures FirstAppend(l.id, to, l.term, log, l.commitIndex) in RaftSpec.BroadcastAppend(l)
  {
    assert TermAt(l.log, |log|) == Some(LastTerm(log));
    assert Slice(l.log, |log| + 1, l.maxBatch) == [Opening(l.term, |log| + 1)];
    assert FirstAppend(l.id, to, l.term, log, l.commitIndex) in SendAppend(l, to);
  }

  /** A follower with the leader's log takes in the opening entry. */
  lemma Follows1(n: Node, leader: NodeId, m: Node)
    requires !n.failed && n.role == Follower && n.batches == [] && n.commitIndex == 0
    requires m == n.(log := n.log + [Opening(n.term, |n.log| + 1)],
                     batches := [Batch(LogDurable(|n.log| + 1, |n.log| + 1, |n.log| + 1, Some(leader), n.term), None)])
    ensures OnMessage(n, leader, FirstAppend(leader, n.id, n.term, n.log, 0).msg, false) == Reaction(m, {})
  {
    var es := [Opening(n.term, |n.log| + 1)];
    assert TermAt(n.log, |n.log|) == Some(LastTerm(n.log));
    assert FirstNew(n.log, |n.log|, es) == 0;
    assert es[0..] == es;
    assert [] + m.batches == m.batches;
  }

  lemma CommitStep(n: Node, k: nat, from: NodeId, other: NodeId)
    requires n.members == M && n.id in M && from in M && other in M && n.id != from && n.id != other && from != other
    requires k == |n.log| == n.durableIndex > n.commitIndex && n.log[k - 1].term == n.term
    requires n.matchIndex == map[from := k, other := 0]
    ensures MaybeCommit(n) == n.(commitIndex := k)
  {
    hide Holders, IsQuorumIndex;
    TwoOfThree(n, k, from, other);
    CommitAt(n, k);
  }

  lemma CommitAt(n: Node, k: nat)
    requires QuorumIndex(n) == k && IsQuorumIndex(n, k) && k > n.commitIndex && TermAt(n.log, k) == Some(n.term)
    ensures MaybeCommit(n) == n.(commitIndex := k)
  {
  }

  /** The acknowledgement of everything by one of two followers commits it. */
  lemma Commits(n: Node, from: NodeId, other: NodeId, k: nat, had: nat)
    requires n.role == Leader && !n.failed && n.members == M && n.id in M && from in M && other in M && n.id != from
    requires n.id != other && from != other
    requires k == |n.log| == n.durableIndex > n.commitIndex && n.log[k - 1].term == n.term
    requires n.matchIndex == map[from := had, other := 0] && had <= k
    ensures OnMessage(n, from, AppendEntriesResp(n.term, true, k, NO_INDEX), false)
         == Reaction(n.(matchIndex := map[from := k, other := 0], nextIndex := n.nextIndex[from := k + 1],
                        commitIndex := k), {})
  {
    hide MaybeCommit;
    var m := n.(matchIndex := map[from := k, other := 0], nextIndex := n.nextIndex[from := k + 1]);
    assert n.matchIndex[from := k] == m.matchIndex;
    CommitStep(m, k, from, other);
  }

  // ---- a whole reign ---------------------------------------------------------------------------------

  function ElectedNode(hs: HardState, log: seq<Entry>): Node {
    var t, n := hs.term + 1, |log| + 1;
    Asking(hs, log).(votes := {0, 1}, role := Leader, nextIndex := map[1 := n, 2 := n],
                     matchIndex := map[1 := NO_INDEX, 2 := NO_INDEX],
                     log := log + [Opening(t, n)], batches := [Batch(LogDurable(n, n, UNBOUNDED, None, 0), None)])
  }

  lemma BelowMore(log: seq<Entry>, e: Entry, t: nat)
    requires Below(log, t) && e.term == t + 1
    ensures Below(log + [e], t + 1)
  {
  }

  lemma IsElected(first: seq<ReadWorld>, start: seq<Action>, rws: seq<ReadWorld>, acts: seq<Action>,
                  hs: HardState, log: seq<Entry>, r: Node, net: set<Packet>)
    returns (rws': seq<ReadWorld>, acts': seq<Action>)
    requires At(rws, acts, Asking(hs, log), F(1, hs, log), r, net) && Continues(first, start, rws, acts)
    requires VoteRequest(0, 1, hs.term + 1, log) in net && Below(log, hs.term)
    ensures Continues(first, start, rws', acts')
    ensures At(rws', acts', ElectedNode(hs, log).(batches := [], durableIndex := |log| + 1),
               F(1, Stood(0, hs.term + 1, hs), log), r,
               net + {FirstAppend(0, 1, hs.term + 1, log, 0)})
  {
    hide At, React, Continues, OnMessage, OnSynced, Drain;
    var t := hs.term + 1;
    var ht := Stood(0, t, hs);
    var p := Asking(hs, log);
    var q0 := F(1, hs, log);
    var q1 := q0.(term := t, votedFor := Some(0), stateSeq := hs.seqno + 2,
                  batches := [Batch(VoteReply(0, t, true), Some(ht))]);
    VotesFor(q0, q1, 0, t);
    assert UpToDate(log, |log|, LastTerm(log));
    DeliverIs(q0, VoteRequest(0, 1, t, log));
    DrainIdle(q1);
    rws', acts' := Move(first, start, rws, acts, p, q0, r, net, Deliver(VoteRequest(0, 1, t, log), false),
                        Reaction(q1, {}));
    var q2 := F(1, ht, log);
    VoteSynced(q1, ht, 0);
    SyncedIs(q1, 0);
    DrainIdle(q2);
    var vote := Packet(1, 0, RequestVoteResp(t, true));
    rws', acts' := Move(first, start, rws', acts', p, q1, r, net + {}, Synced(1, 0), Reaction(q2, {vote}));
    var l := ElectedNode(hs, log);
    Wins(p, 1, 2, l);
    DeliverIs(p, vote);
    DrainIdle(l);
    var x := OnMessage(p, 1, vote.msg, false);
    rws', acts' := Move(first, start, rws', acts', p, q2, r, net + {} + {vote}, Deliver(vote, false), x);
    var l2 := l.(batches := [], durableIndex := |log| + 1);
    BelowMore(log, Opening(t, |log| + 1), hs.term);
    LeaderLogSynced(l, 1, 2);
    SyncedIs(l, 0);
    DrainIdle(l2);
    rws', acts' := Move(first, start, rws', acts', l, q2, r, net + {} + {vote} + x.sent, Synced(0, 0),
                        Reaction(l2, {}));
    Narrower(rws', acts', l2, q2, r, net + {} + {vote} + x.sent + {}, net + {FirstAppend(0, 1, t, log, 0)});
  }

  /** Node 0 leads, has its opening entry replicated to node 1, and commits it. */
  lemma Reigns(first: seq<ReadWorld>, start: seq<Action>, rws: seq<ReadWorld>, acts: seq<Action>,
               hs: HardState, log: seq<Entry>, r: Node, net: set<Packet>)
    returns (rws': seq<ReadWorld>, acts': seq<Action>)
    requires At(rws, acts, F(0, hs, log), F(1, hs, log), r, net) && Continues(first, start, rws, acts)
    requires Below(log, hs.term)
    ensures Continues(first, start, rws', acts')
    ensures At(rws', acts', Reigning(hs, log), F(1, Stood(0, hs.term + 1, hs), log + [Opening(hs.term + 1, |log| + 1)]),
               r, net)
  {
    hide At, React, Continues, OnMessage, OnSynced, Drain;
    var t, n := hs.term + 1, |log| + 1;
    var ht := Stood(0, t, hs);
    rws', acts' := Campaigns(first, start, rws, acts, hs, log, F(1, hs, log), r, net);
    rws', acts' := IsElected(first, start, rws', acts', hs, log, r, net + {VoteRequest(0, 1, t, log)});
    var l := ElectedNode(hs, log).(batches := [], durableIndex := n);
    var app := FirstAppend(0, 1, t, log, 0);
    var net1 := net + {VoteRequest(0, 1, t, log)} + {app};
    var q2 := F(1, ht, log);
    var q3 := q2.(log := log + [Opening(t, n)], batches := [Batch(LogDurable(n, n, n, Some(0), t), None)]);
    Follows1(q2, 0, q3);
    DeliverIs(q2, app);
    DrainIdle(q3);
    rws', acts' := Move(first, start, rws', acts', l, q2, r, net1, Deliver(app, false), Reaction(q3, {}));
    var q4 := F(1, ht, log + [Opening(t, n)]);
    BelowMore(log, Opening(t, n), hs.term);
    FollowerLogSynced(q3, n, 0);
    SyncedIs(q3, 0);
    DrainIdle(q4);
    var ack := Packet(1, 0, AppendEntriesResp(t, true, n, NO_INDEX));
    rws', acts' := Move(first, start, rws', acts', l, q3, r, net1 + {}, Synced(1, 0), Reaction(q4, {ack}));
    Commits(l, 1, 2, n, 0);
    DeliverIs(l, ack);
    var c := l.(matchIndex := map[1 := n, 2 := 0], nextIndex := l.nextIndex[1 := n + 1], commitIndex := n);
    DrainCommits(c, n);
    assert c.(lastApplied := n) == Reigning(hs, log);
    rws', acts' := Move(first, start, rws', acts', l, q4, r, net1 + {} + {ack}, Deliver(ack, false), Reaction(c, {}));
    Narrower(rws', acts', Reigning(hs, log), q4, r, net1 + {} + {ack} + {}, net);
  }

  lemma DrainCommits(n: Node, k: nat)
    requires n.commitIndex == k >= n.lastApplied && k <= |n.log| && n.pendingReads == []
    ensures Drain(n) == n.(lastApplied := k)
  {
  }

  // ---- the story ----------------------------------------------------------------------------------------

  const HS1 := HardState(1, Some(0), 1)
  const HS2 := HardState(2, Some(0), 2)
  const HS3 := HardState(3, Some(1), 3)
  const LOG1: seq<Entry> := [Opening(1, 1)]
  const LOG2: seq<Entry> := [Opening(1, 1), Opening(2, 2)]
  const LOG3: seq<Entry> := [Opening(1, 1), Opening(2, 2), Opening(3, 3)]
  const OLD_PROBE := Packet(0, 1, RaftSpec.ReadProbe(1, 0, 1))
  const OLD_REPLY := Packet(1, 0, RaftSpec.ReadProbeResp(2, 1))

  lemma Fresh() returns (rws: seq<ReadWorld>, acts: seq<Action>)
    ensures At(rws, acts, F(0, BLANK_HARD_STATE, []), F(1, BLANK_HARD_STATE, []), F(2, BLANK_HARD_STATE, []), {})
  {
    var nodes := map[0 := F(0, BLANK_HARD_STATE, []), 1 := F(1, BLANK_HARD_STATE, []), 2 := F(2, BLANK_HARD_STATE, [])];
    var w := World(M, nodes, {}, History(Book(map[], map[], {}), map[], {}));
    assert nodes.Keys == M;
    assert Init(w);
    rws, acts := [ReadWorld(w, NO_READS)], [];
  }

  /** A leader takes a read in and probes for it. */
  lemma TakesRead(n: Node, id: nat, to: NodeId)
    requires AcceptsRead(n) && n.members == M && to in Peers(n) && n.pendingReads == [] && n.durableTerm >= n.term
    requires n.commitIndex == n.lastApplied <= |n.log|
    ensures var m :=
              n.(readSeq := n.readSeq + 1, pendingReads := [PendingRead(id, n.commitIndex, n.readSeq + 1, false)]);
      RequestRead(n, id).node == m && Drain(m) == m
        && Packet(n.id, to, RaftSpec.ReadProbe(n.term, n.id, n.readSeq + 1)) in RequestRead(n, id).sent
  {
    assert |M| == 3;
    var r := PendingRead(id, n.commitIndex, n.readSeq + 1, false);
    assert [] + [r] == [r];
    var m := n.(readSeq := n.readSeq + 1, pendingReads := [r]);
    assert m.pendingReads[1..] == [];
    assert Unready(m, m.pendingReads) == [r];
  }

  /** Terms 1 and 2: the probe of term 1 is still under way, and node 0 leads term 2 having forgotten it. */
  lemma FirstTwoTerms() returns (rws: seq<ReadWorld>, acts: seq<Action>)
    ensures At(rws, acts, Reigning(HS1, LOG1), F(1, HS2, LOG2), F(2, BLANK_HARD_STATE, []), {OLD_PROBE})
  {
    hide At, React, Continues, Drain, RequestRead, Reigning, F;
    var r := F(2, BLANK_HARD_STATE, []);
    rws, acts := Fresh();
    var first, start := rws, acts;
    StartContinues(first, start);
    rws, acts := Reigns(first, start, rws, acts, BLANK_HARD_STATE, [], r, {});
    assert [] + [Opening(1, 1)] == LOG1;
    var p := Reigning(BLANK_HARD_STATE, []);
    ReigningReads(BLANK_HARD_STATE, []);
    TakesRead(p, 7, 1);
    var p1 := RequestRead(p, 7).node;
    ReadIs(p, 7);
    rws, acts := Move(first, start, rws, acts, p, F(1, HS1, LOG1), r, {}, ClientRead(0, 7), RequestRead(p, 7));
    Narrower(rws, acts, p1, F(1, HS1, LOG1), r, {} + RequestRead(p, 7).sent, {OLD_PROBE});
    CrashIs(p1);
    rws, acts := Move(first, start, rws, acts, p1, F(1, HS1, LOG1), r, {OLD_PROBE}, Crash(0, HS1, 1),
                      Reaction(F(0, HS1, LOG1), {}));
    FreshDrain(0, HS1, LOG1);
    Narrower(rws, acts, F(0, HS1, LOG1), F(1, HS1, LOG1), r, {OLD_PROBE} + {}, {OLD_PROBE});
    rws, acts := Reigns(first, start, rws, acts, HS1, LOG1, r, {OLD_PROBE});
    assert LOG1 + [Opening(2, 2)] == LOG2;
  }

  lemma StartContinues(rws: seq<ReadWorld>, acts: seq<Action>)
    ensures Continues(rws, acts, rws, acts)
  {
  }

  lemma ReigningReads(hs: HardState, log: seq<Entry>)
    ensures var p := Reigning(hs, log);
      AcceptsRead(p) && p.members == M && p.id == 0 && p.durableTerm == p.term == hs.term + 1 && 1 in Peers(p)
      && p.pendingReads == [] && p.commitIndex == p.lastApplied == |log| + 1 == |p.log| && p.readSeq == 0
  {
  }

  lemma ReadIs(n: Node, id: nat)
    ensures React(n, ClientRead(n.id, id)) == RequestRead(n, id)
  {
  }

  lemma FreshDrain(id: NodeId, hs: HardState, log: seq<Entry>)
    ensures Drain(F(id, hs, log)) == F(id, hs, log)
  {
  }

  lemma CrashIs(p1: Node)
    requires p1 == Reigning(BLANK_HARD_STATE, []).(readSeq := 1, pendingReads := [PendingRead(7, 1, 1, false)])
    ensures Survives(p1, HS1) && Recoverable(p1, HS1, 1) && React(p1, Crash(0, HS1, 1)) == Reaction(F(0, HS1, LOG1), {})
  {
    assert p1.log == [] + [Opening(1, 1)] == LOG1;
    assert p1.log[..1] == LOG1;
  }

  /** Node 1, in term 2, answers the old probe in its own term. */
  lemma AnswersOldProbe(q: Node)
    requires q == F(1, HS2, LOG2)
    ensures React(q, Deliver(OLD_PROBE, false)) == Reaction(q, {OLD_REPLY}) && Drain(q) == q
  {
  }

  // ---- term 3, without node 0 ------------------------------------------------------------------------

  const R3 := HardState(3, Some(1), 1)

  function Q2(): Node {
    F(1, HS2, LOG2).(term := 3, votedFor := Some(1), role := Candidate, votes := {1}, stateSeq := 4,
                     durableTerm := 3, durableHard := HS3)
  }

  function L3(): Node {
    Q2().(votes := {1, 2}, role := Leader, nextIndex := map[2 := 3, 0 := 3], matchIndex := map[2 := 0, 0 := 0],
          log := LOG3, durableIndex := 3)
  }

  lemma Candidacy(first: seq<ReadWorld>, start: seq<Action>, rws: seq<ReadWorld>, acts: seq<Action>, p: Node,
                  net: set<Packet>)
    returns (rws': seq<ReadWorld>, acts': seq<Action>)
    requires At(rws, acts, p, F(1, HS2, LOG2), F(2, BLANK_HARD_STATE, []), net) && Continues(first, start, rws, acts)
    ensures Continues(first, start, rws', acts')
    ensures At(rws', acts', p, Q2(), F(2, R3, []), net + {Packet(2, 1, RequestVoteResp(3, true))})
  {
    hide At, React, Continues, OnMessage, OnSynced, Drain;
    var r0 := F(2, BLANK_HARD_STATE, []);
    var q0 := F(1, HS2, LOG2);
    var q1 := Q2().(batches := [Batch(Campaign(3), Some(HS3))], durableTerm := 2, durableHard := HS2);
    TimesOut(q0, q1);
    DrainIdle(q1);
    rws', acts' := Move(first, start, rws, acts, p, q0, r0, net, ElectionTimeout(1), Reaction(q1, {}));
    CampaignSynced(q1, HS3);
    SyncedIs(q1, 0);
    DrainIdle(Q2());
    var sent := Broadcast(Q2(), RequestVote(3, 1, |LOG2|, LastTerm(LOG2)));
    rws', acts' := Move(first, start, rws', acts', p, q1, r0, net + {}, Synced(1, 0), Reaction(Q2(), sent));
    var ask := Packet(1, 2, RequestVote(3, 1, 2, 2));
    assert ask in sent;
    var r1 := r0.(term := 3, votedFor := Some(1), stateSeq := 2, batches := [Batch(VoteReply(1, 3, true), Some(R3))]);
    VotesFor(r0, r1, 1, 3);
    assert UpToDate(r0.log, 2, 2);
    DeliverIs(r0, ask);
    DrainIdle(r1);
    rws', acts' := Move(first, start, rws', acts', p, Q2(), r0, net + {} + sent, Deliver(ask, false), Reaction(r1, {}));
    VoteSynced(r1, R3, 1);
    SyncedIs(r1, 0);
    var vote := Packet(2, 1, RequestVoteResp(3, true));
    FreshDrain(2, R3, []);
    assert r1.(batches := [], durableHard := R3, durableTerm := 3) == F(2, R3, []);
    rws', acts' := Move(first, start, rws', acts', p, Q2(), r1, net + {} + sent + {}, Synced(2, 0),
                        Reaction(F(2, R3, []), {vote}));
    Narrower(rws', acts', p, Q2(), F(2, R3, []), net + {} + sent + {} + {vote}, net + {vote});
  }

  lemma Rejects(n: Node)
    requires n == F(2, R3, [])
    ensures OnMessage(n, 1, FirstAppend(1, 2, 3, LOG2, 0).msg, false) ==
      Reaction(n, {Packet(2, 1, AppendEntriesResp(3, false, 0, 1))})
  {
    assert |LOG2| == 2;
  }

  /** The leader backs up to the beginning and sends its whole log. */
  lemma BacksUp(l: Node)
    requires l == L3()
    ensures OnMessage(l, 2, AppendEntriesResp(3, false, 0, 1), false)
         == Reaction(l.(nextIndex := map[2 := 1, 0 := 3]), {Packet(1, 2, AppendEntries(3, 1, 0, 0, LOG3, 0))})
  {
    assert l.nextIndex[2 := 1] == map[2 := 1, 0 := 3];
    assert |LOG3| == 3 && LOG3[0..3] == LOG3;
  }

  lemma TakesAll(n: Node)
    requires n == F(2, R3, [])
    ensures OnMessage(n, 1, AppendEntries(3, 1, 0, 0, LOG3, 0), false)
         == Reaction(n.(log := LOG3, batches := [Batch(LogDurable(1, 3, 3, Some(1), 3), None)]), {})
  {
    assert FirstNew([], 0, LOG3) == 0;
    assert LOG3[0..] == LOG3 && [] + LOG3 == LOG3 && |LOG3| == 3;
    var b := Batch(LogDurable(1, 3, 3, Some(1), 3), None);
    assert [] + [b] == [b];
  }

  lemma Leads3(first: seq<ReadWorld>, start: seq<Action>, rws: seq<ReadWorld>, acts: seq<Action>, p: Node,
               net: set<Packet>)
    returns (rws': seq<ReadWorld>, acts': seq<Action>)
    requires At(rws, acts, p, Q2(), F(2, R3, []), net) && Continues(first, start, rws, acts)
    requires Packet(2, 1, RequestVoteResp(3, true)) in net
    ensures Continues(first, start, rws', acts')
    ensures At(rws', acts', p, L3(), F(2, R3, []), net + {FirstAppend(1, 2, 3, LOG2, 0)})
  {
    hide At, React, Continues, OnMessage, OnSynced, Drain;
    var q, r := Q2(), F(2, R3, []);
    var vote := Packet(2, 1, RequestVoteResp(3, true));
    var l := L3().(durableIndex := 2, batches := [Batch(LogDurable(3, 3, UNBOUNDED, None, 0), None)]);
    assert LOG2 + [Opening(3, 3)] == LOG3;
    assert M == {1, 2, 0};
    Wins(q, 2, 0, l);
    DeliverIs(q, vote);
    DrainIdle(l);
    var x := OnMessage(q, 2, vote.msg, false);
    rws', acts' := Move(first, start, rws, acts, p, q, r, net, Deliver(vote, false), x);
    assert Below(LOG3, 3);
    LeaderLogSynced(l, 2, 0);
    SyncedIs(l, 0);
    DrainIdle(L3());
    rws', acts' := Move(first, start, rws', acts', p, l, r, net + x.sent, Synced(1, 0), Reaction(L3(), {}));
    Narrower(rws', acts', p, L3(), r, net + x.sent + {}, net + {FirstAppend(1, 2, 3, LOG2, 0)});
  }

  /** Node 1 with its whole log on node 2, and committed. */
  function C3(): Node {
    L3().(nextIndex := map[2 := 4, 0 := 3], matchIndex := map[2 := 3, 0 := 0], commitIndex := 3, lastApplied := 3)
  }

  lemma CatchesUp(first: seq<ReadWorld>, start: seq<Action>, rws: seq<ReadWorld>, acts: seq<Action>, p: Node,
                  net: set<Packet>)
    returns (rws': seq<ReadWorld>, acts': seq<Action>)
    requires At(rws, acts, p, L3(), F(2, R3, []), net) && Continues(first, start, rws, acts)
    requires FirstAppend(1, 2, 3, LOG2, 0) in net
    ensures Continues(first, start, rws', acts')
    ensures At(rws', acts', p, C3(), F(2, R3, LOG3), net)
  {
    hide At, React, Continues, OnMessage, OnSynced, Drain, FirstAppend;
    var l, r := L3(), F(2, R3, []);
    var app, no := FirstAppend(1, 2, 3, LOG2, 0), Packet(2, 1, AppendEntriesResp(3, false, 0, 1));
    AppendIs();
    Rejects(r);
    DeliverIs(r, app);
    FreshDrain(2, R3, []);
    rws', acts' := Move(first, start, rws, acts, p, l, r, net, Deliver(app, false), Reaction(r, {no}));
    BacksUp(l);
    DeliverIs(l, no);
    var l1 := l.(nextIndex := map[2 := 1, 0 := 3]);
    DrainIdle(l1);
    var all := Packet(1, 2, AppendEntries(3, 1, 0, 0, LOG3, 0));
    rws', acts' := Move(first, start, rws', acts', p, l, r, net + {no}, Deliver(no, false), Reaction(l1, {all}));
    TakesAll(r);
    DeliverIs(r, all);
    var r1 := r.(log := LOG3, batches := [Batch(LogDurable(1, 3, 3, Some(1), 3), None)]);
    DrainIdle(r1);
    rws', acts' := Move(first, start, rws', acts', p, l1, r, net + {no} + {all}, Deliver(all, false), Reaction(r1, {}));
    assert Below(LOG3, 3) && |LOG3| == 3;
    FollowerLogSynced(r1, 1, 1);
    SyncedIs(r1, 0);
    var ack := Packet(2, 1, AppendEntriesResp(3, true, 3, NO_INDEX));
    FreshDrain(2, R3, LOG3);
    assert r1.(batches := [], durableIndex := 3) == F(2, R3, LOG3);
    rws', acts' := Move(first, start, rws', acts', p, l1, r1, net + {no} + {all} + {}, Synced(2, 0),
                        Reaction(F(2, R3, LOG3), {ack}));
    Commits(l1, 2, 0, 3, 0);
    DeliverIs(l1, ack);
    assert l1.nextIndex[2 := 4] == map[2 := 4, 0 := 3];
    var c := l1.(matchIndex := map[2 := 3, 0 := 0], nextIndex := map[2 := 4, 0 := 3], commitIndex := 3);
    DrainCommits(c, 3);
    assert c.(lastApplied := 3) == C3();
    rws', acts' := Move(first, start, rws', acts', p, l1, F(2, R3, LOG3), net + {no} + {all} + {} + {ack},
                        Deliver(ack, false), Reaction(c, {}));
    Narrower(rws', acts', p, C3(), F(2, R3, LOG3), net + {no} + {all} + {} + {ack} + {}, net);
  }

  lemma AppendIs()
    ensures FirstAppend(1, 2, 3, LOG2, 0).from == 1 && FirstAppend(1, 2, 3, LOG2, 0).to == 2
  {
  }

  // ---- the stale read -----------------------------------------------------------------------------------

  /** Node 0, still leading term 2, counts the old answer, and serves the read at once. */
  lemma CountsOldReply(p: Node)
    requires p == Reigning(HS1, LOG1).(readSeq := 1, pendingReads := [PendingRead(8, 2, 1, false)])
    ensures var x := React(p, Deliver(OLD_REPLY, false)).node; x.term == 2 && PendingRead(8, 2, 1, true) in Served(x)
  {
    var m := p.(probeAcked := p.probeAcked[1 := 1]);
    assert m.probeAcked == map[1 := 1];
    assert Vouchers(m, 1) == {1};
    assert |M| == 3;
    var x := React(p, Deliver(OLD_REPLY, false)).node;
    assert x.pendingReads[0] == Confirm(m, p.pendingReads[0]) == PendingRead(8, 2, 1, true);
    assert x.pendingReads[0] in x.pendingReads;
  }

  /** A read served below what another node had committed when it was accepted. */
  ghost predicate Stale(rws: seq<ReadWorld>, acts: seq<Action>, i: nat, j: nat, v: NodeId, r: PendingRead, u: NodeId)
    requires |rws| == |acts| + 1
  {
    && AcceptedAt(rws, acts, i, v) && i < j && u in rws[i].w.nodes
    && ServedAt(rws, acts, j, v, rws[i].w.nodes[v].term, rws[i].w.nodes[v].readSeq + 1, r)
    && r.readIndex < rws[i].w.nodes[u].commitIndex
  }

  /**
   Reads are not always fresh: this run of the cluster serves one that misses an entry committed, on
   another node, before the read was accepted. Some reply it counts was not given in the leader's term.
  */
  lemma StaleReadServed() returns (rws: seq<ReadWorld>, acts: seq<Action>, i: nat, j: nat, r: PendingRead)
    ensures ReadRun(rws, acts) && Stale(rws, acts, i, j, 0, r, 1) && !AllVouched(rws, acts)
    ensures !GenuineAt(rws, j, 0, rws[i].w.nodes[0].term, rws[i].w.nodes[0].readSeq + 1)
  {
    hide GenuineAt, AllVouched, ReadRun;
    hide React, Drain, RequestRead, Reigning, F, Record, RecordReads, Init, Vouched, Continues, At;
    rws, acts := FirstTwoTerms();
    var first, start := rws, acts;
    StartContinues(first, start);
    var p, r0 := Reigning(HS1, LOG1), F(2, BLANK_HARD_STATE, []);
    AnswersOldProbe(F(1, HS2, LOG2));
    rws, acts := Move(first, start, rws, acts, p, F(1, HS2, LOG2), r0, {OLD_PROBE}, Deliver(OLD_PROBE, false),
                      Reaction(F(1, HS2, LOG2), {OLD_REPLY}));
    Narrower(rws, acts, p, F(1, HS2, LOG2), r0, {OLD_PROBE} + {OLD_REPLY}, {OLD_REPLY});
    rws, acts := Candidacy(first, start, rws, acts, p, {OLD_REPLY});
    rws, acts := Leads3(first, start, rws, acts, p, {OLD_REPLY} + {Packet(2, 1, RequestVoteResp(3, true))});
    rws, acts := CatchesUp(first, start, rws, acts, p,
                           {OLD_REPLY} + {Packet(2, 1, RequestVoteResp(3, true))} + {FirstAppend(1, 2, 3, LOG2, 0)});
    Narrower(rws, acts, p, C3(), F(2, R3, LOG3),
             {OLD_REPLY} + {Packet(2, 1, RequestVoteResp(3, true))} + {FirstAppend(1, 2, 3, LOG2, 0)}, {OLD_REPLY});
    rws, acts, i, j, r := LastEvents(rws, acts);
    RunLength(rws, acts);
    var T, s := rws[i].w.nodes[0].term, rws[i].w.nodes[0].readSeq + 1;
    if GenuineAt(rws, j, 0, T, s) { ServedReadsAreFresh(rws, acts, i, i, j, 0, r, 1); }
    if AllVouched(rws, acts) { AllVouchedGenuine(rws, acts, j, 0, T, s, r); }
  }

  lemma AtNodes(rws: seq<ReadWorld>, acts: seq<Action>, p: Node, q: Node, r: Node, net: set<Packet>)
    requires At(rws, acts, p, q, r, net)
    ensures ReadRun(rws, acts) && |rws| == |acts| + 1 && rws[|acts|].w.nodes == map[0 := p, 1 := q, 2 := r]
    ensures net <= rws[|acts|].w.net
  {
  }

  lemma LastEvents(first: seq<ReadWorld>, start: seq<Action>)
    returns (rws: seq<ReadWorld>, acts: seq<Action>, i: nat, j: nat, r: PendingRead)
    requires At(first, start, Reigning(HS1, LOG1), C3(), F(2, R3, LOG3), {OLD_REPLY})
    ensures ReadRun(rws, acts) && Stale(rws, acts, i, j, 0, r, 1)
  {
    hide React, Drain, RequestRead, Reigning, F, Served, At, ReadRun;
    var p, q, z := Reigning(HS1, LOG1), C3(), F(2, R3, LOG3);
    StartContinues(first, start);
    ReigningReads(HS1, LOG1);
    TakesRead(p, 8, 1);
    ReadIs(p, 8);
    AtNodes(first, start, p, q, z, {OLD_REPLY});
    i := |start|;
    rws, acts := Move(first, start, first, start, p, q, z, {OLD_REPLY}, ClientRead(0, 8), RequestRead(p, 8));
    var p1 := RequestRead(p, 8).node;
    AtNodes(rws, acts, p1, q, z, {OLD_REPLY} + RequestRead(p, 8).sent);
    j := |acts|;
    var second, upTo := rws, acts;
    StartContinues(second, upTo);
    CountsOldReply(p1);
    var x := React(p1, Deliver(OLD_REPLY, false));
    rws, acts := Move(second, upTo, second, upTo, p1, q, z, {OLD_REPLY} + RequestRead(p, 8).sent,
                      Deliver(OLD_REPLY, false), x);
    AtNodes(rws, acts, Drain(x.node), q, z, {OLD_REPLY} + RequestRead(p, 8).sent + x.sent);
    r := PendingRead(8, 2, 1, true);
    assert rws[i] == second[i] == first[i] && acts[i] == upTo[i] == ClientRead(0, 8);
    assert rws[j] == second[j] && acts[j] == Deliver(OLD_REPLY, false);
    RunEnabled(rws, acts, j);
  }

  lemma RunEnabled(rws: seq<ReadWorld>, acts: seq<Action>, j: nat)
    requires ReadRun(rws, acts) && j < |acts|
    ensures |rws| == |acts| + 1 && Enabled(rws[j].w, acts[j])
  {
  }
}
