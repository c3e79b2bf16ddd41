/** From what one event does to its node to the invariant of the whole cluster. */
module ClusterSettle {
  import opened Types
  import opened RaftSpec
  import opened Cluster
  import opened ClusterInv
  import opened ClusterFacts
  import opened ClusterGrowth
  import opened ClusterNode
  import opened ClusterLeader

  /** Whoever the event elected was voted for by every voter but itself. */
  ghost predicate Elected(w: World, m: Node) {
    m.role == Leader && m.term !in w.h.book.elections ==>
      forall u :: u in m.votes * m.members && u != m.id ==> Packet(u, m.id, RequestVoteResp(m.term, true)) in w.net
  }

  /** An event's outcome keeps the invariant for the node itself, the history and the new packets. */
  ghost predicate Sound(w: World, n: Node, r: Reaction) {
    var h' := Record(w, n, r.node, r.sent);
    && r.node.id == n.id && r.node.members == n.members
    && Extends(w.h, h') && HistoryOk(h', w.members) && NodeOk(h', w.net + r.sent, r.node)
    && (forall p :: p in r.sent ==> p.from == n.id && PacketOk(h', p))
    && Elected(w, r.node)
  }

  lemma OthersElsewhere(w: World, n: Node, r: Reaction, u: Node, h': History)
    requires u.id in w.nodes && u == w.nodes[u.id] && u.id != n.id && r.node.id == n.id
    requires h' == Record(w, n, r.node, r.sent) && Extends(w.h, h')
    requires forall p :: p in r.sent ==> p.from == n.id
    requires Elected(w, r.node) && SpeechOk(w.h.book, w.h.candLog, u.id, w.net, u.durableTerm, u.batches)
    requires u.role == Leader ==> u.term in w.h.book.elections && w.h.book.elections[u.term].leader == u.id
    requires r.node.role == Leader ==> r.node.term in h'.book.elections && h'.book.elections[r.node.term].leader == n.id
    ensures Elsewhere(w.h, w.net, h', w.net + r.sent, u)
  {
    forall T | T in h'.book.elections && T !in w.h.book.elections && u.id in h'.book.elections[T].voters
      ensures T <= u.durableTerm
      ensures forall T1: nat, i: nat :: T1 < T && Owes(u.batches, T1, i) ==> !NoneReach(h'.book.elections[T], T1, i)
    {
      assert SaidOk(w.h.book, w.h.candLog, u.id, Packet(u.id, n.id, RequestVoteResp(T, true)), u.durableTerm,
                    u.batches);
      forall T1: nat, i: nat | T1 < T && Owes(u.batches, T1, i)
        ensures !NoneReach(h'.book.elections[T], T1, i)
      {
        var b :| b in u.batches && OwesAck(b) && b.action.replyTerm == T1 && b.action.verified >= i;
        assert Ack(u.id, T1, b.action.verified) in h'.book.elections[T].frozen;
      }
    }
  }

  lemma OtherOk(w: World, n: Node, r: Reaction, v: NodeId, h': History)
    requires Inv(w) && n.id in w.nodes && n == w.nodes[n.id] && Sound(w, n, r)
    requires v in w.nodes && v != n.id && h' == Record(w, n, r.node, r.sent)
    ensures NodeOk(h', w.net + r.sent, w.nodes[v])
  {
    var u := w.nodes[v];
    NodeAt(w, v);
    OthersElsewhere(w, n, r, u, h');
    NodeGrows(w.h, w.net, h', w.net + r.sent, u);
  }

  lemma PacketsOk(w: World, n: Node, r: Reaction, h': History)
    requires NetOk(w.h, w.net) && Sound(w, n, r) && h' == Record(w, n, r.node, r.sent)
    ensures NetOk(h', w.net + r.sent)
  {
    forall p | p in w.net + r.sent ensures PacketOk(h', p) {
      if p in w.net { PacketGrows(w.h, h', p); }
    }
  }

  lemma VotersOk(w: World, n: Node, r: Reaction, h': History)
    requires VotersVoted(w.h.book.elections, w.net) && h' == Record(w, n, r.node, r.sent)
    requires Elected(w, r.node) && Extends(w.h, h')
    ensures VotersVoted(h'.book.elections, w.net + r.sent)
  {
    forall T, v | T in h'.book.elections && v in h'.book.elections[T].voters
      ensures VotedFor(h'.book.elections, w.net + r.sent, v, T, h'.book.elections[T].leader)
    {
      if T in w.h.book.elections { assert VotedFor(w.h.book.elections, w.net, v, T, w.h.book.elections[T].leader); }
    }
  }

  lemma AllNodesOk(w: World, n: Node, r: Reaction, w': World)
    requires Inv(w) && n.id in w.nodes && n == w.nodes[n.id] && Sound(w, n, r)
    requires w' == w.(nodes := w.nodes[n.id := Drain(r.node)], net := w.net + r.sent, h := Record(w, n, r.node, r.sent))
    ensures NodesOk(w')
  {
    forall v | v in w'.nodes ensures NodeOk(w'.h, w'.net, w'.nodes[v]) {
      if v != n.id { OtherOk(w, n, r, v, w'.h); } else { DrainOk(w'.h, w'.net, r.node); }
    }
  }

  lemma AllMembersOk(w: World, n: Node, m: Node, sent: set<Packet>, w': World)
    requires MembersOk(w) && n.id in w.nodes && m.id == n.id && m.members == w.members
    requires forall p :: p in sent ==> p.from == n.id
    requires w' == w.(nodes := w.nodes[n.id := m], net := w.net + sent, h := w'.h)
    ensures MembersOk(w')
  {
  }

  lemma AssembleOk(w: World, n: Node, r: Reaction, w': World)
    requires Inv(w) && n.id in w.nodes && n == w.nodes[n.id] && Sound(w, n, r)
    requires w' == w.(nodes := w.nodes[n.id := Drain(r.node)], net := w.net + r.sent, h := Record(w, n, r.node, r.sent))
    ensures Inv(w')
  {
    AllNodesOk(w, n, r, w');
    PacketsOk(w, n, r, w'.h);
    VotersOk(w, n, r, w'.h);
    AllMembersOk(w, n, Drain(r.node), r.sent, w');
  }

  // ---- what a node may say --------------------------------------------------------

  ghost predicate CanSay(h: History, m: Node, p: Packet) {
    && p.from == m.id && p.to != m.id && p.msg.term <= m.durableTerm
    && match p.msg
       case RequestVote(T, c, li, lt) =>
         && c == m.id && MayReveal(m, T, m.id)
         && ((m.role == Candidate && T == m.term && li == |m.log| && lt == LastTerm(m.log))
             || ((T, c) in h.candLog && li == |h.candLog[(T, c)]| && lt == LastTerm(h.candLog[(T, c)])))
       case RequestVoteResp(T, granted) =>
         granted ==> VoteSafe(h.book, h.candLog, m.id, m.batches, T, p.to) && MayReveal(m, T, p.to)
       case AppendEntries(_, _, _, _, _, _) => m.role == Leader && p in SendAppend(m, p.to)
       case _ => true
  }

  lemma SendAppendOk(h: History, m: Node, to: NodeId, p: Packet)
    requires LeaderOk(h.book, h.commits, m)
    requires CommitOk(h.book.termLog, h.commits, m.log, m.commitIndex, m.lastApplied, m.term)
    requires m.role == Leader && p in SendAppend(m, to) && to != m.id
    ensures PacketOk(h, p)
  {
  }

  lemma OwnAckReady(h: History, net: set<Packet>, n: Node)
    requires NodeOk(h, net, n) && n.role == Leader
    ensures AckReady(h.book, n, Ack(n.id, n.term, n.durableIndex))
  {
  }

  /** The holders a leader counts have all acknowledged. */
  lemma HoldersChosen(h: History, n: Node, k: nat)
    requires LeaderOk(h.book, h.commits, n) && n.role == Leader && k > 0
    requires Gave(h.book.acks, n.id, n.term, n.durableIndex) && |Holders(n, k)| >= Quorum(n.members)
    ensures Chosen(h.book.acks, n.members, n.term, k)
  {
    var q := Holders(n, k);
    forall v | v in q ensures Gave(h.book.acks, v, n.term, k) {
      var a :| a in h.book.acks && a.node == v && a.term == n.term && a.index >= MatchOf(n, v);
    }
    assert IsQuorum(n.members, q) && GaveAll(h.book.acks, q, n.term, k);
  }

  ghost predicate CommitsNow(m0: Node, m: Node) {
    || m.commitIndex == m0.commitIndex
    || (m0.role == Leader && m.commitIndex > m0.commitIndex && |Holders(m0, m.commitIndex)| >= Quorum(m0.members)
        && TermAt(m0.log, m.commitIndex) == Some(m0.term))
  }

  /** The history with the term log and election of the event, before its acknowledgements and commits. */
  ghost predicate Begun(w: World, m: Node, h1: History) {
    && h1 == w.h.(book := h1.book) && h1.book.acks == w.h.book.acks
    && h1.book.termLog == (if m.role == Leader then w.h.book.termLog[m.term := m.log] else w.h.book.termLog)
    && h1.book.elections == (if m.role == Leader && m.term !in w.h.book.elections
                             then w.h.book.elections[m.term :=
                                                     Election(m.id, m.votes * m.members,
                                                              PossibleAcks(w, m.votes * m.members, m.term))]
                             else w.h.book.elections)
  }

  lemma BegunSame(w: World, m: Node)
    requires m.role == Leader ==>
      m.term in w.h.book.termLog && w.h.book.termLog[m.term] == m.log && m.term in w.h.book.elections
    ensures Begun(w, m, w.h)
  {
    if m.role == Leader { assert w.h.book.termLog[m.term := m.log] == w.h.book.termLog; }
  }

  /** `m0` is the node with everything but its commit and its finished batch settled; `m` is the outcome. */
  ghost predicate Outcome(m0: Node, m: Node, sent: set<Packet>, h1: History) {
    && m == m0.(commitIndex := m.commitIndex, batches := m.batches)
    && FewerBatches(m.batches, m0.batches) && CommitsNow(m0, m)
    && (forall a :: a in SentAcks(sent) ==> AckReady(h1.book, m0, a))
    && (forall p :: p in sent ==> CanSay(h1, m0.(commitIndex := m.commitIndex), p))
  }

  lemma SpokenOk(h1: History, net: set<Packet>, m0: Node, sent: set<Packet>, k: nat)
    requires NodeOk(h1, net, m0) && forall p :: p in sent ==> CanSay(h1, m0.(commitIndex := k), p)
    ensures NodeOk(h1, net + sent, m0)
  {
    forall p | p in sent
      ensures SaidOk(h1.book, h1.candLog, m0.id, p, m0.durableTerm, m0.batches)
      ensures p.msg.RequestVoteResp? && p.msg.granted ==> MayReveal(m0, p.msg.term, p.to)
    {
      assert CanSay(h1, m0.(commitIndex := k), p);
    }
    SpeakOk(h1, net, m0, sent);
  }

  lemma SettleAcks(w: World, m0: Node, m: Node, sent: set<Packet>, h1: History, h2: History)
    requires HistoryOk(h1, w.members) && NodeOk(h1, w.net, m0)
    requires Outcome(m0, m, sent, h1)
    requires h2 == h1.(book := h1.book.(acks := h1.book.acks + SentAcks(sent) + OwnAcks(m)))
    ensures HistoryOk(h2, w.members) && NodeOk(h2, w.net + sent, m0) && Extends(h1, h2)
  {
    hide HistoryOk;
    SpokenOk(h1, w.net, m0, sent, m.commitIndex);
    var acks := SentAcks(sent) + OwnAcks(m);
    if m.role == Leader { OwnAckReady(h1, w.net, m0); }
    assert h2.book.acks == h1.book.acks + acks;
    assert Acknowledges(h1.book, h2.book, m0, acks);
    AckHistory(h1, w.members, m0, acks, h2);
    AckNode(h1, w.net + sent, m0, acks, h2);
  }

  lemma SettleCommit(w: World, m0: Node, m: Node, sent: set<Packet>, h2: History, h3: History)
    requires HistoryOk(h2, w.members) && NodeOk(h2, w.net + sent, m0) && m0.members == w.members
    requires m == m0.(commitIndex := m.commitIndex, batches := m.batches) && FewerBatches(m.batches, m0.batches)
    requires CommitsNow(m0, m)
    requires m0.role == Leader ==> Gave(h2.book.acks, m0.id, m0.term, m0.durableIndex)
    requires h3 ==
      h2.(commits := if m.commitIndex > m0.commitIndex then h2.commits + {Commit(m.term, m.commitIndex)}
                     else h2.commits)
    ensures HistoryOk(h3, w.members) && NodeOk(h3, w.net + sent, m) && Extends(h2, h3)
  {
    var m1 := m0.(commitIndex := m.commitIndex);
    if m.commitIndex > m0.commitIndex {
      HoldersChosen(h2, m0, m.commitIndex);
      LeaderCommitOk(h2, w.net + sent, w.members, m0, m.commitIndex, h3);
    } else {
      assert h3 == h2 && m1 == m0;
    }
    FewerBatchesOk(h3, w.net + sent, m1, m.batches);
    assert m1.(batches := m.batches) == m;
  }

  lemma SaidPacketOk(h': History, m: Node, h1: History, said: Node, p: Packet)
    requires LeaderOk(h'.book, h'.commits, m)
    requires CommitOk(h'.book.termLog, h'.commits, m.log, m.commitIndex, m.lastApplied, m.term)
    requires CanSay(h1, said, p) && m == said.(batches := m.batches) && Extends(h1, h')
    requires p.msg.AppendEntriesResp? && p.msg.success ==> Ack(p.from, p.msg.term, p.msg.matchIndex) in h'.book.acks
    requires m.role == Candidate && m.durableTerm >= m.term ==>
      (m.term, m.id) in h'.candLog && h'.candLog[(m.term, m.id)] == m.log
    ensures p.from == m.id && PacketOk(h', p)
  {
    if p.msg.AppendEntries? {
      assert SendAppend(said, p.to) == SendAppend(m, p.to);
      SendAppendOk(h', m, p.to, p);
    }
  }

  lemma SettlePackets(h': History, net: set<Packet>, m: Node, sent: set<Packet>, h1: History, m0: Node)
    requires LeaderOk(h'.book, h'.commits, m)
    requires CommitOk(h'.book.termLog, h'.commits, m.log, m.commitIndex, m.lastApplied, m.term)
    requires Outcome(m0, m, sent, h1) && Extends(h1, h')
    requires SentAcks(sent) <= h'.book.acks
    requires m.role == Candidate && m.durableTerm >= m.term ==>
      (m.term, m.id) in h'.candLog && h'.candLog[(m.term, m.id)] == m.log
    ensures forall p :: p in sent ==> p.from == m.id && PacketOk(h', p)
  {
    var said := m0.(commitIndex := m.commitIndex);
    assert m == said.(batches := m.batches);
    forall p | p in sent ensures p.from == m.id && PacketOk(h', p) {
      if p.msg.AppendEntriesResp? && p.msg.success {
        assert Ack(p.from, p.msg.term, p.msg.matchIndex) in SentAcks(sent);
      }
      SaidPacketOk(h', m, h1, said, p);
    }
  }

  lemma RecordSteps(w: World, n: Node, m0: Node, m: Node, sent: set<Packet>, h1: History)
    requires Begun(w, m, h1) && (m.role == Leader ==> m0.commitIndex == n.commitIndex)
    requires m.role != Leader ==> m.commitIndex == m0.commitIndex
    ensures Record(w, n, m, sent) == History(
      h1.book.(acks := h1.book.acks + SentAcks(sent) + OwnAcks(m)),
      if m.role == Candidate && m.durableTerm >= m.term then h1.candLog[(m.term, m.id) := m.log] else h1.candLog,
      if m.commitIndex > m0.commitIndex then h1.commits + {Commit(m.term, m.commitIndex)} else h1.commits)
  {
  }

  lemma SettleHistory(w: World, n: Node, m0: Node, m: Node, sent: set<Packet>, h1: History) returns (h4: History)
    requires m0.id == n.id && m0.members == w.members
    requires HistoryOk(h1, w.members) && Extends(w.h, h1) && NodeOk(h1, w.net, m0) && Begun(w, m, h1)
    requires m.role == Leader ==> m0.commitIndex == n.commitIndex
    requires Outcome(m0, m, sent, h1)
    ensures h4 == Record(w, n, m, sent)
    ensures HistoryOk(h4, w.members) && NodeOk(h4, w.net + sent, m) && Extends(w.h, h4) && Extends(h1, h4)
    ensures SentAcks(sent) <= h4.book.acks
    ensures m.role == Candidate && m.durableTerm >= m.term ==>
      (m.term, m.id) in h4.candLog && h4.candLog[(m.term, m.id)] == m.log
  {
    var h2 := h1.(book := h1.book.(acks := h1.book.acks + SentAcks(sent) + OwnAcks(m)));
    var h3 :=
      h2.(commits := if m.commitIndex > m0.commitIndex then h2.commits + {Commit(m.term, m.commitIndex)}
                     else h2.commits);
    h4 := if m.role == Candidate && m.durableTerm >= m.term then h3.(candLog := h3.candLog[(m.term, m.id) := m.log])
          else h3;
    SettleAcks(w, m0, m, sent, h1, h2);
    SettleCommit(w, m0, m, sent, h2, h3);
    if m.role == Candidate && m.durableTerm >= m.term { StandOk(h3, w.net + sent, w.members, m, h4); }
    RecordSteps(w, n, m0, m, sent, h1);
    ExtendsTrans(h1, h2, h3);
    ExtendsTrans(h1, h3, h4);
    ExtendsTrans(w.h, h1, h4);
  }

  lemma SettleOk(w: World, n: Node, m0: Node, m: Node, sent: set<Packet>, h1: History)
    requires m0.id == n.id && m0.members == n.members == w.members
    requires HistoryOk(h1, w.members) && Extends(w.h, h1) && NodeOk(h1, w.net, m0) && Begun(w, m, h1)
    requires m.role == Leader ==> m0.commitIndex == n.commitIndex
    requires Outcome(m0, m, sent, h1) && Elected(w, m)
    ensures Sound(w, n, Reaction(m, sent))
  {
    var h4 := SettleHistory(w, n, m0, m, sent, h1);
    SettlePackets(h4, w.net + sent, m, sent, h1, m0);
  }

  /** The common case: the event neither elected anyone nor appended to its term's log. */
  lemma SettleSame(w: World, n: Node, m0: Node, m: Node, sent: set<Packet>)
    requires Of(w, n) && m0.id == n.id && m0.members == n.members
    requires NodeOk(w.h, w.net, m0)
    requires m.role == Leader ==> m0.commitIndex == n.commitIndex
    requires Outcome(m0, m, sent, w.h)
    ensures Sound(w, n, Reaction(m, sent))
  {
    assert LeaderOk(w.h.book, w.h.commits, m0);
    BegunSame(w, m);
    assert Extends(w.h, w.h);
    SettleOk(w, n, m0, m, sent, w.h);
  }

  lemma PlainOutcome(h: History, m: Node, sent: set<Packet>)
    requires forall p :: p in sent ==> CanSay(h, m, p) && !(p.msg.AppendEntriesResp? && p.msg.success)
    ensures Outcome(m, m, sent, h)
  {
    assert forall b :: b in m.batches ==> Milder(b, b);
    assert m.(commitIndex := m.commitIndex) == m;
  }

  /** The plainest case: nothing is committed, finished or acknowledged either. */
  lemma SettlePlain(w: World, n: Node, m: Node, sent: set<Packet>)
    requires Of(w, n) && m.id == n.id && m.members == n.members
    requires NodeOk(w.h, w.net, m) && (m.role == Leader ==> m.commitIndex == n.commitIndex)
    requires forall p :: p in sent ==> CanSay(w.h, m, p) && !(p.msg.AppendEntriesResp? && p.msg.success)
    ensures Sound(w, n, Reaction(m, sent))
  {
    PlainOutcome(w.h, m, sent);
    SettleSame(w, n, m, m, sent);
  }
}
