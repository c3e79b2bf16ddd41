/** Every event of a node keeps the invariant of the cluster. */
module ClusterStep {
  import opened Types
  import opened RaftSpec
  import opened Cluster
  import opened ClusterInv
  import opened ClusterFacts
  import opened ClusterGrowth
  import opened ClusterNode
  import opened ClusterFollower
  import opened ClusterLeader
  import opened ClusterSettle

  lemma OfOk(w: World, n: Node)
    requires Of(w, n)
    ensures NodeOk(w.h, w.net, n) && n.members == w.members
  {
    NodeAt(w, n.id);
  }

  lemma UnchangedSound(w: World, n: Node)
    requires Of(w, n)
    ensures Sound(w, n, Reaction(n, {}))
  {
    SettlePlain(w, n, n, {});
  }

  lemma StepDownSound(w: World, n: Node, term: nat)
    requires Of(w, n) && term > n.term
    ensures Sound(w, n, Reaction(StepDownAndPersist(n, term), {}))
  {
    StepDownOk(w.h, w.net, n, term);
    StartHardOk(w.h, w.net, StepDown(n, term), Quiet);
    SettlePlain(w, n, StepDownAndPersist(n, term), {});
  }

  // ---- votes ---------------------------------------------------------------------

  ghost predicate Asks(h: History, n: Node, from: NodeId, T: nat, li: nat, lt: nat) {
    from != n.id && (T, from) in h.candLog && li == |h.candLog[(T, from)]| && lt == LastTerm(h.candLog[(T, from)])
  }

  lemma VoteStateOk(w: World, n: Node, m: Node, from: NodeId, li: nat, lt: nat)
    requires Of(w, n) && NodeOk(w.h, w.net, m) && Asks(w.h, m, from, m.term, li, lt) && m.id == n.id
    requires m.votedFor.None? && UpToDate(m.log, li, lt)
    ensures NodeOk(w.h, w.net, m.(votedFor := Some(from)))
  {
    CastVoteOk(w.h, w.net, w.members, m, from);
  }

  lemma RevealOk(h: History, net: set<Packet>, m: Node, from: NodeId)
    requires NodeOk(h, net, m) && from != m.id && m.votedFor == Some(from)
    requires m.durableHard.term == m.term && m.durableHard.votedFor == Some(from)
    ensures VoteSafe(h.book, h.candLog, m.id, m.batches, m.term, from) && MayReveal(m, m.term, from)
  {
    assert CastOk(h.book, h.candLog, m.id, m.batches, m.term, m.votedFor);
  }

  lemma RequestVoteRefused(w: World, n: Node, from: NodeId, T: nat, li: nat, lt: nat, ignore: bool)
    requires Of(w, n) && Asks(w.h, n, from, T, li, lt) && (T < n.term || (T > n.term && ignore))
    ensures Sound(w, n, OnRequestVote(n, from, T, from, li, lt, ignore))
  {
    var r := OnRequestVote(n, from, T, from, li, lt, ignore);
    assert r == Reaction(n, r.sent);
    SettlePlain(w, n, n, r.sent);
  }

  /** The answer waits for the write: `voted` is the node with the new term or vote. */
  lemma VoteWrittenSound(w: World, n: Node, voted: Node, from: NodeId, granted: bool)
    requires Of(w, n) && NodeOk(w.h, w.net, voted) && voted.id == n.id && voted.members == n.members
    requires voted.role == Leader ==> voted.commitIndex == n.commitIndex
    requires from != n.id && (granted ==> voted.votedFor == Some(from))
    ensures Sound(w, n, Reaction(StartHard(voted, VoteReply(from, voted.term, granted)), {}))
  {
    hide Of, Inv, NodeOk, Sound;
    OfOk(w, n);
    var a := VoteReply(from, voted.term, granted);
    StartHardOk(w.h, w.net, voted, a);
    SettlePlain(w, n, StartHard(voted, a), {});
  }

  /** The answer needs no write: the vote, if there is one, is durable already. */
  lemma VoteRepeatedSound(w: World, n: Node, from: NodeId, granted: bool)
    requires Of(w, n) && from != n.id
    requires granted ==>
      n.votedFor == Some(from) && n.durableHard.term == n.term && n.durableHard.votedFor == Some(from)
    ensures Sound(w, n, Reaction(n, Send(n, from, RequestVoteResp(n.term, granted))))
  {
    OfOk(w, n);
    if granted { RevealOk(w.h, w.net, n, from); }
    hide Inv, NodeOk, Sound;
    SettlePlain(w, n, n, Send(n, from, RequestVoteResp(n.term, granted)));
  }

  /** `m` is `n`, moved to the request's term if that is higher. */
  lemma RequestVoteDecided(w: World, n: Node, m: Node, from: NodeId, T: nat, li: nat, lt: nat)
    requires Of(w, n) && NodeOk(w.h, w.net, m) && Asks(w.h, n, from, T, li, lt)
    requires T >= n.term && m == if T > n.term then StepDown(n, T) else n
    ensures Sound(w, n, OnRequestVote(n, from, T, from, li, lt, false))
  {
    hide Of, Inv, NodeOk, Sound;
    OfOk(w, n);
    var granted := (m.votedFor.None? || m.votedFor == Some(from)) && UpToDate(m.log, li, lt);
    var casts := granted && m.votedFor != Some(from);
    var voted := if casts then m.(votedFor := Some(from)) else m;
    if casts { VoteStateOk(w, n, m, from, li, lt); }
    if T > n.term || casts {
      VoteWrittenSound(w, n, voted, from, granted);
    } else if granted && (n.durableHard.term != n.term || n.durableHard.votedFor != Some(from)) {
      UnchangedSound(w, n);
    } else {
      VoteRepeatedSound(w, n, from, granted);
    }
  }

  lemma RequestVoteSound(w: World, n: Node, from: NodeId, T: nat, li: nat, lt: nat, ignore: bool)
    requires Of(w, n) && Asks(w.h, n, from, T, li, lt)
    ensures Sound(w, n, OnRequestVote(n, from, T, from, li, lt, ignore))
  {
    if T < n.term || (T > n.term && ignore) {
      RequestVoteRefused(w, n, from, T, li, lt, ignore);
    } else {
      if T > n.term { StepDownOk(w.h, w.net, n, T); }
      RequestVoteDecided(w, n, if T > n.term then StepDown(n, T) else n, from, T, li, lt);
    }
  }

  // ---- being elected ---------------------------------------------------------------

  /** The candidate about to lead: `n` but for its votes and its finished campaign write. */
  ghost predicate Winning(w: World, n: Node, m: Node) {
    && NodeOk(w.h, w.net, m) && m.role == Candidate && m.durableTerm >= m.term
    && m.id == n.id && m.members == n.members && m.log == n.log && m.term == n.term && m.commitIndex == n.commitIndex
    && |m.votes * m.members| >= Quorum(m.members)
    && (forall b :: b in m.batches ==> b in n.batches)
  }

  /** Whoever already led the term shares a voter with the candidate, so it is the candidate. */
  lemma SameLeader(w: World, m: Node)
    requires Inv(w) && m.term in w.h.book.elections
    requires IsQuorum(w.members, m.votes * m.members) && m.votedFor == Some(m.id)
    requires forall u :: u in m.votes && u != m.id ==> Packet(u, m.id, RequestVoteResp(m.term, true)) in w.net
    requires SameVote(w.h.book.elections, w.net, m.id, m.term, m.votedFor)
    ensures w.h.book.elections[m.term].leader == m.id
  {
    var es := w.h.book.elections;
    var T := m.term;
    var q := m.votes * m.members;
    QuorumsMeet(w.members, q, es[T].voters);
    var v :| v in q * es[T].voters;
    assert VotedFor(es, w.net, v, T, es[T].leader);
    if v != m.id {
      var u := w.nodes[v];
      NodeAt(w, v);
      assert VotedFor(es, w.net, v, T, m.id);
    }
  }

  lemma FreshTerm(w: World, n: Node, m: Node)
    requires Of(w, n) && Winning(w, n, m)
    ensures m.term !in w.h.book.elections
  {
    assert CandidateOk(w.h.book.elections, w.h.candLog, w.net, m);
    assert OnceOk(w.h.book.elections, w.net, m.id, m.term, m.votedFor, m.durableHard, m.batches);
    if m.term in w.h.book.elections { SameLeader(w, m); }
  }

  lemma FiledBy(w: World, voters: set<NodeId>, T: nat, a: Ack, i: nat)
    requires a in PossibleAcks(w, voters, T) && i <= a.index && voters <= w.nodes.Keys
    ensures a.term < T && a.node in voters
    ensures Owes(w.nodes[a.node].batches, a.term, i) || Gave(w.h.book.acks, a.node, a.term, i)
  {
    if a !in w.h.book.acks {
      var b :|
        b in w.nodes[a.node].batches && OwesAck(b) && b.action.replyTerm == a.term && b.action.verified == a.index;
    }
  }

  /** A voter's vote is safe for the log the candidate stood with. */
  lemma VoterHeld(w: World, u: Node, T: nat, c: NodeId, T1: nat, i: nat)
    requires SpeechOk(w.h.book, w.h.candLog, u.id, w.net, u.durableTerm, u.batches)
    requires Packet(u.id, c, RequestVoteResp(T, true)) in w.net
    requires OwnIndex(w.h.book.termLog, T1, i) && T1 < T && (Owes(u.batches, T1, i) || Gave(w.h.book.acks, u.id, T1, i))
    ensures (T, c) in w.h.candLog && Safe(w.h.book, T1, i, w.h.candLog[(T, c)])
  {
    assert SaidOk(w.h.book, w.h.candLog, u.id, Packet(u.id, c, RequestVoteResp(T, true)), u.durableTerm, u.batches);
  }

  lemma OwnHeld(b: Book, n: Node, T1: nat, i: nat)
    requires AckOk(b, n.id, n.log, n.durableIndex, n.batches)
    requires OwnIndex(b.termLog, T1, i) && (Owes(n.batches, T1, i) || Gave(b.acks, n.id, T1, i))
    ensures Safe(b, T1, i, n.log)
  {
  }

  ghost predicate VotesIn(w: World, m: Node) {
    forall u :: u in m.votes && u != m.id ==> Packet(u, m.id, RequestVoteResp(m.term, true)) in w.net
  }

  lemma FiledHolds(w: World, n: Node, m: Node, a: Ack, i: nat)
    requires MembersOk(w) && NodesOk(w) && n.id in w.nodes && n == w.nodes[n.id]
    requires m.id == n.id && m.log == n.log && m.members == w.members && VotesIn(w, m)
    requires (m.term, m.id) in w.h.candLog ==> w.h.candLog[(m.term, m.id)] == m.log
    requires a in PossibleAcks(w, m.votes * m.members, m.term) && i <= a.index && OwnIndex(w.h.book.termLog, a.term, i)
    ensures Safe(w.h.book, a.term, i, m.log)
  {
    FiledBy(w, m.votes * m.members, m.term, a, i);
    var u := w.nodes[a.node];
    assert NodeOk(w.h, w.net, u);
    if u.id == m.id {
      OwnHeld(w.h.book, n, a.term, i);
    } else {
      VoterHeld(w, u, m.term, m.id, a.term, i);
    }
  }

  lemma FiledBound(w: World, voters: set<NodeId>, T: nat, a: Ack)
    requires MembersOk(w) && NodesOk(w) && AcksOk(w.h.book) && voters <= w.nodes.Keys && a in PossibleAcks(w, voters, T)
    ensures a.term in w.h.book.termLog && a.index <= |w.h.book.termLog[a.term]|
  {
    FiledBy(w, voters, T, a, a.index);
    var u := w.nodes[a.node];
    assert NodeOk(w.h, w.net, u);
    OwedBound(w.h.book, u.id, u.term, u.durableTerm, u.batches, a.term, a.index);
  }

  lemma OwnFiled(w: World, n: Node, m: Node, e: Election, T1: nat, i: nat)
    requires m.id == n.id && n.id in w.nodes && n == w.nodes[n.id] && (forall b :: b in m.batches ==> b in n.batches)
    requires e.frozen == PossibleAcks(w, e.voters, m.term) && m.id in e.voters
    requires T1 < m.term && Owes(m.batches, T1, i)
    ensures !NoneReach(e, T1, i)
  {
    var b :| b in m.batches && OwesAck(b) && b.action.replyTerm == T1 && b.action.verified >= i;
    assert b in n.batches;
    assert Ack(m.id, T1, b.action.verified) in e.frozen;
  }

  lemma FileOk(w: World, n: Node, m: Node, e: Election)
    requires Of(w, n) && Winning(w, n, m)
    requires e == Election(m.id, m.votes * m.members, PossibleAcks(w, m.votes * m.members, m.term))
    ensures IsQuorum(w.members, e.voters) && FileComplete(w.h.book, e, m.term) && VoterHolds(w.h.book, e, m.term, m.log)
    ensures forall T1: nat, i: nat :: T1 < m.term && m.id in e.voters && Owes(m.batches, T1, i) ==> !NoneReach(e, T1, i)
  {
    assert CandidateOk(w.h.book.elections, w.h.candLog, w.net, m);
    forall a | a in e.frozen ensures a.term in w.h.book.termLog && a.index <= |w.h.book.termLog[a.term]| {
      FiledBound(w, e.voters, m.term, a);
    }
    forall a, i: nat | a in e.frozen && a.term < m.term && i <= a.index && OwnIndex(w.h.book.termLog, a.term, i)
      ensures Safe(w.h.book, a.term, i, m.log)
    {
      FiledHolds(w, n, m, a, i);
    }
    forall T1: nat, i: nat | T1 < m.term && m.id in e.voters && Owes(m.batches, T1, i) ensures !NoneReach(e, T1, i) {
      OwnFiled(w, n, m, e, T1, i);
    }
  }

  lemma BroadcastSaid(h: History, m: Node)
    requires m.role == Leader
    ensures forall p :: p in BroadcastAppend(m) ==> CanSay(h, m, p) && p.msg.AppendEntries?
  {
  }

  lemma ElectSound(w: World, n: Node, m: Node, asked: set<Packet>)
    requires Of(w, n) && Winning(w, n, m)
    requires forall p :: p in asked ==> p.msg.RequestVote? && CanSay(w.h, BecomeLeader(m).node, p)
    ensures Sound(w, n, Reaction(BecomeLeader(m).node, asked + BecomeLeader(m).sent))
  {
    FreshTerm(w, n, m);
    var e := Election(m.id, m.votes * m.members, PossibleAcks(w, m.votes * m.members, m.term));
    FileOk(w, n, m, e);
    var led := BecomeLeader(m).node;
    var b := w.h.book;
    var b1 := b.(termLog := b.termLog[m.term := m.log + [Entry(m.term, |m.log| + 1, NOOP_COMMAND)]],
                 elections := b.elections[m.term := e]);
    var h1 := w.h.(book := b1);
    ElectOk(w.h, w.net, w.members, m, e, h1);
    ElectOutcome(w.h, h1, m, asked);
    SettleOk(w, n, led, led, asked + BecomeLeader(m).sent, h1);
  }

  lemma ElectOutcome(h: History, h1: History, m: Node, asked: set<Packet>)
    requires h1.candLog == h.candLog
    requires forall p :: p in asked ==> p.msg.RequestVote? && CanSay(h, BecomeLeader(m).node, p)
    ensures Outcome(BecomeLeader(m).node, BecomeLeader(m).node, asked + BecomeLeader(m).sent, h1)
  {
    var led := BecomeLeader(m).node;
    BroadcastSaid(h1, led);
    PlainOutcome(h1, led, asked + BecomeLeader(m).sent);
  }

  lemma CountVoteOk(h: History, net: set<Packet>, n: Node, from: NodeId)
    requires NodeOk(h, net, n) && Packet(from, n.id, RequestVoteResp(n.term, true)) in net
    ensures NodeOk(h, net, n.(votes := n.votes + {from}))
  {
  }

  /** Nobody grants a vote that was not asked for, and asking waits for the term to be durable. */
  lemma AskedIsDurable(w: World, n: Node, from: NodeId)
    requires Of(w, n) && Packet(from, n.id, RequestVoteResp(n.term, true)) in w.net
    ensures (n.term, n.id) in w.h.candLog && n.durableTerm >= n.term
  {
    var u := w.nodes[from];
    NodeAt(w, from);
    NodeAt(w, n.id);
    assert SaidOk(w.h.book, w.h.candLog, u.id, Packet(from, n.id, RequestVoteResp(n.term, true)), u.durableTerm,
                  u.batches);
  }

  lemma WinSound(w: World, n: Node, m: Node)
    requires Of(w, n) && Winning(w, n, m)
    ensures Sound(w, n, BecomeLeader(m))
  {
    hide *;
    ElectSound(w, n, m, {});
    assert {} + BecomeLeader(m).sent == BecomeLeader(m).sent;
  }

  lemma CountedSound(w: World, n: Node, from: NodeId)
    requires Of(w, n) && n.role == Candidate && Packet(from, n.id, RequestVoteResp(n.term, true)) in w.net
    ensures Sound(w, n, OnVoteResp(n, from, n.term, true))
  {
    hide Inv, NodeOk, Sound, BecomeLeader;
    OfOk(w, n);
    CountVoteOk(w.h, w.net, n, from);
    var m := n.(votes := n.votes + {from});
    if |m.votes * m.members| >= Quorum(m.members) {
      AskedIsDurable(w, n, from);
      WinSound(w, n, m);
    } else {
      SettlePlain(w, n, m, {});
    }
  }

  lemma VoteRespSound(w: World, n: Node, from: NodeId, T: nat, granted: bool)
    requires Of(w, n) && Packet(from, n.id, RequestVoteResp(T, granted)) in w.net
    ensures Sound(w, n, OnVoteResp(n, from, T, granted))
  {
    hide Inv, Sound;
    if T > n.term {
      StepDownSound(w, n, T);
    } else if n.role != Candidate || T != n.term || !granted {
      UnchangedSound(w, n);
    } else {
      CountedSound(w, n, from);
    }
  }
}
