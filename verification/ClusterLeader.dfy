/** Changes that grow the history: acknowledging, standing, appending, being elected, committing, speaking. */
module ClusterLeader {
  import opened Types
  import opened RaftSpec
  import opened Cluster
  import opened ClusterInv
  import opened ClusterFacts
  import opened ClusterGrowth
  import opened ClusterNode

  // ---- acknowledging -------------------------------------------------------------

  /** The node may give this acknowledgement: it is durable, and of the current term or already owed. */
  ghost predicate AckReady(b: Book, n: Node, a: Ack) {
    && a.node == n.id && a.term in b.termLog && a.index <= |b.termLog[a.term]|
    && a.term <= n.durableTerm && a.index <= n.durableIndex
    && ((a.term == n.term && Agree(b.termLog[a.term], n.log, a.index)) || Owes(n.batches, a.term, a.index))
  }

  ghost predicate Acknowledges(b: Book, b': Book, n: Node, acks: set<Ack>) {
    (forall a :: a in acks ==> AckReady(b, n, a)) && b' == b.(acks := b.acks + acks)
  }

  lemma OwesLess(batches: seq<Batch>, T: nat, i: nat, j: nat)
    requires Owes(batches, T, i) && j <= i
    ensures Owes(batches, T, j)
  {
    var b :| b in batches && OwesAck(b) && b.action.replyTerm == T && b.action.verified >= i;
  }

  lemma AckReadyHolds(b: Book, n: Node, a: Ack, i: nat)
    requires AckOk(b, n.id, n.log, n.durableIndex, n.batches) && AckReady(b, n, a)
    requires OwnIndex(b.termLog, a.term, i) && i <= a.index
    ensures (i <= n.durableIndex && Agree(b.termLog[a.term], n.log, i)) || Blocked(b.elections, a.term, i)
  {
    if a.term == n.term && Agree(b.termLog[a.term], n.log, a.index) {
      AgreeShorter(b.termLog[a.term], n.log, a.index, i);
    } else {
      OwesLess(n.batches, a.term, a.index, i);
    }
  }

  lemma AckVoteSafe(h: History, b': Book, n: Node, acks: set<Ack>, T: nat, cand: NodeId)
    requires Acknowledges(h.book, b', n, acks)
    requires VoteSafe(h.book, h.candLog, n.id, n.batches, T, cand) && T <= n.term
    ensures VoteSafe(b', h.candLog, n.id, n.batches, T, cand)
  {
    var b := h.book;
    forall T1: nat, i: nat | OwnIndex(b'.termLog, T1, i) && T1 < T
      && (Owes(n.batches, T1, i) || Gave(b'.acks, n.id, T1, i))
      ensures Safe(b', T1, i, h.candLog[(T, cand)])
    {
      if !Owes(n.batches, T1, i) && !Gave(b.acks, n.id, T1, i) {
        var a :| a in acks && a.node == n.id && a.term == T1 && a.index >= i;
        OwesLess(n.batches, a.term, a.index, i);
      }
      assert Safe(b, T1, i, h.candLog[(T, cand)]);
    }
  }

  lemma ChosenMore(acks: set<Ack>, more: set<Ack>, members: set<NodeId>, T: nat, i: nat)
    requires Chosen(acks, members, T, i) && acks <= more
    ensures Chosen(more, members, T, i)
  {
    var q :| IsQuorum(members, q) && GaveAll(acks, q, T, i);
    forall v | v in q ensures Gave(more, v, T, i) { GaveMore(acks, more, v, T, i); }
    assert GaveAll(more, q, T, i);
  }

  lemma AckHistory(h: History, members: set<NodeId>, n: Node, acks: set<Ack>, h': History)
    requires HistoryOk(h, members) && PromiseOk(h.book.elections, n.id, n.durableTerm, n.batches)
    requires n.durableTerm <= n.term
    requires Acknowledges(h.book, h'.book, n, acks) && h' == h.(book := h'.book)
    ensures HistoryOk(h', members)
  {
    var b, b' := h.book, h'.book;
    forall T2, a | T2 in b'.elections && a in b'.acks && a.term < T2 && a.node in b'.elections[T2].voters
      ensures !NoneReach(b'.elections[T2], a.term, a.index)
    {
      if a !in b.acks {
        assert AckReady(b, n, a) && T2 <= n.durableTerm;
        assert Owes(n.batches, a.term, a.index);
      }
    }
    forall c | c in h'.commits ensures Chosen(b'.acks, members, c.term, c.index) {
      ChosenMore(b.acks, b'.acks, members, c.term, c.index);
    }
    forall T1: nat, T2: nat, i: nat | T2 in b'.termLog && OwnIndex(b'.termLog, T1, i) && T1 < T2
      ensures Safe(b', T1, i, b'.termLog[T2])
    {
      assert Safe(b, T1, i, b.termLog[T2]);
    }
  }

  lemma AckOwn(h: History, n: Node, acks: set<Ack>, b': Book)
    requires AckOk(h.book, n.id, n.log, n.durableIndex, n.batches)
    requires AckTermsOk(h.book, n.id, n.term, n.durableTerm, n.batches)
    requires Acknowledges(h.book, b', n, acks)
    ensures AckOk(b', n.id, n.log, n.durableIndex, n.batches)
    ensures AckTermsOk(b', n.id, n.term, n.durableTerm, n.batches)
  {
    var b := h.book;
    forall T: nat, i: nat | OwnIndex(b'.termLog, T, i) && Gave(b'.acks, n.id, T, i)
      ensures (i <= n.durableIndex && Agree(b'.termLog[T], n.log, i)) || Blocked(b'.elections, T, i)
    {
      if !Gave(b.acks, n.id, T, i) {
        var a :| a in acks && a.node == n.id && a.term == T && a.index >= i;
        AckReadyHolds(b, n, a, i);
      }
    }
    forall T: nat, i: nat | OwnIndex(b'.termLog, T, i) && Owes(n.batches, T, i) ensures Safe(b', T, i, n.log) {
      assert Safe(b, T, i, n.log);
    }
  }

  lemma AckVotes(h: History, net: set<Packet>, n: Node, acks: set<Ack>, b': Book)
    requires VotesOk(h.book, h.candLog, n.id, n.term, n.votedFor, n.durableHard, n.batches)
    requires SpeechOk(h.book, h.candLog, n.id, net, n.durableTerm, n.batches)
    requires HardOk(n.term, n.votedFor, n.stateSeq, n.durableTerm, n.durableHard, n.batches)
    requires Acknowledges(h.book, b', n, acks)
    ensures VotesOk(b', h.candLog, n.id, n.term, n.votedFor, n.durableHard, n.batches)
    ensures SpeechOk(b', h.candLog, n.id, net, n.durableTerm, n.batches)
  {
    forall T: nat, cand | T <= n.term && VoteSafe(h.book, h.candLog, n.id, n.batches, T, cand)
      ensures VoteSafe(b', h.candLog, n.id, n.batches, T, cand)
    {
      AckVoteSafe(h, b', n, acks, T, cand);
    }
    forall p | p in net && p.from == n.id ensures SaidOk(b', h.candLog, n.id, p, n.durableTerm, n.batches) {
      assert SaidOk(h.book, h.candLog, n.id, p, n.durableTerm, n.batches);
    }
  }

  lemma AckNode(h: History, net: set<Packet>, n: Node, acks: set<Ack>, h': History)
    requires NodeOk(h, net, n)
    requires Acknowledges(h.book, h'.book, n, acks) && h' == h.(book := h'.book)
    ensures NodeOk(h', net, n)
  {
    AckOwn(h, n, acks, h'.book);
    AckVotes(h, net, n, acks, h'.book);
    if n.role == Leader {
      forall u | u in n.matchIndex && n.matchIndex[u] != 0
        ensures Gave(h'.book.acks, u, n.term, n.matchIndex[u])
      {
        GaveMore(h.book.acks, h'.book.acks, u, n.term, n.matchIndex[u]);
      }
    }
  }

  // ---- standing --------------------------------------------------------------------

  /** A candidate whose term is durable goes on record with its log. */
  lemma StandOk(h: History, net: set<Packet>, members: set<NodeId>, n: Node, h': History)
    requires HistoryOk(h, members) && NodeOk(h, net, n)
    requires n.role == Candidate && n.durableTerm >= n.term
    requires h' == h.(candLog := h.candLog[(n.term, n.id) := n.log])
    ensures HistoryOk(h', members) && NodeOk(h', net, n) && Extends(h, h')
  {
    assert Extends(h, h');
    forall T: nat, cand | VoteSafe(h.book, h.candLog, n.id, n.batches, T, cand)
      ensures VoteSafe(h'.book, h'.candLog, n.id, n.batches, T, cand)
    {
      assert h'.candLog[(T, cand)] == h.candLog[(T, cand)];
    }
    forall p | p in net && p.from == n.id ensures SaidOk(h'.book, h'.candLog, n.id, p, n.durableTerm, n.batches) {
      assert SaidOk(h.book, h.candLog, n.id, p, n.durableTerm, n.batches);
    }
  }

  // ---- appending to a term's log -----------------------------------------------------

  /** `b'` is `b` with one entry of its own term appended to the log of `T`. */
  ghost predicate Appends(b: Book, b': Book, T: nat, e: Entry) {
    && T in b.termLog && e.term == T && e.index == |b.termLog[T]| + 1
    && b' == b.(termLog := b.termLog[T := b.termLog[T] + [e]])
  }

  /** No election has on file an acknowledgement beyond the log as it is. */
  lemma FreshBlocked(b: Book, members: set<NodeId>, T: nat, T2: nat, i: nat)
    requires ElectionsOk(b, members) && T2 in b.elections && T < T2
    requires T in b.termLog ==> i > |b.termLog[T]|
    ensures Blocked(b.elections, T, i)
  {
    assert NoneReach(b.elections[T2], T, i);
  }

  lemma OwnLogOk(b: Book, b': Book, T: nat, log: seq<Entry>, e: Entry)
    requires LogOk(b.termLog, log, T) && BookExtends(b, b')
    requires e.term == T && e.index == |log| + 1
    requires T in b'.termLog && b'.termLog[T] == log + [e]
    ensures LogOk(b'.termLog, log + [e], T)
  {
    LogGrows(b, b', log, T);
    var L := b'.termLog[T];
    forall i | 0 <= i < |L|
      ensures GroundedAt(b'.termLog, L, i)
    {
      if i < |log| {
        assert L[..i + 1] == log[..i + 1];
        assert L[i] == log[i];
        assert GroundedAt(b'.termLog, log, i);
      }
    }
  }

  lemma AppendAgree(b: Book, members: set<NodeId>, T: nat, e: Entry, b': Book, T1: nat, T2: nat, i: nat)
    requires BookOk(b, members) && Appends(b, b', T, e) && BookExtends(b, b')
    requires T2 in b'.termLog && OwnIndex(b'.termLog, T1, i) && T1 < T2
    ensures Safe(b', T1, i, b'.termLog[T2])
  {
    if i > |b.termLog[T1]| {
      FreshBlocked(b, members, T1, T2, i);
      BlockedGrows(b, b', T1, i);
    } else {
      OwnIndexOld(b, b', T1, i);
      assert Safe(b, T1, i, b.termLog[T2]);
      SafeGrows(b, b', T1, i, b.termLog[T2]);
      if Agree(b'.termLog[T1], b.termLog[T2], i) { AgreeExtends(b'.termLog[T1], b.termLog[T2], b'.termLog[T2], i); }
    }
  }

  lemma AppendHistory(h: History, members: set<NodeId>, T: nat, e: Entry, h': History)
    requires HistoryOk(h, members) && Appends(h.book, h'.book, T, e) && h' == h.(book := h'.book)
    ensures HistoryOk(h', members) && Extends(h, h')
  {
    var b, b' := h.book, h'.book;
    assert BookExtends(b, b');
    forall T2 | T2 in b'.termLog ensures LogOk(b'.termLog, b'.termLog[T2], T2) {
      if T2 == T { OwnLogOk(b, b', T, b.termLog[T], e); } else { LogGrows(b, b', b.termLog[T2], T2); }
    }
    forall k | k in h'.candLog ensures LogOk(b'.termLog, h'.candLog[k], k.0) { LogGrows(b, b', h.candLog[k], k.0); }
    forall T1: nat, T2: nat, i: nat | T2 in b'.termLog && OwnIndex(b'.termLog, T1, i) && T1 < T2
      ensures Safe(b', T1, i, b'.termLog[T2])
    {
      AppendAgree(b, members, T, e, b', T1, T2, i);
    }
    forall c | c in h'.commits ensures OwnIndex(b'.termLog, c.term, c.index) {
      assert OwnIndex(b.termLog, c.term, c.index);
    }
  }

  /** A longer log still holds what the shorter one held. */
  lemma LongerAckOk(b: Book, id: NodeId, log: seq<Entry>, log': seq<Entry>, durable: nat, batches: seq<Batch>)
    requires AckOk(b, id, log, durable, batches) && log <= log'
    ensures AckOk(b, id, log', durable, batches)
  {
    forall T: nat, i: nat | OwnIndex(b.termLog, T, i) && Agree(b.termLog[T], log, i)
      ensures Agree(b.termLog[T], log', i)
    {
      AgreeExtends(b.termLog[T], log, log', i);
    }
    forall T: nat, i: nat | OwnIndex(b.termLog, T, i) && Owes(batches, T, i) ensures Safe(b, T, i, log') {
      assert Safe(b, T, i, log);
    }
  }

  lemma LongerDecided(termLog: map<nat, seq<Entry>>, commits: set<Commit>, log: seq<Entry>, log': seq<Entry>, k: nat,
                      term: nat)
    requires Decided(termLog, commits, log, k, term) && log <= log'
    ensures Decided(termLog, commits, log', k, term)
  {
    if k > 0 {
      var c :| c in commits && c.term <= term && k <= c.index && c.term in termLog && Agree(log, termLog[c.term], k);
      AgreeExtends(termLog[c.term], log, log', k);
      assert Agree(log', termLog[c.term], k);
    }
  }

  /** `m` is `n` in another role, with `e` at the end of its log. */
  ghost predicate Leads(n: Node, m: Node, e: Entry) {
    && m ==
      n.(role := m.role, nextIndex := m.nextIndex, matchIndex := m.matchIndex, probeAcked := m.probeAcked,
         log := n.log + [e])
    && e.term == n.term && e.index == |n.log| + 1
  }

  /** Everything but the role survives appending `e` to the node's log while the history grows aside. */
  lemma OwnAppendOk(h: History, net: set<Packet>, h': History, n: Node, m: Node, e: Entry)
    requires NodeOk(h, net, n) && AcksOk(h.book) && Aside(h, h', n) && Leads(n, m, e)
    requires n.term in h'.book.termLog && h'.book.termLog[n.term] == n.log + [e]
    requires OnceOk(h'.book.elections, net, n.id, n.term, n.votedFor, n.durableHard, n.batches)
    requires CandidateOk(h'.book.elections, h'.candLog, net, m) && LeaderOk(h'.book, h'.commits, m)
    requires StoodOk(h'.candLog, m.id, m.durableTerm)
    ensures NodeOk(h', net, m)
  {
    OwnLogOk(h.book, h'.book, n.term, n.log, e);
    AckGrows(h, h', n);
    LongerAckOk(h'.book, n.id, n.log, m.log, n.durableIndex, n.batches);
    VotesGrow(h, h', n);
    DecidedGrows(h, h', n.log, n.commitIndex, n.term);
    LongerDecided(h'.book.termLog, h'.commits, n.log, m.log, n.commitIndex, n.term);
    assert PromiseOk(h'.book.elections, n.id, n.durableTerm, n.batches);
    assert ClaimOk(m.log, m.durableIndex, m.durableTerm);
  }

  lemma ProposeOk(h: History, net: set<Packet>, members: set<NodeId>, n: Node, cmd: Command, h': History)
    requires HistoryOk(h, members) && NodeOk(h, net, n) && n.role == Leader
    requires h' == h.(book := h.book.(termLog := h.book.termLog[n.term := n.log + [Entry(n.term, |n.log| + 1, cmd)]]))
    ensures HistoryOk(h', members) && Extends(h, h')
    ensures NodeOk(h', net, n.(log := n.log + [Entry(n.term, |n.log| + 1, cmd)]))
  {
    var e := Entry(n.term, |n.log| + 1, cmd);
    assert Appends(h.book, h'.book, n.term, e);
    AppendHistory(h, members, n.term, e, h');
    OwnAppendOk(h, net, h', n, n.(log := n.log + [e]), e);
  }

  // ---- being elected -----------------------------------------------------------------

  /** What the election has on file covers everything its voters may have acknowledged in earlier terms. */
  ghost predicate FileComplete(b: Book, e: Election, T: nat) {
    && (forall a :: a in e.frozen ==> a.term in b.termLog && a.index <= |b.termLog[a.term]|)
    && (forall a :: a in b.acks && a.node in e.voters && a.term < T ==> a in e.frozen)
  }

  /** The new leader has whatever its voters may have acknowledged. */
  ghost predicate VoterHolds(b: Book, e: Election, T: nat, log: seq<Entry>) {
    forall a, i: nat ::
      a in e.frozen && a.term < T && i <= a.index && OwnIndex(b.termLog, a.term, i) ==> Safe(b, a.term, i, log)
  }

  ghost predicate Elects(b: Book, b': Book, T: nat, log: seq<Entry>, e: Election) {
    && T !in b.termLog
    && b' == b.(termLog := b.termLog[T := log + [Entry(T, |log| + 1, NOOP_COMMAND)]], elections := b.elections[T := e])
  }

  lemma ElectExtends(b: Book, b': Book, T: nat, log: seq<Entry>, e: Election)
    requires TermLogsOk(b) && Elects(b, b', T, log, e)
    ensures BookExtends(b, b')
  {
  }

  lemma ElectAgree(b: Book, members: set<NodeId>, T: nat, log: seq<Entry>, e: Election, b': Book, T1: nat, T2: nat,
                   i: nat)
    requires BookOk(b, members) && LogOk(b.termLog, log, T) && Elects(b, b', T, log, e)
    requires VoterHolds(b, e, T, log)
    requires T2 in b'.termLog && OwnIndex(b'.termLog, T1, i) && T1 < T2
    ensures Safe(b', T1, i, b'.termLog[T2])
  {
    ElectExtends(b, b', T, log, e);
    if T1 == T {
      FreshBlocked(b, members, T1, T2, i);
      BlockedGrows(b, b', T1, i);
    } else {
      OwnIndexOld(b, b', T1, i);
      if T2 != T {
        assert Safe(b, T1, i, b.termLog[T2]);
        SafeGrows(b, b', T1, i, b.termLog[T2]);
      } else if NoneReach(e, T1, i) {
        assert T in b'.elections && NoneReach(b'.elections[T], T1, i);
      } else {
        var a :| a in e.frozen && a.term == T1 && a.index >= i;
        assert Safe(b, T1, i, log);
        SafeGrows(b, b', T1, i, log);
        if Agree(b'.termLog[T1], log, i) { AgreeExtends(b'.termLog[T1], log, b'.termLog[T], i); }
      }
    }
  }

  lemma ElectHistory(h: History, members: set<NodeId>, T: nat, log: seq<Entry>, e: Election, h': History)
    requires HistoryOk(h, members) && LogOk(h.book.termLog, log, T)
    requires Elects(h.book, h'.book, T, log, e) && h' == h.(book := h'.book)
    requires IsQuorum(members, e.voters) && FileComplete(h.book, e, T) && VoterHolds(h.book, e, T, log)
    ensures HistoryOk(h', members) && Extends(h, h')
  {
    var b, b' := h.book, h'.book;
    ElectExtends(b, b', T, log, e);
    forall T2 | T2 in b'.termLog ensures LogOk(b'.termLog, b'.termLog[T2], T2) {
      if T2 == T {
        OwnLogOk(b, b', T, log, Entry(T, |log| + 1, NOOP_COMMAND));
      } else {
        LogGrows(b, b', b.termLog[T2], T2);
      }
    }
    forall k | k in h'.candLog ensures LogOk(b'.termLog, h'.candLog[k], k.0) { LogGrows(b, b', h.candLog[k], k.0); }
    forall T1: nat, T2: nat, i: nat | T2 in b'.termLog && OwnIndex(b'.termLog, T1, i) && T1 < T2
      ensures Safe(b', T1, i, b'.termLog[T2])
    {
      ElectAgree(b, members, T, log, e, b', T1, T2, i);
    }
    assert AcksFrozen(b');
    forall c | c in h'.commits ensures OwnIndex(b'.termLog, c.term, c.index) {
      assert OwnIndex(b.termLog, c.term, c.index);
    }
  }

  lemma ElectOnce(h: History, net: set<Packet>, n: Node, e: Election, b': Book)
    requires OnceOk(h.book.elections, net, n.id, n.term, n.votedFor, n.durableHard, n.batches)
    requires HardOk(n.term, n.votedFor, n.stateSeq, n.durableTerm, n.durableHard, n.batches)
    requires CandidateOk(h.book.elections, h.candLog, net, n) && n.role == Candidate && n.durableTerm >= n.term
    requires Elects(h.book, b', n.term, n.log, e) && e.leader == n.id
    ensures OnceOk(b'.elections, net, n.id, n.term, n.votedFor, n.durableHard, n.batches)
  {
    forall T, c | VotedFor(b'.elections, net, n.id, T, c)
      ensures VotedFor(h.book.elections, net, n.id, T, c) || (T == n.term && c == n.id)
    {}
    assert SameVote(h.book.elections, net, n.id, n.term, n.votedFor);
  }

  lemma ElectRole(h: History, net: set<Packet>, members: set<NodeId>, n: Node, e: Election, h': History)
    requires HistoryOk(h, members) && StoodOk(h.candLog, n.id, n.durableTerm) && n.role == Candidate
    requires n.durableTerm >= n.term
    requires Elects(h.book, h'.book, n.term, n.log, e) && e.leader == n.id && h' == h.(book := h'.book)
    ensures var m := BecomeLeader(n).node.(batches := n.batches);
      LeaderOk(h'.book, h'.commits, m) && CandidateOk(h'.book.elections, h'.candLog, net, m)
        && StoodOk(h'.candLog, m.id, m.durableTerm)
  {
    forall c | c in h'.commits ensures c.term != n.term {
      assert OwnIndex(h.book.termLog, c.term, c.index);
    }
  }

  lemma ElectOk(h: History, net: set<Packet>, members: set<NodeId>, n: Node, e: Election, h': History)
    requires HistoryOk(h, members) && NodeOk(h, net, n) && n.role == Candidate && n.durableTerm >= n.term
    requires Elects(h.book, h'.book, n.term, n.log, e) && e.leader == n.id && h' == h.(book := h'.book)
    requires IsQuorum(members, e.voters) && FileComplete(h.book, e, n.term) && VoterHolds(h.book, e, n.term, n.log)
    requires forall T1: nat, i: nat ::
      T1 < n.term && n.id in e.voters && Owes(n.batches, T1, i) ==> !NoneReach(e, T1, i)
    ensures HistoryOk(h', members) && Extends(h, h')
    ensures NodeOk(h', net, BecomeLeader(n).node)
  {
    ElectHistory(h, members, n.term, n.log, e, h');
    var noop := Entry(n.term, |n.log| + 1, NOOP_COMMAND);
    assert Aside(h, h', n);
    ElectOnce(h, net, n, e, h'.book);
    ElectRole(h, net, members, n, e, h');
    var m := BecomeLeader(n).node.(batches := n.batches);
    OwnAppendOk(h, net, h', n, m, noop);
    StartPlainOk(h', net, m, LogDurable(|n.log| + 1, |n.log| + 1, UNBOUNDED, None, 0));
  }

  // ---- committing ----------------------------------------------------------------------

  lemma LeaderCommitOk(h: History, net: set<Packet>, members: set<NodeId>, n: Node, k: nat, h': History)
    requires HistoryOk(h, members) && NodeOk(h, net, n) && n.role == Leader
    requires k > n.commitIndex && TermAt(n.log, k) == Some(n.term) && Chosen(h.book.acks, members, n.term, k)
    requires h' == h.(commits := h.commits + {Commit(n.term, k)})
    ensures HistoryOk(h', members) && Extends(h, h') && NodeOk(h', net, n.(commitIndex := k))
  {
    var c := Commit(n.term, k);
    assert c in h'.commits && Agree(n.log, h'.book.termLog[n.term], k);
    assert Decided(h'.book.termLog, h'.commits, n.log, k, n.term);
  }

  // ---- speaking ------------------------------------------------------------------------

  /** The node holds a hard state in which it voted for `c` in `T`. */
  ghost predicate HoldsVote(n: Node, T: nat, c: NodeId) {
    || (n.term == T && n.votedFor == Some(c))
    || (n.durableHard.term == T && n.durableHard.votedFor == Some(c))
    || (exists b :: b in n.batches && b.hard.Some? && b.hard.value.term == T && b.hard.value.votedFor == Some(c))
  }

  /** A vote may be revealed once it is durable. */
  ghost predicate MayReveal(n: Node, T: nat, c: NodeId) {
    HoldsVote(n, T, c) && Follows(HardState(T, Some(c), 0), n.durableHard)
  }

  lemma OneVote(n: Node, T: nat, c: NodeId, d: NodeId)
    requires HardOk(n.term, n.votedFor, n.stateSeq, n.durableTerm, n.durableHard, n.batches)
    requires HoldsVote(n, T, c) && HoldsVote(n, T, d)
    ensures c == d
  {
  }

  lemma HoldsVoteSame(h: History, net: set<Packet>, n: Node, T: nat, c: NodeId, d: NodeId)
    requires OnceOk(h.book.elections, net, n.id, n.term, n.votedFor, n.durableHard, n.batches)
    requires HoldsVote(n, T, c) && VotedFor(h.book.elections, net, n.id, T, d)
    ensures c == d
  {
    assert SameVote(h.book.elections, net, n.id, T, Some(c)) by {
      if !(n.term == T && n.votedFor == Some(c)) && !(n.durableHard.term == T && n.durableHard.votedFor == Some(c)) {
        var b :| b in n.batches && b.hard.Some? && b.hard.value.term == T && b.hard.value.votedFor == Some(c);
        assert SameVote(h.book.elections, net, n.id, b.hard.value.term, b.hard.value.votedFor);
      }
    }
  }

  lemma SpeakOnce(h: History, net: set<Packet>, n: Node, sent: set<Packet>)
    requires NodeOk(h, net, n)
    requires forall p ::
      p in sent && p.from == n.id && p.msg.RequestVoteResp? && p.msg.granted ==> MayReveal(n, p.msg.term, p.to)
    requires forall p :: p in sent && p.from == n.id && p.msg.RequestVote? ==> MayReveal(n, p.msg.term, n.id)
    ensures OnceOk(h.book.elections, net + sent, n.id, n.term, n.votedFor, n.durableHard, n.batches)
  {
    var es := h.book.elections;
    forall T, c | VotedFor(es, net + sent, n.id, T, c)
      ensures VotedFor(es, net, n.id, T, c) || MayReveal(n, T, c)
    {
      if Packet(n.id, c, RequestVoteResp(T, true)) in sent {
        assert MayReveal(n, T, c);
      } else if c == n.id && Asked(net + sent, n.id, T) && !Asked(net, n.id, T) {
        var p :| p in net + sent && p.from == n.id && p.msg.RequestVote? && p.msg.term == T;
        assert p in sent;
      }
    }
    forall T, c, d | VotedFor(es, net + sent, n.id, T, c) && HoldsVote(n, T, d) ensures c == d {
      if VotedFor(es, net, n.id, T, c) { HoldsVoteSame(h, net, n, T, d, c); } else { OneVote(n, T, c, d); }
    }
    forall b | b in n.batches && b.hard.Some?
      ensures SameVote(es, net + sent, n.id, b.hard.value.term, b.hard.value.votedFor)
    {
      if b.hard.value.votedFor.Some? { assert HoldsVote(n, b.hard.value.term, b.hard.value.votedFor.value); }
    }
  }

  lemma SpeakOk(h: History, net: set<Packet>, n: Node, sent: set<Packet>)
    requires NodeOk(h, net, n)
    requires forall p :: p in sent ==> SaidOk(h.book, h.candLog, n.id, p, n.durableTerm, n.batches)
    requires forall p ::
      p in sent && p.from == n.id && p.msg.RequestVoteResp? && p.msg.granted ==> MayReveal(n, p.msg.term, p.to)
    requires forall p :: p in sent && p.from == n.id && p.msg.RequestVote? ==> MayReveal(n, p.msg.term, n.id)
    ensures NodeOk(h, net + sent, n)
  {
    SpeakOnce(h, net, n, sent);
    assert SpeechOk(h.book, h.candLog, n.id, net + sent, n.durableTerm, n.batches);
  }

  lemma DrainOk(h: History, net: set<Packet>, n: Node)
    requires NodeOk(h, net, n)
    ensures NodeOk(h, net, Drain(n))
  {
  }
}
