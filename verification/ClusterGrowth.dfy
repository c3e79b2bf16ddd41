/** The history only grows, and a node's part of the invariant survives growth that comes from elsewhere. */
module ClusterGrowth {
  import opened Types
  import opened RaftSpec
  import opened Cluster
  import opened ClusterInv

  ghost predicate BookExtends(b: Book, b': Book) {
    && (forall T :: T in b.termLog ==> T in b'.termLog && b.termLog[T] <= b'.termLog[T])
    && (forall T :: T in b.elections ==> T in b'.elections && b'.elections[T] == b.elections[T])
    && b.acks <= b'.acks
  }

  ghost predicate Extends(h: History, h': History) {
    && BookExtends(h.book, h'.book)
    && (forall k :: k in h.candLog ==> k in h'.candLog && h'.candLog[k] == h.candLog[k])
    && h.commits <= h'.commits
  }

  /** The growth from `h` to `h'` adds nothing this node said, and finds its promises kept. */
  ghost predicate Aside(h: History, h': History, n: Node) {
    && Extends(h, h')
    && (forall a :: a in h'.book.acks && a !in h.book.acks ==> a.node != n.id)
    && (forall T :: T in h'.book.elections && T !in h.book.elections && n.id in h'.book.elections[T].voters ==>
          && T <= n.durableTerm
          && forall T1: nat, i: nat :: T1 < T && Owes(n.batches, T1, i) ==> !NoneReach(h'.book.elections[T], T1, i))
  }

  /** Nothing in the growth from `h` to `h'` is this node's doing. */
  ghost predicate Elsewhere(h: History, net: set<Packet>, h': History, net': set<Packet>, n: Node) {
    && Aside(h, h', n)
    && net <= net'
    && (forall p :: p in net' && p !in net ==> p.from != n.id)
    && (forall k :: k in h'.candLog && k !in h.candLog ==> k.1 != n.id)
    && (forall T :: T in h'.book.elections && T !in h.book.elections ==> h'.book.elections[T].leader != n.id)
    && (n.role == Leader ==>
          && (n.term in h.book.termLog ==> h'.book.termLog[n.term] == h.book.termLog[n.term])
          && forall c :: c in h'.commits && c !in h.commits ==> c.term != n.term)
  }

  lemma ExtendsTrans(a: History, b: History, c: History)
    requires Extends(a, b) && Extends(b, c)
    ensures Extends(a, c)
  {
  }

  lemma AgreeExtends<T>(a: seq<T>, b: seq<T>, c: seq<T>, i: nat)
    requires Agree(a, b, i) && b <= c
    ensures Agree(a, c, i) && Agree(c, a, i)
  {
    assert c[..i] == b[..i];
  }

  lemma LogGrows(b: Book, b': Book, log: seq<Entry>, term: nat)
    requires LogOk(b.termLog, log, term) && BookExtends(b, b')
    ensures LogOk(b'.termLog, log, term)
  {
    forall i | 0 <= i < |log|
      ensures GroundedAt(b'.termLog, log, i)
    {
      assert GroundedAt(b.termLog, log, i);
      AgreeExtends(log, b.termLog[log[i].term], b'.termLog[log[i].term], i + 1);
    }
  }

  lemma BlockedGrows(b: Book, b': Book, T: nat, i: nat)
    requires Blocked(b.elections, T, i) && BookExtends(b, b')
    ensures Blocked(b'.elections, T, i)
  {
    var T2 :| T2 in b.elections && T < T2 && NoneReach(b.elections[T2], T, i);
    assert T2 in b'.elections && NoneReach(b'.elections[T2], T, i);
  }

  lemma OwnIndexOld(b: Book, b': Book, T: nat, i: nat)
    requires BookExtends(b, b') && OwnIndex(b'.termLog, T, i) && T in b.termLog && i <= |b.termLog[T]|
    ensures OwnIndex(b.termLog, T, i)
  {
    assert b'.termLog[T][i - 1] == b.termLog[T][i - 1];
  }

  lemma SafeGrows(b: Book, b': Book, T: nat, i: nat, log: seq<Entry>)
    requires T in b.termLog && Safe(b, T, i, log) && BookExtends(b, b')
    ensures Safe(b', T, i, log)
  {
    if Agree(b.termLog[T], log, i) {
      assert Agree(log, b.termLog[T], i);
      AgreeExtends(log, b.termLog[T], b'.termLog[T], i);
    } else {
      BlockedGrows(b, b', T, i);
    }
  }

  lemma GaveSame(acks: set<Ack>, acks': set<Ack>, v: NodeId, T: nat, i: nat)
    requires acks <= acks' && forall a :: a in acks' && a !in acks ==> a.node != v
    ensures Gave(acks', v, T, i) <==> Gave(acks, v, T, i)
  {
  }

  lemma GaveMore(acks: set<Ack>, more: set<Ack>, v: NodeId, T: nat, i: nat)
    requires Gave(acks, v, T, i) && acks <= more
    ensures Gave(more, v, T, i)
  {
    var a :| a in acks && a.node == v && a.term == T && a.index >= i;
    assert a in more;
  }

  /** What is owed or given is bounded by the log of its term. */
  lemma OwedBound(b: Book, id: NodeId, term: nat, durableTerm: nat, batches: seq<Batch>, T: nat, i: nat)
    requires AcksOk(b) && AckTermsOk(b, id, term, durableTerm, batches)
    requires Owes(batches, T, i) || Gave(b.acks, id, T, i)
    ensures T in b.termLog && i <= |b.termLog[T]|
  {
  }

  lemma AckGrows(h: History, h': History, n: Node)
    requires AckOk(h.book, n.id, n.log, n.durableIndex, n.batches)
    requires AcksOk(h.book) && AckTermsOk(h.book, n.id, n.term, n.durableTerm, n.batches)
    requires Aside(h, h', n)
    ensures AckOk(h'.book, n.id, n.log, n.durableIndex, n.batches)
    ensures AckTermsOk(h'.book, n.id, n.term, n.durableTerm, n.batches)
  {
    var b, b' := h.book, h'.book;
    forall T: nat, i: nat | OwnIndex(b'.termLog, T, i) && Owes(n.batches, T, i)
      ensures Safe(b', T, i, n.log)
    {
      OwedBound(b, n.id, n.term, n.durableTerm, n.batches, T, i);
      OwnIndexOld(b, b', T, i);
      SafeGrows(b, b', T, i, n.log);
    }
    forall T: nat, i: nat | OwnIndex(b'.termLog, T, i) && Gave(b'.acks, n.id, T, i)
      ensures (i <= n.durableIndex && Agree(b'.termLog[T], n.log, i)) || Blocked(b'.elections, T, i)
    {
      GaveSame(b.acks, b'.acks, n.id, T, i);
      OwedBound(b, n.id, n.term, n.durableTerm, n.batches, T, i);
      OwnIndexOld(b, b', T, i);
      if Blocked(b.elections, T, i) {
        BlockedGrows(b, b', T, i);
      } else {
        AgreeExtends(n.log, b.termLog[T], b'.termLog[T], i);
      }
    }
  }

  lemma VoteGrows(h: History, h': History, n: Node, T: nat, cand: NodeId)
    requires VoteSafe(h.book, h.candLog, n.id, n.batches, T, cand)
    requires AcksOk(h.book) && AckTermsOk(h.book, n.id, n.term, n.durableTerm, n.batches)
    requires Aside(h, h', n)
    ensures VoteSafe(h'.book, h'.candLog, n.id, n.batches, T, cand)
  {
    var b, b' := h.book, h'.book;
    forall T1: nat, i: nat | OwnIndex(b'.termLog, T1, i) && T1 < T
      && (Owes(n.batches, T1, i) || Gave(b'.acks, n.id, T1, i))
      ensures Safe(b', T1, i, h'.candLog[(T, cand)])
    {
      GaveSame(b.acks, b'.acks, n.id, T1, i);
      OwedBound(b, n.id, n.term, n.durableTerm, n.batches, T1, i);
      OwnIndexOld(b, b', T1, i);
      SafeGrows(b, b', T1, i, h.candLog[(T, cand)]);
    }
  }

  lemma VotesGrow(h: History, h': History, n: Node)
    requires VotesOk(h.book, h.candLog, n.id, n.term, n.votedFor, n.durableHard, n.batches)
    requires AcksOk(h.book) && AckTermsOk(h.book, n.id, n.term, n.durableTerm, n.batches)
    requires Aside(h, h', n)
    ensures VotesOk(h'.book, h'.candLog, n.id, n.term, n.votedFor, n.durableHard, n.batches)
    ensures forall net: set<Packet> :: SpeechOk(h.book, h.candLog, n.id, net, n.durableTerm, n.batches)
              ==> SpeechOk(h'.book, h'.candLog, n.id, net, n.durableTerm, n.batches)
  {
    forall T: nat, cand | VoteSafe(h.book, h.candLog, n.id, n.batches, T, cand)
      ensures VoteSafe(h'.book, h'.candLog, n.id, n.batches, T, cand)
    {
      VoteGrows(h, h', n, T, cand);
    }
    forall net: set<Packet> | SpeechOk(h.book, h.candLog, n.id, net, n.durableTerm, n.batches)
      ensures SpeechOk(h'.book, h'.candLog, n.id, net, n.durableTerm, n.batches)
    {
      forall p | p in net && p.from == n.id ensures SaidOk(h'.book, h'.candLog, n.id, p, n.durableTerm, n.batches) {
        assert SaidOk(h.book, h.candLog, n.id, p, n.durableTerm, n.batches);
      }
    }
  }

  lemma OnceGrows(h: History, net: set<Packet>, h': History, net': set<Packet>, n: Node)
    requires OnceOk(h.book.elections, net, n.id, n.term, n.votedFor, n.durableHard, n.batches)
    requires Elsewhere(h, net, h', net', n)
    ensures OnceOk(h'.book.elections, net', n.id, n.term, n.votedFor, n.durableHard, n.batches)
  {
    forall T, c ensures VotedFor(h'.book.elections, net', n.id, T, c) == VotedFor(h.book.elections, net, n.id, T, c) {}
    forall T: nat, vote | SameVote(h.book.elections, net, n.id, T, vote)
      ensures SameVote(h'.book.elections, net', n.id, T, vote) {}
  }

  lemma DecidedGrows(h: History, h': History, log: seq<Entry>, k: nat, term: nat)
    requires Decided(h.book.termLog, h.commits, log, k, term) && Extends(h, h')
    ensures Decided(h'.book.termLog, h'.commits, log, k, term)
  {
    if k > 0 {
      var c :|
        c in h.commits && c.term <= term && k <= c.index && c.term in h.book.termLog
          && Agree(log, h.book.termLog[c.term], k);
      AgreeExtends(log, h.book.termLog[c.term], h'.book.termLog[c.term], k);
      assert c in h'.commits;
    }
  }

  lemma RoleGrows(h: History, net: set<Packet>, h': History, net': set<Packet>, n: Node)
    requires CandidateOk(h.book.elections, h.candLog, net, n) && LeaderOk(h.book, h.commits, n)
    requires StoodOk(h.candLog, n.id, n.durableTerm)
    requires Elsewhere(h, net, h', net', n)
    ensures CandidateOk(h'.book.elections, h'.candLog, net', n) && LeaderOk(h'.book, h'.commits, n)
    ensures StoodOk(h'.candLog, n.id, n.durableTerm)
  {
    assert (n.term, n.id) in h'.candLog ==> (n.term, n.id) in h.candLog;
    if n.role == Leader {
      forall u | u in n.matchIndex && n.matchIndex[u] != 0
        ensures Gave(h'.book.acks, u, n.term, n.matchIndex[u])
      {
        GaveMore(h.book.acks, h'.book.acks, u, n.term, n.matchIndex[u]);
      }
    }
    forall T, c | (T, c) in h'.candLog && c == n.id
      ensures T <= n.durableTerm
    {
      assert (T, c) in h.candLog;
    }
  }

  lemma NodeGrows(h: History, net: set<Packet>, h': History, net': set<Packet>, n: Node)
    requires NodeOk(h, net, n) && AcksOk(h.book) && Elsewhere(h, net, h', net', n)
    ensures NodeOk(h', net', n)
  {
    LogGrows(h.book, h'.book, n.log, n.term);
    AckGrows(h, h', n);
    VotesGrow(h, h', n);
    assert SpeechOk(h.book, h.candLog, n.id, net', n.durableTerm, n.batches);
    OnceGrows(h, net, h', net', n);
    RoleGrows(h, net, h', net', n);
    DecidedGrows(h, h', n.log, n.commitIndex, n.term);
    assert PromiseOk(h'.book.elections, n.id, n.durableTerm, n.batches);
  }

  lemma PacketGrows(h: History, h': History, p: Packet)
    requires PacketOk(h, p) && Extends(h, h')
    ensures PacketOk(h', p)
  {
    var L, L' := h.book.termLog, h'.book.termLog;
    match p.msg {
      case AppendEntries(T, leader, prev, prevTerm, entries, commit) =>
        assert L'[T][prev..prev + |entries|] == L[T][prev..prev + |entries|];
        DecidedGrows(h, h', L[T], commit, T);
        if commit > 0 {
          var c :|
            c in h'.commits && c.term <= T && commit <= c.index && c.term in L' && Agree(L[T], L'[c.term], commit);
          assert L'[T][..commit] == L[T][..commit];
          assert Agree(L'[T], L'[c.term], commit);
        }
      case AppendEntriesResp(T, success, m, _) =>
        if success { GaveMore(h.book.acks, h'.book.acks, p.from, T, m); }
      case _ =>
    }
  }
}
