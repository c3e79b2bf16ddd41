/** The follower's side: casting a vote, taking in an append, claiming durability. */
module ClusterFollower {
  import opened Types
  import opened RaftSpec
  import opened Cluster
  import opened ClusterInv
  import opened ClusterFacts
  import opened ClusterNode

  // ---- votes -------------------------------------------------------------------

  /** The election restriction: an up-to-date candidate holds whatever the voter may have acknowledged. */
  lemma UpToDateHolds(h: History, members: set<NodeId>, log: seq<Entry>, cand: seq<Entry>, T1: nat, i: nat,
                      logTerm: nat, candTerm: nat)
    requires HistoryOk(h, members)
    requires LogOk(h.book.termLog, log, logTerm) && LogOk(h.book.termLog, cand, candTerm)
    requires UpToDate(log, |cand|, LastTerm(cand))
    requires OwnIndex(h.book.termLog, T1, i) && Safe(h.book, T1, i, log)
    ensures Safe(h.book, T1, i, cand)
  {
    if !Blocked(h.book.elections, T1, i) {
      assert log[i - 1] == log[..i][i - 1] == h.book.termLog[T1][..i][i - 1];
      var lt := LastTerm(cand);
      assert lt >= LastTerm(log) >= T1;
      assert |cand| > 0;
      assert GroundedAt(h.book.termLog, cand, |cand| - 1);
      if lt == LastTerm(log) {
        assert GroundedAt(h.book.termLog, log, |log| - 1);
        assert Agree(cand, h.book.termLog[lt], |cand|);
        assert cand[..i] == h.book.termLog[lt][..i] == log[..i];
      } else {
        assert Safe(h.book, T1, i, h.book.termLog[lt]);
        var L := h.book.termLog[lt];
        assert Agree(cand, L, |cand|);
        assert L[i - 1] == L[..i][i - 1] == h.book.termLog[T1][..i][i - 1];
        assert L[|cand| - 1] == L[..|cand|][|cand| - 1] == cand[|cand| - 1];
        assert LogOk(h.book.termLog, L, lt);
        assert i <= |cand|;
        AgreeShorter(cand, L, |cand|, i);
      }
    }
  }

  lemma CastVoteOk(h: History, net: set<Packet>, members: set<NodeId>, n: Node, cand: NodeId)
    requires HistoryOk(h, members) && NodeOk(h, net, n)
    requires n.votedFor == None && cand != n.id
    requires (n.term, cand) in h.candLog
    requires UpToDate(n.log, |h.candLog[(n.term, cand)]|, LastTerm(h.candLog[(n.term, cand)]))
    ensures NodeOk(h, net, n.(votedFor := Some(cand)))
  {
    var log := h.candLog[(n.term, cand)];
    assert LogOk(h.book.termLog, log, n.term);
    forall T1: nat, i: nat | OwnIndex(h.book.termLog, T1, i) && T1 < n.term
      && (Owes(n.batches, T1, i) || Gave(h.book.acks, n.id, T1, i))
      ensures Safe(h.book, T1, i, log)
    {
      UpToDateHolds(h, members, n.log, log, T1, i, n.term, n.term);
    }
  }

  // ---- appends -------------------------------------------------------------------

  /** The part of an append that matched agrees with the leader's log. */
  lemma MatchedPart(h: History, members: set<NodeId>, n: Node, T: nat, prev: nat, entries: seq<Entry>)
    requires HistoryOk(h, members) && T in h.book.termLog && LogOk(h.book.termLog, n.log, n.term)
    requires prev + |entries| <= |h.book.termLog[T]| && entries == h.book.termLog[T][prev..prev + |entries|]
    requires TermAt(n.log, prev).Some? && TermAt(n.log, prev) == TermAt(h.book.termLog[T], prev)
    ensures var k := FirstNew(n.log, prev, entries); prev + k <= |n.log| && Agree(n.log, h.book.termLog[T], prev + k)
  {
    var k := FirstNew(n.log, prev, entries);
    var L := h.book.termLog[T];
    assert LogOk(h.book.termLog, L, T);
    if k > 0 {
      assert entries[k - 1] == L[prev + (k - 1)];
      assert n.log[prev + (k - 1)].term == entries[k - 1].term;
      MatchAt(h.book.termLog, n.log, L, prev + k);
    } else if prev > 0 {
      MatchAt(h.book.termLog, n.log, L, prev);
    }
  }

  /** Cutting at a conflict with a later leader touches nothing that could still be committed. */
  lemma CutIsSafe(h: History, members: set<NodeId>, log: seq<Entry>, T: nat, cut: nat, T1: nat, i: nat)
    requires HistoryOk(h, members) && T in h.book.termLog && T1 <= T
    requires cut < |h.book.termLog[T]| && Agree(log, h.book.termLog[T], cut)
    requires cut < |log| ==> log[cut].term != h.book.termLog[T][cut].term
    requires OwnIndex(h.book.termLog, T1, i) && Safe(h.book, T1, i, log)
    ensures i <= cut || Blocked(h.book.elections, T1, i)
  {
    if Agree(h.book.termLog[T1], log, i) && i > cut {
      AgreeElem(h.book.termLog[T1], log, i, cut);
      DifferAt(h.book.termLog[T1], h.book.termLog[T], i, cut);
      assert Safe(h.book, T1, i, h.book.termLog[T]);
    }
  }

  lemma AdoptCommit(h: History, members: set<NodeId>, log: seq<Entry>, term: nat, T: nat, cut: nat, commit: nat)
    requires HistoryOk(h, members) && T in h.book.termLog && term <= T
    requires cut < |h.book.termLog[T]| && cut <= |log| && Agree(log, h.book.termLog[T], cut)
    requires cut < |log| ==> log[cut].term != h.book.termLog[T][cut].term
    requires commit <= |log| && Decided(h.book.termLog, h.commits, log, commit, term)
    ensures commit <= cut
  {
    if commit > 0 {
      var c :|
        c in h.commits && c.term <= term && commit <= c.index && c.term in h.book.termLog
          && Agree(log, h.book.termLog[c.term], commit);
      CommittedInLater(h, members, c, T);
      if cut < |log| && cut < c.index {
        AgreeElem(h.book.termLog[c.term], h.book.termLog[T], c.index, cut);
        DifferAt(log, h.book.termLog[c.term], commit, cut);
      }
    }
  }

  lemma AdoptLog(n: Node, L: seq<Entry>, prev: nat, entries: seq<Entry>, k: nat)
    requires k < |entries| && prev + k <= |n.log| && prev + |entries| <= |L|
    requires entries == L[prev..prev + |entries|] && Agree(n.log, L, prev + k)
    ensures Adopt(n, prev, entries, k).log == L[..prev + |entries|]
  {
    var m := Adopt(n, prev, entries, k);
    assert n.log[..prev + k] == L[..prev + k];
    assert m.log == n.log[..prev + k] + entries[k..];
    assert entries[k..] == L[prev + k..prev + |entries|];
    assert L[..prev + |entries|] == L[..prev + k] + L[prev + k..prev + |entries|];
  }

  lemma ClampFewer(batches: seq<Batch>, cap: nat)
    ensures FewerBatches(ClampAll(batches, cap), batches)
  {
    var bs := ClampAll(batches, cap);
    forall b | b in bs ensures exists c :: c in batches && Milder(b, c) {
      var k :| 0 <= k < |bs| && bs[k] == b;
      assert Milder(b, batches[k]);
    }
  }

  lemma AdoptOk(h: History, net: set<Packet>, members: set<NodeId>, n: Node, prev: nat, entries: seq<Entry>)
    requires HistoryOk(h, members) && NodeOk(h, net, n) && n.role == Follower && n.term in h.book.termLog
    requires prev + |entries| <= |h.book.termLog[n.term]| && entries == h.book.termLog[n.term][prev..prev + |entries|]
    requires TermAt(n.log, prev).Some? && TermAt(n.log, prev) == TermAt(h.book.termLog[n.term], prev)
    requires FirstNew(n.log, prev, entries) < |entries|
    ensures prev + FirstNew(n.log, prev, entries) <= |n.log|
    ensures var m := Adopt(n, prev, entries, FirstNew(n.log, prev, entries));
      NodeOk(h, net, m) && m.log == h.book.termLog[n.term][..prev + |entries|]
  {
    var k := FirstNew(n.log, prev, entries);
    MatchedPart(h, members, n, n.term, prev, entries);
    AdoptIsAdopted(n, h.book.termLog[n.term], prev, entries, k);
    AdoptFromOk(h, net, members, n, prev, entries, k, Adopt(n, prev, entries, k));
  }

  lemma AdoptShape(n: Node, prev: nat, entries: seq<Entry>, k: nat)
    requires k < |entries| && prev + k <= |n.log|
    ensures var m := Adopt(n, prev, entries, k);
      && m == n.(log := m.log, batches := m.batches, parked := m.parked, durableIndex := m.durableIndex)
      && m.durableIndex == (if prev + k < |n.log| then Min(n.durableIndex, prev + k) else n.durableIndex)
      && FewerBatches(m.batches, n.batches)
  {
    if prev + k < |n.log| {
      ClampFewer(n.batches, prev + k);
    } else {
      assert forall b :: b in n.batches ==> Milder(b, b);
    }
  }

  ghost predicate Adopted(n: Node, m: Node, L: seq<Entry>, cut: nat, last: nat) {
    && cut < last <= |L| && Agree(n.log, L, cut)
    && (cut < |n.log| ==> n.log[cut].term != L[cut].term)
    && m == n.(log := L[..last], parked := m.parked,
               durableIndex := if cut < |n.log| then Min(n.durableIndex, cut) else n.durableIndex)
  }

  lemma AdoptIsAdopted(n: Node, L: seq<Entry>, prev: nat, entries: seq<Entry>, k: nat)
    requires prev + |entries| <= |L| && entries == L[prev..prev + |entries|]
    requires k < |entries| && prev + k <= |n.log| && Agree(n.log, L, prev + k)
    requires prev + k < |n.log| ==> n.log[prev + k].term != entries[k].term
    ensures var m := Adopt(n, prev, entries, k);
      Adopted(n.(batches := m.batches), m, L, prev + k, prev + |entries|) && FewerBatches(m.batches, n.batches)
  {
    AdoptLog(n, L, prev, entries, k);
    AdoptShape(n, prev, entries, k);
    assert entries[k] == L[prev + k];
  }

  lemma AdoptFromOk(h: History, net: set<Packet>, members: set<NodeId>, n: Node, prev: nat, entries: seq<Entry>, k: nat,
                    m: Node)
    requires HistoryOk(h, members) && NodeOk(h, net, n) && n.role == Follower && n.term in h.book.termLog
    requires FewerBatches(m.batches, n.batches)
    requires Adopted(n.(batches := m.batches), m, h.book.termLog[n.term], prev + k, prev + |entries|)
    ensures NodeOk(h, net, m)
  {
    FewerBatchesOk(h, net, n, m.batches);
    AdoptedOk(h, net, members, n.(batches := m.batches), m, prev + k, prev + |entries|);
  }

  lemma AdoptedAcks(h: History, members: set<NodeId>, n: Node, m: Node, cut: nat, last: nat)
    requires HistoryOk(h, members) && n.term in h.book.termLog && n.durableTerm <= n.term
    requires ClaimOk(n.log, n.durableIndex, n.durableTerm)
    requires AckOk(h.book, n.id, n.log, n.durableIndex, n.batches)
    requires AckTermsOk(h.book, n.id, n.term, n.durableTerm, n.batches)
    requires Adopted(n, m, h.book.termLog[n.term], cut, last)
    ensures AckOk(h.book, n.id, m.log, m.durableIndex, n.batches)
  {
    var b := h.book;
    assert m.log[..cut] == n.log[..cut];
    forall T1: nat, i: nat | OwnIndex(b.termLog, T1, i) && T1 <= n.term && Safe(b, T1, i, n.log)
      ensures Blocked(b.elections, T1, i) || (i <= cut && Agree(b.termLog[T1], m.log, i))
    {
      CutIsSafe(h, members, n.log, n.term, cut, T1, i);
      if i <= cut && Agree(b.termLog[T1], n.log, i) { AgreeShorter(n.log, m.log, cut, i); }
    }
    forall T: nat, i: nat | OwnIndex(b.termLog, T, i) && Owes(n.batches, T, i) ensures Safe(b, T, i, m.log) {
      assert Safe(b, T, i, n.log);
    }
    forall T: nat, i: nat | OwnIndex(b.termLog, T, i) && Gave(b.acks, n.id, T, i)
      ensures (i <= m.durableIndex && Agree(b.termLog[T], m.log, i)) || Blocked(b.elections, T, i)
    {
      assert Safe(b, T, i, n.log);
    }
  }

  lemma AdoptedCommit(h: History, members: set<NodeId>, n: Node, m: Node, cut: nat, last: nat)
    requires HistoryOk(h, members) && n.term in h.book.termLog
    requires CommitOk(h.book.termLog, h.commits, n.log, n.commitIndex, n.lastApplied, n.term)
    requires Adopted(n, m, h.book.termLog[n.term], cut, last)
    ensures CommitOk(h.book.termLog, h.commits, m.log, n.commitIndex, n.lastApplied, n.term)
  {
    assert m.log[..cut] == n.log[..cut];
    AdoptCommit(h, members, n.log, n.term, n.term, cut, n.commitIndex);
    if n.commitIndex > 0 {
      var c :|
        c in h.commits && c.term <= n.term && n.commitIndex <= c.index && c.term in h.book.termLog
          && Agree(n.log, h.book.termLog[c.term], n.commitIndex);
      AgreeShorter(n.log, m.log, cut, n.commitIndex);
      assert Agree(m.log, h.book.termLog[c.term], n.commitIndex);
    }
  }

  /** The log is replaced by the leader's beyond the first difference. */
  lemma AdoptedOk(h: History, net: set<Packet>, members: set<NodeId>, n: Node, m: Node, cut: nat, last: nat)
    requires HistoryOk(h, members) && NodeOk(h, net, n) && n.role == Follower && n.term in h.book.termLog
    requires Adopted(n, m, h.book.termLog[n.term], cut, last)
    ensures NodeOk(h, net, m)
  {
    var L := h.book.termLog[n.term];
    PrefixOk(h.book.termLog, L, n.term, last);
    AdoptedAcks(h, members, n, m, cut, last);
    AdoptedCommit(h, members, n, m, cut, last);
    forall i | 0 <= i < m.durableIndex ensures m.log[i].term <= m.durableTerm {
      assert m.log[i] == L[i];
      AgreeElem(n.log, L, cut, i);
    }
  }

  /** A follower commits what the leader says is committed, as far as this append proved the logs agree. */
  lemma FollowCommitOk(h: History, net: set<Packet>, n: Node, T: nat, leaderCommit: nat, lastNew: nat)
    requires NodeOk(h, net, n) && n.role == Follower && n.term == T && T in h.book.termLog
    requires lastNew <= |n.log| && Agree(n.log, h.book.termLog[T], lastNew)
    requires leaderCommit <= |h.book.termLog[T]|
    requires Decided(h.book.termLog, h.commits, h.book.termLog[T], leaderCommit, T)
    ensures NodeOk(h, net, FollowCommit(n, leaderCommit, lastNew))
  {
    var k := Min(Min(leaderCommit, lastNew), |n.log|);
    if k > n.commitIndex {
      var c :|
        c in h.commits && c.term <= T && leaderCommit <= c.index && c.term in h.book.termLog
          && Agree(h.book.termLog[T], h.book.termLog[c.term], leaderCommit);
      AgreeShorter(h.book.termLog[T], h.book.termLog[c.term], leaderCommit, k);
      AgreeShorter(n.log, h.book.termLog[T], lastNew, k);
      assert Agree(n.log, h.book.termLog[c.term], k);
    }
  }

  // ---- durable claims ------------------------------------------------------------

  lemma ClaimMoreOk(h: History, net: set<Packet>, n: Node, d: nat, parked: seq<(nat, nat)>)
    requires NodeOk(h, net, n) && n.durableIndex <= d <= |n.log|
    requires forall i :: 0 <= i < d ==> n.log[i].term <= n.durableTerm
    ensures NodeOk(h, net, n.(durableIndex := d, parked := parked))
  {
  }

  lemma AdvanceDurableOk(h: History, net: set<Packet>, n: Node)
    requires NodeOk(h, net, n)
    ensures NodeOk(h, net, AdvanceDurable(n))
  {
    var m := AdvanceDurable(n);
    ClaimMoreOk(h, net, n, m.durableIndex, m.parked);
  }

  /** A synced hard state is one the node wrote: no later than what it holds in memory. */
  ghost predicate Written(h: History, net: set<Packet>, n: Node, hs: HardState) {
    && hs.seqno < n.stateSeq
    && Follows(hs, CurrentHard(n))
    && (hs.seqno >= n.durableHard.seqno ==> Follows(n.durableHard, hs))
    && (hs.seqno <= n.durableHard.seqno ==> Follows(hs, n.durableHard))
    && CastOk(h.book, h.candLog, n.id, n.batches, hs.term, hs.votedFor)
    && SameVote(h.book.elections, net, n.id, hs.term, hs.votedFor)
    && (n.role == Candidate && hs.term == n.term ==> hs.votedFor == n.votedFor)
    && forall b :: b in n.batches && b.hard.Some? ==>
         && (b.hard.value.seqno <= hs.seqno ==> Follows(b.hard.value, hs))
         && (b.hard.value.seqno >= hs.seqno ==> Follows(hs, b.hard.value))
  }

  lemma DurableHardOk(h: History, net: set<Packet>, n: Node, hs: HardState)
    requires NodeOk(h, net, n) && Written(h, net, n, hs) && hs.seqno >= n.durableHard.seqno
    ensures NodeOk(h, net, n.(durableHard := hs, durableTerm := hs.term))
  {
    var m := n.(durableHard := hs, durableTerm := hs.term);
    assert m.durableTerm >= n.durableTerm;
    forall p | p in net && p.from == n.id
      ensures SaidOk(h.book, h.candLog, n.id, p, m.durableTerm, n.batches)
    {
      assert SaidOk(h.book, h.candLog, n.id, p, n.durableTerm, n.batches);
    }
  }

  lemma NoteHardOk(h: History, net: set<Packet>, n: Node, hard: Option<HardState>)
    requires NodeOk(h, net, n) && (hard.Some? ==> Written(h, net, n, hard.value))
    ensures NodeOk(h, net, NoteHard(n, hard))
    ensures hard.Some? ==>
      NoteHard(n, hard).durableTerm >= hard.value.term && Follows(hard.value, NoteHard(n, hard).durableHard)
  {
    if hard.Some? {
      var hs := hard.value;
      if hs.seqno >= n.durableHard.seqno {
        DurableHardOk(h, net, n, hs);
        if hs.term > n.durableTerm {
          AdvanceDurableOk(h, net, n.(durableHard := hs, durableTerm := hs.term));
        }
      }
    }
  }
}
