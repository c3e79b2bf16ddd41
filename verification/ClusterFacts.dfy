/** Consequences of the invariant that every later proof uses: quorums meet, logs match, commits hold. */
module ClusterFacts {
  import opened Types
  import opened RaftSpec
  import opened Cluster
  import opened ClusterInv

  lemma NodeAt(w: World, v: NodeId)
    requires Inv(w) && v in w.nodes
    ensures NodeOk(w.h, w.net, w.nodes[v]) && w.nodes[v].id == v && w.nodes[v].members == w.members
  {
    assert NodeOk(w.h, w.net, w.nodes[v]);
  }

  lemma SubsetSize(a: set<NodeId>, b: set<NodeId>)
    requires a <= b
    ensures |a| <= |b|
  {
    assert b == a + (b - a);
  }

  lemma QuorumsMeet(members: set<NodeId>, p: set<NodeId>, q: set<NodeId>)
    requires IsQuorum(members, p) && IsQuorum(members, q)
    ensures p * q != {}
  {
    if p * q == {} {
      assert |p + q| == |p| + |q|;
      SubsetSize(p + q, members);
    }
  }

  /** An index a quorum acknowledged is not blocked. */
  lemma ChosenNotBlocked(h: History, members: set<NodeId>, T: nat, i: nat)
    requires HistoryOk(h, members) && Chosen(h.book.acks, members, T, i)
    ensures !Blocked(h.book.elections, T, i)
  {
    var q :| IsQuorum(members, q) && GaveAll(h.book.acks, q, T, i);
    forall T2 | T2 in h.book.elections && T < T2
      ensures !NoneReach(h.book.elections[T2], T, i)
    {
      QuorumsMeet(members, q, h.book.elections[T2].voters);
      var v :| v in q * h.book.elections[T2].voters;
      var a :| a in h.book.acks && a.node == v && a.term == T && a.index >= i;
      assert !NoneReach(h.book.elections[T2], a.term, a.index);
    }
  }

  /** Two grounded logs with the same term at an index agree through that index. */
  lemma MatchAt(termLog: map<nat, seq<Entry>>, a: seq<Entry>, b: seq<Entry>, i: nat)
    requires Grounded(termLog, a) && Grounded(termLog, b)
    requires 0 < i <= |a| && i <= |b| && a[i - 1].term == b[i - 1].term
    ensures Agree(a, b, i)
  {
    assert GroundedAt(termLog, a, i - 1) && GroundedAt(termLog, b, i - 1);
  }

  lemma PrefixOk(termLog: map<nat, seq<Entry>>, log: seq<Entry>, term: nat, i: nat)
    requires LogOk(termLog, log, term) && i <= |log|
    ensures LogOk(termLog, log[..i], term)
  {
    var p := log[..i];
    forall j | 0 <= j < |p|
      ensures GroundedAt(termLog, p, j)
    {
      assert p[..j + 1] == log[..j + 1];
      assert GroundedAt(termLog, log, j);
    }
  }

  lemma AgreeShorter<T>(a: seq<T>, b: seq<T>, i: nat, j: nat)
    requires Agree(a, b, i) && j <= i
    ensures Agree(a, b, j)
  {
    assert a[..j] == a[..i][..j];
    assert b[..j] == b[..i][..j];
  }

  lemma AgreeElem<T>(a: seq<T>, b: seq<T>, i: nat, j: nat)
    requires Agree(a, b, i) && j < i
    ensures a[j] == b[j]
  {
    assert a[..i][j] == b[..i][j];
  }

  lemma DifferAt<T>(a: seq<T>, b: seq<T>, i: nat, j: nat)
    requires j < |a| && j < |b| && a[j] != b[j]
    ensures Agree(a, b, i) ==> i <= j
  {
    if i <= |a| && i <= |b| && j < i {
      assert a[..i][j] == a[j] && b[..i][j] == b[j];
    }
  }

  lemma AgreeTrans<T>(a: seq<T>, b: seq<T>, c: seq<T>, i: nat)
    requires Agree(a, b, i) && Agree(b, c, i)
    ensures Agree(a, c, i)
  {
  }

  /** What a leader committed is in the log of every leader of the same or a later term. */
  lemma CommittedInLater(h: History, members: set<NodeId>, c: Commit, T: nat)
    requires HistoryOk(h, members) && c in h.commits && T in h.book.termLog && c.term <= T
    ensures Agree(h.book.termLog[c.term], h.book.termLog[T], c.index)
  {
    ChosenNotBlocked(h, members, c.term, c.index);
    if c.term < T {
      assert Safe(h.book, c.term, c.index, h.book.termLog[T]);
    }
  }

  lemma CommitsAgree(h: History, members: set<NodeId>, c: Commit, d: Commit)
    requires HistoryOk(h, members) && c in h.commits && d in h.commits
    ensures Agree(h.book.termLog[c.term], h.book.termLog[d.term], Min(c.index, d.index))
  {
    if c.term <= d.term {
      CommittedInLater(h, members, c, d.term);
      AgreeShorter(h.book.termLog[c.term], h.book.termLog[d.term], c.index, Min(c.index, d.index));
    } else {
      CommittedInLater(h, members, d, c.term);
      AgreeShorter(h.book.termLog[d.term], h.book.termLog[c.term], d.index, Min(c.index, d.index));
    }
  }
}
