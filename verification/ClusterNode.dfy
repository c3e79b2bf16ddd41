/** Changes to one node that leave the history alone, each keeping the node's part of the invariant. */
module ClusterNode {
  import opened Types
  import opened RaftSpec
  import opened Cluster
  import opened ClusterInv
  import opened ClusterFacts

  lemma StepDownOk(h: History, net: set<Packet>, n: Node, term: nat)
    requires NodeOk(h, net, n) && term > n.term
    ensures NodeOk(h, net, StepDown(n, term))
  {
  }

  lemma ConcedeOk(h: History, net: set<Packet>, n: Node)
    requires NodeOk(h, net, n)
    ensures NodeOk(h, net, Concede(n))
  {
  }

  // ---- batches -----------------------------------------------------------------

  /** An acknowledgement the node may start to owe: it is in the leader's term and holds what it will vouch for. */
  ghost predicate CanOwe(h: History, n: Node, a: Persist) {
    a.LogDurable? && a.replyTo.Some? ==>
      && a.replyTerm == n.term && n.term in h.book.termLog
      && a.verified <= |h.book.termLog[n.term]| && Agree(h.book.termLog[n.term], n.log, a.verified)
  }

  ghost predicate Pushed(n: Node, b: Batch, n': Node) {
    && n' == n.(batches := n.batches + [b], stateSeq := n'.stateSeq)
    && (b.hard.None? ==> n'.stateSeq == n.stateSeq)
    && (b.hard.Some? ==> b.hard == Some(CurrentHard(n)) && n'.stateSeq == n.stateSeq + 1)
  }

  lemma PushOwes(n: Node, b: Batch, n': Node, T: nat, i: nat)
    requires Pushed(n, b, n') && T != n.term
    requires OwesAck(b) ==> b.action.replyTerm == n.term
    ensures Owes(n'.batches, T, i) <==> Owes(n.batches, T, i)
  {
    if Owes(n.batches, T, i) {
      var c :| c in n.batches && OwesAck(c) && c.action.replyTerm == T && c.action.verified >= i;
      assert c in n'.batches;
    }
  }

  lemma PushVoteSafe(h: History, n: Node, b: Batch, n': Node, T: nat, cand: NodeId)
    requires Pushed(n, b, n') && T <= n.term
    requires OwesAck(b) ==> b.action.replyTerm == n.term
    requires VoteSafe(h.book, h.candLog, n.id, n.batches, T, cand)
    ensures VoteSafe(h.book, h.candLog, n.id, n'.batches, T, cand)
  {
    forall T1: nat, i: nat | OwnIndex(h.book.termLog, T1, i) && T1 < T
      && (Owes(n'.batches, T1, i) || Gave(h.book.acks, n.id, T1, i))
      ensures Safe(h.book, T1, i, h.candLog[(T, cand)])
    {
      PushOwes(n, b, n', T1, i);
    }
  }

  lemma PushCast(h: History, n: Node, b: Batch, n': Node, T: nat, vote: Option<NodeId>)
    requires Pushed(n, b, n') && T <= n.term
    requires OwesAck(b) ==> b.action.replyTerm == n.term
    requires CastOk(h.book, h.candLog, n.id, n.batches, T, vote)
    ensures CastOk(h.book, h.candLog, n.id, n'.batches, T, vote)
  {
    if vote.Some? && vote.value != n.id { PushVoteSafe(h, n, b, n', T, vote.value); }
  }

  lemma PushOk(h: History, net: set<Packet>, n: Node, b: Batch, n': Node)
    requires NodeOk(h, net, n) && Pushed(n, b, n')
    requires BatchOk(n.id, b) && CanOwe(h, n, b.action)
    ensures NodeOk(h, net, n')
  {
    forall T: nat, i: nat | OwnIndex(h.book.termLog, T, i) && Owes(n'.batches, T, i)
      ensures Safe(h.book, T, i, n.log)
    {
      if !Owes(n.batches, T, i) {
        assert OwesAck(b) && b.action.replyTerm == T && b.action.verified >= i;
        AgreeShorter(h.book.termLog[T], n.log, b.action.verified, i);
      }
    }
    forall T2 | T2 in h.book.elections && n.id in h.book.elections[T2].voters
      ensures forall T: nat, i: nat :: T < T2 && Owes(n'.batches, T, i) ==> !NoneReach(h.book.elections[T2], T, i)
    {
      forall T: nat, i: nat | T < T2 && Owes(n'.batches, T, i)
        ensures !NoneReach(h.book.elections[T2], T, i)
      {
        PushOwes(n, b, n', T, i);
      }
    }
    PushCast(h, n, b, n', n.term, n.votedFor);
    PushCast(h, n, b, n', n.durableHard.term, n.durableHard.votedFor);
    forall c | c in n'.batches && c.hard.Some?
      ensures CastOk(h.book, h.candLog, n.id, n'.batches, c.hard.value.term, c.hard.value.votedFor)
    {
      PushCast(h, n, b, n', c.hard.value.term, c.hard.value.votedFor);
    }
    forall p | p in net && p.from == n.id
      ensures SaidOk(h.book, h.candLog, n.id, p, n.durableTerm, n'.batches)
    {
      assert SaidOk(h.book, h.candLog, n.id, p, n.durableTerm, n.batches);
      if p.msg.RequestVoteResp? && p.msg.granted { PushVoteSafe(h, n, b, n', p.msg.term, p.to); }
    }
  }

  lemma StartHardOk(h: History, net: set<Packet>, n: Node, a: Persist)
    requires NodeOk(h, net, n)
    requires BatchOk(n.id, Batch(a, Some(CurrentHard(n)))) && CanOwe(h, n, a)
    ensures NodeOk(h, net, StartHard(n, a))
  {
    PushOk(h, net, n, Batch(a, Some(CurrentHard(n))), StartHard(n, a));
  }

  lemma StartPlainOk(h: History, net: set<Packet>, n: Node, a: Persist)
    requires NodeOk(h, net, n)
    requires BatchOk(n.id, Batch(a, None)) && CanOwe(h, n, a)
    ensures NodeOk(h, net, StartPlain(n, a))
  {
    PushOk(h, net, n, Batch(a, None), StartPlain(n, a));
  }

  /** The same batch, up to how far it may still claim durability. */
  ghost predicate Milder(b: Batch, c: Batch) {
    && b.hard == c.hard
    && (b.action == c.action || b.action.Quiet?
        || (b.action.LogDurable? && c.action.LogDurable? && b.action.(index := 0) == c.action.(index := 0)))
  }

  ghost predicate FewerBatches(bs: seq<Batch>, cs: seq<Batch>) {
    forall b :: b in bs ==> exists c :: c in cs && Milder(b, c)
  }

  lemma FewerOwes(bs: seq<Batch>, cs: seq<Batch>, T: nat, i: nat)
    requires FewerBatches(bs, cs) && Owes(bs, T, i)
    ensures Owes(cs, T, i)
  {
    var b :| b in bs && OwesAck(b) && b.action.replyTerm == T && b.action.verified >= i;
    var c :| c in cs && Milder(b, c);
  }

  lemma FewerVoteSafe(h: History, id: NodeId, bs: seq<Batch>, cs: seq<Batch>, T: nat, cand: NodeId)
    requires FewerBatches(bs, cs) && VoteSafe(h.book, h.candLog, id, cs, T, cand)
    ensures VoteSafe(h.book, h.candLog, id, bs, T, cand)
  {
    forall T1: nat, i: nat | OwnIndex(h.book.termLog, T1, i) && T1 < T
      && (Owes(bs, T1, i) || Gave(h.book.acks, id, T1, i))
      ensures Safe(h.book, T1, i, h.candLog[(T, cand)])
    {
      if Owes(bs, T1, i) { FewerOwes(bs, cs, T1, i); }
    }
  }

  lemma FewerBatchesOk(h: History, net: set<Packet>, n: Node, bs: seq<Batch>)
    requires NodeOk(h, net, n) && FewerBatches(bs, n.batches)
    ensures NodeOk(h, net, n.(batches := bs))
  {
    hide VoteSafe, SaidOk, Owes;
    var cs := n.batches;
    forall T: nat, i: nat | Owes(bs, T, i) ensures Owes(cs, T, i) { FewerOwes(bs, cs, T, i); }
    forall b | b in bs
      ensures exists c :: c in cs && b.hard == c.hard && (BatchOk(n.id, c) ==> BatchOk(n.id, b)) && (OwesAck(b) ==>
        OwesAck(c) && b.action.replyTerm == c.action.replyTerm && b.action.verified == c.action.verified)
    {
      var c :| c in cs && Milder(b, c);
    }
    forall T: nat, cand | VoteSafe(h.book, h.candLog, n.id, cs, T, cand)
      ensures VoteSafe(h.book, h.candLog, n.id, bs, T, cand)
    {
      FewerVoteSafe(h, n.id, bs, cs, T, cand);
    }
    forall p | p in net && p.from == n.id ensures SaidOk(h.book, h.candLog, n.id, p, n.durableTerm, bs) {
      assert SaidOk(h.book, h.candLog, n.id, p, n.durableTerm, cs);
      FewerSaid(h, n.id, bs, cs, p, n.durableTerm);
    }
  }

  lemma FewerSaid(h: History, id: NodeId, bs: seq<Batch>, cs: seq<Batch>, p: Packet, durableTerm: nat)
    requires SaidOk(h.book, h.candLog, id, p, durableTerm, cs) && FewerBatches(bs, cs)
    ensures SaidOk(h.book, h.candLog, id, p, durableTerm, bs)
  {
    hide VoteSafe;
    if p.msg.RequestVoteResp? && p.msg.granted { FewerVoteSafe(h, id, bs, cs, p.msg.term, p.to); }
  }

  /** A batch whose action is never taken promises nothing. */
  lemma QuietBatchOk(h: History, net: set<Packet>, n: Node, k: nat)
    requires NodeOk(h, net, n) && k < |n.batches|
    ensures NodeOk(h, net, n.(batches := n.batches[k := Batch(Quiet, n.batches[k].hard)]))
  {
    hide NodeOk;
    var bs := n.batches[k := Batch(Quiet, n.batches[k].hard)];
    forall b | b in bs ensures exists c :: c in n.batches && Milder(b, c) {
      if b in n.batches { assert Milder(b, b); } else { assert n.batches[k] in n.batches && Milder(b, n.batches[k]); }
    }
    FewerBatchesOk(h, net, n, bs);
  }
}
