/** The remaining events: appends and their answers, completions, timeouts, reads and crashes. */
module ClusterEvents {
  import opened Types
  import opened RaftSpec
  import opened Cluster
  import opened ClusterInv
  import opened ClusterFacts
  import opened ClusterNode
  import opened ClusterFollower
  import opened ClusterLeader
  import opened ClusterSettle
  import opened ClusterStep

  // ---- appends -------------------------------------------------------------------

  /** What `PacketOk` says of an append from the leader of `T`. */
  ghost predicate Carries(h: History, T: nat, prev: nat, prevTerm: nat, entries: seq<Entry>, commit: nat) {
    && T in h.book.termLog
    && prev + |entries| <= |h.book.termLog[T]| && entries == h.book.termLog[T][prev..prev + |entries|]
    && TermAt(h.book.termLog[T], prev) == Some(prevTerm)
    && commit <= |h.book.termLog[T]| && Decided(h.book.termLog, h.commits, h.book.termLog[T], commit, T)
  }

  /** The follower the append finds: in the leader's term. */
  lemma FollowerOk(h: History, net: set<Packet>, n: Node, T: nat)
    requires NodeOk(h, net, n) && T >= n.term
    ensures NodeOk(h, net, Concede(if T > n.term then StepDown(n, T) else n))
  {
    if T > n.term { StepDownOk(h, net, n, T); }
    ConcedeOk(h, net, if T > n.term then StepDown(n, T) else n);
  }

  lemma RejectSound(w: World, n: Node, m: Node, from: NodeId, reply: Message, dirty: bool)
    requires Of(w, n) && NodeOk(w.h, w.net, m) && m.id == n.id && m.members == n.members && m.role == Follower
    requires from != n.id && reply.AppendEntriesResp? && !reply.success
    ensures Sound(w, n, if dirty then Reaction(StartHard(m, Reply(from, reply)), {})
                        else Reaction(m, Send(m, from, reply)))
  {
    hide Of, Inv, NodeOk, Sound;
    OfOk(w, n);
    if dirty {
      StartHardOk(w.h, w.net, m, Reply(from, reply));
      SettlePlain(w, n, StartHard(m, Reply(from, reply)), {});
    } else {
      SettlePlain(w, n, m, Send(m, from, reply));
    }
  }

  /** After the batch is started, following the leader's commit index is all that is left. */
  lemma AcceptedSound(w: World, n: Node, m: Node, T: nat, prev: nat, prevTerm: nat, entries: seq<Entry>, commit: nat)
    requires Of(w, n) && NodeOk(w.h, w.net, m) && m.id == n.id && m.members == n.members && m.role == Follower
    requires m.term == T
    requires Carries(w.h, T, prev, prevTerm, entries, commit)
    requires Agree(m.log, w.h.book.termLog[T], prev + |entries|)
    ensures Sound(w, n, Reaction(FollowCommit(m, commit, prev + |entries|), {}))
  {
    hide Of, Inv, NodeOk, Sound;
    OfOk(w, n);
    FollowCommitOk(w.h, w.net, m, T, commit, prev + |entries|);
    SettlePlain(w, n, FollowCommit(m, commit, prev + |entries|), {});
  }

  lemma OweSound(w: World, n: Node, m: Node, from: NodeId, a: Persist, dirty: bool,
                 T: nat, prev: nat, prevTerm: nat, entries: seq<Entry>, commit: nat)
    requires Of(w, n) && NodeOk(w.h, w.net, m) && m.id == n.id && m.members == n.members && m.role == Follower
    requires m.term == T
    requires Carries(w.h, T, prev, prevTerm, entries, commit) && from != n.id
    requires Agree(m.log, w.h.book.termLog[T], prev + |entries|)
    requires a.LogDurable? && a.replyTo == Some(from) && a.replyTerm == T && a.verified == prev + |entries|
    ensures Sound(w, n,
                  Reaction(FollowCommit(if dirty then StartHard(m, a) else StartPlain(m, a), commit, prev + |entries|),
                           {}))
  {
    hide Of, Inv, NodeOk, Sound;
    OfOk(w, n);
    if dirty { StartHardOk(w.h, w.net, m, a); } else { StartPlainOk(w.h, w.net, m, a); }
    AcceptedSound(w, n, if dirty then StartHard(m, a) else StartPlain(m, a), T, prev, prevTerm, entries, commit);
  }

  lemma AckOutcome(h: History, m: Node, from: NodeId, match': nat, last: nat)
    requires m.term in h.book.termLog && last <= |h.book.termLog[m.term]| && Agree(m.log, h.book.termLog[m.term], last)
    requires match' <= m.durableIndex && match' <= last && from != m.id && m.role == Follower
    ensures Outcome(m, m, Send(m, from, AppendEntriesResp(m.term, true, match', NO_INDEX)), h)
  {
    AgreeShorter(m.log, h.book.termLog[m.term], last, match');
    assert forall b :: b in m.batches ==> Milder(b, b);
    assert m.(commitIndex := m.commitIndex) == m;
  }

  /** Nothing was new: the follower answers at once with what it holds durably of what matched. */
  lemma AckNowSound(w: World, n: Node, m: Node, from: NodeId, T: nat, prev: nat, prevTerm: nat, entries: seq<Entry>,
                    commit: nat)
    requires Of(w, n) && NodeOk(w.h, w.net, m) && m.id == n.id && m.members == n.members && m.role == Follower
    requires m.term == T
    requires Carries(w.h, T, prev, prevTerm, entries, commit) && from != n.id
    requires Agree(m.log, w.h.book.termLog[T], prev + |entries|)
    ensures var lastNew := prev + |entries|;
      Sound(w, n, Reaction(FollowCommit(m, commit, lastNew),
                           Send(m, from, AppendEntriesResp(T, true, Min(m.durableIndex, lastNew), NO_INDEX))))
  {
    hide Of, Inv, NodeOk, Sound, Outcome;
    OfOk(w, n);
    var lastNew := prev + |entries|;
    FollowCommitOk(w.h, w.net, m, T, commit, lastNew);
    var f := FollowCommit(m, commit, lastNew);
    AckOutcome(w.h, f, from, Min(m.durableIndex, lastNew), lastNew);
    SettleSame(w, n, f, f, Send(f, from, AppendEntriesResp(T, true, Min(m.durableIndex, lastNew), NO_INDEX)));
  }

  lemma AcceptSound(w: World, n: Node, m: Node, from: NodeId, T: nat, prev: nat, prevTerm: nat, entries: seq<Entry>,
                    commit: nat, dirty: bool)
    requires Of(w, n) && NodeOk(w.h, w.net, m) && m.id == n.id && m.members == n.members && m.role == Follower
    requires m.term == T
    requires Carries(w.h, T, prev, prevTerm, entries, commit) && from != n.id
    requires TermAt(m.log, prev) == Some(prevTerm)
    ensures var r := Accept(m, from, prev, entries, dirty);
      Sound(w, n, r.(node := FollowCommit(r.node, commit, prev + |entries|)))
  {
    hide Of, Inv, NodeOk, Sound, HistoryOk, FollowCommit, Adopt, FirstNew, Carries;
    if FirstNew(m.log, prev, entries) < |entries| {
      AcceptNewSound(w, n, m, from, T, prev, prevTerm, entries, commit, dirty);
    } else {
      AcceptOldSound(w, n, m, from, T, prev, prevTerm, entries, commit, dirty);
    }
  }

  lemma AcceptNewSound(w: World, n: Node, m: Node, from: NodeId, T: nat, prev: nat, prevTerm: nat, entries: seq<Entry>,
                       commit: nat, dirty: bool)
    requires Of(w, n) && NodeOk(w.h, w.net, m) && m.id == n.id && m.members == n.members && m.role == Follower
    requires m.term == T
    requires Carries(w.h, T, prev, prevTerm, entries, commit) && from != n.id
    requires TermAt(m.log, prev) == Some(prevTerm) && FirstNew(m.log, prev, entries) < |entries|
    ensures var r := Accept(m, from, prev, entries, dirty);
      Sound(w, n, r.(node := FollowCommit(r.node, commit, prev + |entries|)))
  {
    hide Of, Inv, NodeOk, Sound, HistoryOk, FollowCommit, Adopt, FirstNew, Accept, Agree, StartHard, StartPlain,
         OwesAck;
    OfHistory(w, n);
    var k := FirstNew(m.log, prev, entries);
    FirstNewBelow(m.log, prev, entries);
    AdoptOk(w.h, w.net, w.members, m, prev, entries);
    AdoptIs(m, prev, entries, k);
    var m2 := Adopt(m, prev, entries, k);
    var a := LogDurable(prev + 1 + k, |m2.log|, prev + |entries|, Some(from), m2.term);
    AgreeWithPrefix(w.h.book.termLog[T], prev + |entries|);
    OweSound(w, n, m2, from, a, dirty, T, prev, prevTerm, entries, commit);
    AcceptIs(m, from, prev, entries, dirty);
  }

  lemma FirstNewBelow(log: seq<Entry>, prev: nat, entries: seq<Entry>)
    ensures FirstNew(log, prev, entries) <= |entries|
    ensures (prev <= |log| ==> prev + FirstNew(log, prev, entries) <= |log|)
  {
  }

  lemma AdoptIs(m: Node, prev: nat, entries: seq<Entry>, k: nat)
    requires k < |entries| && prev + k <= |m.log|
    ensures var m2 := Adopt(m, prev, entries, k);
      m2.id == m.id && m2.members == m.members && m2.role == m.role && m2.term == m.term
  {
  }

  lemma AgreeWithPrefix(log: seq<Entry>, i: nat)
    requires i <= |log|
    ensures Agree(log[..i], log, i)
  {
  }

  lemma AcceptIs(m: Node, from: NodeId, prev: nat, entries: seq<Entry>, dirty: bool)
    requires prev <= |m.log| && FirstNew(m.log, prev, entries) < |entries|
    ensures var k := FirstNew(m.log, prev, entries);
      prev + k <= |m.log| &&
      var m2 := Adopt(m, prev, entries, k);
      var a := LogDurable(prev + 1 + k, |m2.log|, prev + |entries|, Some(from), m2.term);
      Accept(m, from, prev, entries, dirty) == Reaction(if dirty then StartHard(m2, a) else StartPlain(m2, a), {})
  {
    hide Adopt;
  }

  lemma AcceptOldSound(w: World, n: Node, m: Node, from: NodeId, T: nat, prev: nat, prevTerm: nat, entries: seq<Entry>,
                       commit: nat, dirty: bool)
    requires Of(w, n) && NodeOk(w.h, w.net, m) && m.id == n.id && m.members == n.members && m.role == Follower
    requires m.term == T
    requires Carries(w.h, T, prev, prevTerm, entries, commit) && from != n.id
    requires TermAt(m.log, prev) == Some(prevTerm) && FirstNew(m.log, prev, entries) == |entries|
    ensures var r := Accept(m, from, prev, entries, dirty);
      Sound(w, n, r.(node := FollowCommit(r.node, commit, prev + |entries|)))
  {
    hide Of, Inv, NodeOk, Sound, HistoryOk;
    OfOk(w, n);
    OfHistory(w, n);
    var lastNew := prev + |entries|;
    LogAt(w.h, w.net, m);
    MatchedPart(w.h, w.members, m, T, prev, entries);
    if dirty {
      var a := LogDurable(m.durableIndex + 1, m.durableIndex, lastNew, Some(from), m.term);
      OweSound(w, n, m, from, a, true, T, prev, prevTerm, entries, commit);
    } else {
      AckNowSound(w, n, m, from, T, prev, prevTerm, entries, commit);
    }
  }

  lemma OfHistory(w: World, n: Node)
    requires Of(w, n)
    ensures HistoryOk(w.h, w.members)
  {
  }

  lemma LogAt(h: History, net: set<Packet>, n: Node)
    requires NodeOk(h, net, n)
    ensures LogOk(h.book.termLog, n.log, n.term)
  {
  }

  lemma AppendEntriesSound(w: World, n: Node, from: NodeId, T: nat, prev: nat, prevTerm: nat, entries: seq<Entry>,
                           commit: nat)
    requires Of(w, n) && Carries(w.h, T, prev, prevTerm, entries, commit) && from != n.id
    ensures Sound(w, n, OnAppendEntries(n, from, T, prev, prevTerm, entries, commit))
  {
    hide Of, Inv, NodeOk, Sound, Carries;
    OfOk(w, n);
    hide Of, Inv, Sound, Carries;
    OfOk(w, n);
    if T < n.term {
      var reply := AppendEntriesResp(n.term, false, NO_INDEX, NO_INDEX);
      SettlePlain(w, n, n, Send(n, from, reply));
    } else {
      FollowerOk(w.h, w.net, n, T);
      var dirty := T > n.term;
      var m := Concede(if dirty then StepDown(n, T) else n);
      if TermAt(m.log, prev) != Some(prevTerm) {
        RejectSound(w, n, m, from, AppendEntriesResp(m.term, false, m.durableIndex, ConflictHint(m.log, prev)), dirty);
      } else {
        AcceptSound(w, n, m, from, T, prev, prevTerm, entries, commit, dirty);
      }
    }
  }

  // ---- answers to appends ------------------------------------------------------------

  lemma CountMatchOk(h: History, net: set<Packet>, n: Node, from: NodeId, best: nat, next: map<NodeId, nat>)
    requires NodeOk(h, net, n) && n.role == Leader && (best == 0 || Gave(h.book.acks, from, n.term, best))
    ensures NodeOk(h, net, n.(matchIndex := n.matchIndex[from := best], nextIndex := next))
  {
  }

  lemma BestGiven(h: History, net: set<Packet>, n: Node, from: NodeId, match': nat)
    requires NodeOk(h, net, n) && n.role == Leader && Gave(h.book.acks, from, n.term, match')
    ensures var best := Max(if from in n.matchIndex then n.matchIndex[from] else NO_INDEX, match');
      best == 0 || Gave(h.book.acks, from, n.term, best)
  {
  }

  lemma AckSaid(h: History, m: Node, said: Node, p: Packet)
    requires CanSay(h, m, p) && p.msg.AppendEntriesResp? && said.id == m.id && said.durableTerm == m.durableTerm
    ensures CanSay(h, said, p)
  {
  }

  lemma MaybeCommits(m0: Node, bs: seq<Batch>)
    requires m0.role == Leader
    ensures var m := MaybeCommit(m0.(batches := bs));
      m == m0.(commitIndex := m.commitIndex, batches := m.batches) && m.batches == bs && CommitsNow(m0, m)
  {
    var k := QuorumIndex(m0.(batches := bs));
    assert Holders(m0.(batches := bs), k) == Holders(m0, k);
  }

  lemma AppendSaid(h: History, m: Node, said: Node, p: Packet)
    requires CanSay(h, m, p) && p.msg.AppendEntries?
    requires said.id == m.id && said.role == m.role && said.term == m.term && said.durableTerm == m.durableTerm
    requires said.log == m.log
    requires said.nextIndex == m.nextIndex && said.maxBatch == m.maxBatch && said.commitIndex == m.commitIndex
    ensures CanSay(h, said, p)
  {
    hide SendAppend, VoteSafe, MayReveal;
    SameAppend(m, said, p.to);
  }

  lemma SameAppend(m: Node, said: Node, to: NodeId)
    requires said.id == m.id && said.term == m.term && said.durableTerm == m.durableTerm && said.log == m.log
    requires said.nextIndex == m.nextIndex && said.maxBatch == m.maxBatch && said.commitIndex == m.commitIndex
    ensures SendAppend(said, to) == SendAppend(m, to)
  {
  }

  /** A leader that may commit, and sends appends and one acknowledgement. */
  lemma MaybeCommitOutcome(h: History, m0: Node, bs: seq<Batch>, m: Node, sent: set<Packet>, acks: set<Packet>)
    requires m0.role == Leader && FewerBatches(bs, m0.batches) && m == MaybeCommit(m0.(batches := bs))
    requires forall p :: p in sent ==> CanSay(h, m, p) && p.msg.AppendEntries?
    requires forall p :: p in acks ==> CanSay(h, m0, p) && p.msg.AppendEntriesResp?
    requires forall a :: a in SentAcks(acks) ==> AckReady(h.book, m0, a)
    ensures Outcome(m0, m, sent + acks, h)
  {
    hide CanSay, AckReady, MaybeCommit, CommitsNow, FewerBatches;
    MaybeCommits(m0, bs);
    assert SentAcks(sent + acks) == SentAcks(acks);
    var said := m0.(commitIndex := m.commitIndex);
    forall p | p in sent + acks ensures CanSay(h, said, p) {
      if p in sent { AppendSaid(h, m, said, p); } else { AckSaid(h, m0, said, p); }
    }
  }

  lemma NextIndexOk(h: History, net: set<Packet>, n: Node, next: map<NodeId, nat>)
    requires NodeOk(h, net, n)
    ensures NodeOk(h, net, n.(nextIndex := next))
  {
  }

  lemma RetrySound(w: World, n: Node, from: NodeId, next: nat)
    requires Of(w, n) && n.role == Leader && from != n.id
    ensures Sound(w, n,
                  Reaction(n.(nextIndex := n.nextIndex[from := next]),
                           SendAppend(n.(nextIndex := n.nextIndex[from := next]), from)))
  {
    hide Of, Inv, NodeOk, Sound, HistoryOk;
    OfOk(w, n);
    var m := n.(nextIndex := n.nextIndex[from := next]);
    NextIndexOk(w.h, w.net, n, m.nextIndex);
    SettlePlain(w, n, m, SendAppend(m, from));
  }

  lemma SendAppendSaid(h: History, m: Node, to: NodeId)
    requires m.role == Leader && to != m.id
    ensures forall p :: p in SendAppend(m, to) ==> CanSay(h, m, p) && p.msg.AppendEntries?
  {
  }

  lemma SameBatches(bs: seq<Batch>)
    ensures FewerBatches(bs, bs)
  {
    assert forall b :: b in bs ==> Milder(b, b);
  }

  /** The leader with the new match recorded commits what it can and keeps the follower going. */
  lemma CommitAndSendSound(w: World, n: Node, m0: Node, from: NodeId, more: bool)
    requires Of(w, n) && NodeOk(w.h, w.net, m0) && m0.id == n.id && m0.members == n.members && m0.role == Leader
    requires m0.commitIndex == n.commitIndex && from != n.id
    ensures Sound(w, n, Reaction(MaybeCommit(m0), if more then SendAppend(MaybeCommit(m0), from) else {}))
  {
    hide Of, Inv, NodeOk, Sound, Outcome, SendAppend, MaybeCommit, CanSay, FewerBatches;
    OfOk(w, n);
    var m := MaybeCommit(m0);
    var sent := if more then SendAppend(m, from) else {};
    SameBatches(m0.batches);
    assert m0.(batches := m0.batches) == m0;
    MaybeCommits(m0, m0.batches);
    SendAppendSaid(w.h, m, from);
    MaybeCommitOutcome(w.h, m0, m0.batches, m, sent, {});
    assert sent + {} == sent;
    SettleSame(w, n, m0, m, sent);
  }

  lemma MatchSound(w: World, n: Node, from: NodeId, match': nat, conflict: nat)
    requires Of(w, n) && n.role == Leader && from != n.id && Gave(w.h.book.acks, from, n.term, match')
    ensures Sound(w, n, OnAppendResp(n, from, n.term, true, match', conflict))
  {
    hide Of, Inv, NodeOk, Sound, Gave, SendAppend, MaybeCommit;
    OfOk(w, n);
    BestGiven(w.h, w.net, n, from, match');
    var best := Max(if from in n.matchIndex then n.matchIndex[from] else NO_INDEX, match');
    var m0 := n.(matchIndex := n.matchIndex[from := best], nextIndex := n.nextIndex[from := best + 1]);
    CountMatchOk(w.h, w.net, n, from, best, m0.nextIndex);
    CommitAndSendSound(w, n, m0, from, best < |MaybeCommit(m0).log|);
  }

  lemma AppendRespSound(w: World, n: Node, from: NodeId, T: nat, success: bool, match': nat, conflict: nat)
    requires Of(w, n) && from != n.id && (success ==> Gave(w.h.book.acks, from, T, match'))
    ensures Sound(w, n, OnAppendResp(n, from, T, success, match', conflict))
  {
    hide Inv, Sound, Gave;
    if T > n.term {
      StepDownSound(w, n, T);
    } else if n.role != Leader || T != n.term {
      UnchangedSound(w, n);
    } else if success {
      MatchSound(w, n, from, match', conflict);
    } else {
      var cur := if from in n.nextIndex then n.nextIndex[from] else 1;
      RetrySound(w, n, from, Max(Min(Max(conflict, 1), if cur > 0 then cur - 1 else 0), 1));
    }
  }

  // ---- proposing -----------------------------------------------------------------------

  lemma ProposeSound(w: World, n: Node, cmd: Command)
    requires Of(w, n)
    ensures Sound(w, n, Propose(n, cmd))
  {
    hide Of, Inv, NodeOk, Sound, HistoryOk, Outcome, BroadcastAppend;
    OfOk(w, n);
    if n.role != Leader || n.failed {
      UnchangedSound(w, n);
    } else {
      OfHistory(w, n);
      LeaderTerm(w, n);
      var e := Entry(n.term, |n.log| + 1, cmd);
      var m1 := n.(log := n.log + [e]);
      var a := LogDurable(|n.log| + 1, |n.log| + 1, UNBOUNDED, None, 0);
      var m := StartPlain(m1, a);
      var h1 := w.h.(book := w.h.book.(termLog := w.h.book.termLog[n.term := m1.log]));
      ProposeOk(w.h, w.net, w.members, n, cmd, h1);
      StartPlainOk(h1, w.net, m1, a);
      BroadcastSaid(h1, m);
      PlainOutcome(h1, m, BroadcastAppend(m));
      SettleOk(w, n, m, m, BroadcastAppend(m), h1);
    }
  }

  lemma LeaderTerm(w: World, n: Node)
    requires NodeOk(w.h, w.net, n) && n.role == Leader
    ensures n.term in w.h.book.elections && n.term in w.h.book.termLog && w.h.book.termLog[n.term] == n.log
  {
  }

  // ---- timeouts, reads, failures ---------------------------------------------------------

  lemma CandidateOkLemma(h: History, net: set<Packet>, n: Node)
    requires NodeOk(h, net, n)
    ensures NodeOk(h, net, n.(term := n.term + 1, votedFor := Some(n.id), role := Candidate, votes := {n.id}))
  {
    var es := h.book.elections;
    forall T: nat, c: NodeId | VotedFor(es, net, n.id, T, c) ensures T <= n.term {
      assert Follows(HardState(T, Some(c), 0), n.durableHard);
    }
    assert n.term + 1 in es && es[n.term + 1].leader == n.id ==> VotedFor(es, net, n.id, n.term + 1, n.id);
  }

  lemma TimeoutSound(w: World, n: Node)
    requires Of(w, n)
    ensures Sound(w, n, OnElectionTimeout(n))
  {
    hide Of, Inv, NodeOk, Sound, HistoryOk;
    OfOk(w, n);
    if n.failed || n.role == Leader || n.id !in n.members {
      UnchangedSound(w, n);
    } else {
      CandidateOkLemma(w.h, w.net, n);
      var m := n.(term := n.term + 1, votedFor := Some(n.id), role := Candidate, votes := {n.id});
      StartHardOk(w.h, w.net, m, Campaign(m.term));
      SettlePlain(w, n, BecomeCandidate(n), {});
    }
  }

  lemma HeartbeatSound(w: World, n: Node)
    requires Of(w, n)
    ensures Sound(w, n, OnHeartbeat(n))
  {
    hide Of, Inv, NodeOk, Sound;
    OfOk(w, n);
    if n.role == Leader { BroadcastSaid(w.h, n); }
    SettlePlain(w, n, n, OnHeartbeat(n).sent);
  }

  /** `NodeOk` does not look at the fields ReadIndex uses. */
  lemma ReadFieldsOk(h: History, net: set<Packet>, n: Node, m: Node)
    requires NodeOk(h, net, n)
    requires m == n.(readSeq := m.readSeq, pendingReads := m.pendingReads, probeAcked := m.probeAcked)
    ensures NodeOk(h, net, m)
  {
  }

  lemma RequestReadSound(w: World, n: Node, id: nat)
    requires Of(w, n)
    ensures Sound(w, n, RequestRead(n, id))
  {
    hide Of, Inv, NodeOk, Sound, HistoryOk;
    OfOk(w, n);
    var r := RequestRead(n, id);
    ReadFieldsOk(w.h, w.net, n, r.node);
    SettlePlain(w, n, r.node, r.sent);
  }

  lemma GiveUpOk(h: History, net: set<Packet>, n: Node)
    requires NodeOk(h, net, n) && n.role != Leader
    ensures NodeOk(h, net, n.(role := Follower, votes := {}))
  {
  }

  lemma PreVoteRoundSound(w: World, n: Node)
    requires Of(w, n)
    ensures Sound(w, n, OnPreVoteRound(n))
  {
    hide Of, Inv, NodeOk, Sound, HistoryOk;
    OfOk(w, n);
    if n.role != Leader { GiveUpOk(w.h, w.net, n); }
    SettlePlain(w, n, OnPreVoteRound(n).node, {});
  }

  lemma NewerTermSound(w: World, n: Node, term: nat)
    requires Of(w, n)
    ensures Sound(w, n, OnNewerTerm(n, term))
  {
    hide Of, Inv, NodeOk, Sound, HistoryOk, StepDownAndPersist;
    OfOk(w, n);
    if n.failed || term <= n.term { SettlePlain(w, n, n, {}); } else { StepDownSound(w, n, term); }
  }

  lemma ReadProbeSound(w: World, n: Node, from: NodeId, T: nat, seqno: nat)
    requires Of(w, n) && from != n.id
    ensures Sound(w, n, OnReadProbe(n, from, T, seqno))
  {
    hide Of, Inv, NodeOk, Sound, HistoryOk;
    OfOk(w, n);
    if T > n.term {
      StepDownSound(w, n, T);
    } else {
      ConcedeOk(w.h, w.net, n);
      var r := OnReadProbe(n, from, T, seqno);
      SettlePlain(w, n, r.node, r.sent);
    }
  }

  lemma ReadProbeRespSound(w: World, n: Node, from: NodeId, T: nat, seqno: nat)
    requires Of(w, n)
    ensures Sound(w, n, OnReadProbeResp(n, from, T, seqno))
  {
    hide Of, Inv, NodeOk, Sound, HistoryOk;
    OfOk(w, n);
    if T > n.term {
      StepDownSound(w, n, T);
    } else {
      var r := OnReadProbeResp(n, from, T, seqno);
      ReadFieldsOk(w.h, w.net, n, r.node);
      SettlePlain(w, n, r.node, r.sent);
    }
  }

  lemma FailedOk(h: History, net: set<Packet>, n: Node, failed: bool)
    requires NodeOk(h, net, n)
    ensures NodeOk(h, net, n.(failed := failed))
  {
  }

  lemma FailureSound(w: World, n: Node, k: nat)
    requires Of(w, n) && k < |n.batches|
    ensures Sound(w, n, Reaction(OnStorageFailure(n, k), {}))
  {
    hide Of, Inv, NodeOk, Sound, HistoryOk;
    OfOk(w, n);
    QuietBatchOk(w.h, w.net, n, k);
    var m := OnStorageFailure(n, k);
    FailedOk(w.h, w.net, m.(failed := n.failed), true);
    SettlePlain(w, n, m, {});
  }
}
