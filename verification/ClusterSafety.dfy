/**
 The safety of whole runs: with completions and crashes every event is covered, so the invariant
 holds in every reachable state, and with it election safety, log matching, leader completeness
 and state machine safety.
*/
module ClusterSafety {
  import opened Types
  import opened RaftSpec
  import opened Cluster
  import opened ClusterInv
  import opened ClusterFacts
  import opened ClusterGrowth
  import opened ClusterNode
  import opened ClusterFollower
  import opened ClusterLeader
  import opened ClusterSettle
  import opened ClusterStep
  import opened ClusterEvents

  // ---- completions -----------------------------------------------------------------

  lemma WrittenOk(h: History, net: set<Packet>, n: Node, k: nat)
    requires NodeOk(h, net, n) && k < |n.batches| && n.batches[k].hard.Some?
    ensures Written(h, net, n, n.batches[k].hard.value)
  {
    assert n.batches[k] in n.batches;
  }

  lemma AdvanceBatches(n: Node, bs: seq<Batch>)
    ensures AdvanceDurable(n.(batches := bs)) == AdvanceDurable(n).(batches := bs)
    ensures AdvanceDurable(n) == n.(durableIndex := AdvanceDurable(n).durableIndex, parked := AdvanceDurable(n).parked)
  {
  }

  /** Noting a hard state does not look at the batches. */
  lemma NoteHardBatches(n: Node, bs: seq<Batch>, hard: Option<HardState>)
    ensures NoteHard(n.(batches := bs), hard) == NoteHard(n, hard).(batches := bs)
    ensures NoteHard(n, hard).batches == n.batches
  {
    hide AdvanceDurable;
    if hard.Some? {
      var m := if hard.value.seqno >= n.durableHard.seqno then n.(durableHard := hard.value) else n;
      AdvanceBatches(m.(durableTerm := hard.value.term), bs);
    }
  }

  lemma NoteHardKeeps(n: Node, hard: Option<HardState>)
    ensures var m := NoteHard(n, hard);
      && m.id == n.id && m.members == n.members && m.role == n.role && m.term == n.term && m.votedFor == n.votedFor
      && m.log == n.log && m.commitIndex == n.commitIndex && m.votes == n.votes && m.batches == n.batches
  {
    hide AdvanceDurable;
    if hard.Some? {
      var m := if hard.value.seqno >= n.durableHard.seqno then n.(durableHard := hard.value) else n;
      AdvanceBatches(m.(durableTerm := hard.value.term), n.batches);
    }
  }

  function Without(bs: seq<Batch>, k: nat): (r: seq<Batch>)
    requires k < |bs|
    ensures forall b :: b in r ==> b in bs
  {
    bs[..k] + bs[k + 1..]
  }

  lemma WithoutFewer(bs: seq<Batch>, k: nat)
    requires k < |bs|
    ensures FewerBatches(Without(bs, k), bs)
  {
    assert forall b :: b in Without(bs, k) ==> b in bs && Milder(b, b);
  }

  lemma BatchAt(h: History, net: set<Packet>, n: Node, b: Batch)
    requires NodeOk(h, net, n) && b in n.batches
    ensures BatchOk(n.id, b)
    ensures OwesAck(b) ==>
      b.action.replyTerm in h.book.termLog && b.action.verified <= |h.book.termLog[b.action.replyTerm]|
    ensures b.hard.Some? ==> CastOk(h.book, h.candLog, n.id, n.batches, b.hard.value.term, b.hard.value.votedFor)
  {
  }

  /** The completion said only what `m` may say, and finished its batch. */
  lemma FinishedOutcome(h: History, m: Node, bs: seq<Batch>, sent: set<Packet>)
    requires FewerBatches(bs, m.batches)
    requires forall p :: p in sent ==> CanSay(h, m, p)
    requires forall a :: a in SentAcks(sent) ==> AckReady(h.book, m, a)
    ensures Outcome(m, m.(batches := bs), sent, h)
  {
    hide CanSay, AckReady, FewerBatches;
    assert m.(commitIndex := m.commitIndex) == m;
  }

  lemma FinishedSound(w: World, n: Node, m: Node, bs: seq<Batch>, sent: set<Packet>)
    requires Of(w, n) && NodeOk(w.h, w.net, m) && m.id == n.id && m.members == n.members
    requires m.commitIndex == n.commitIndex
    requires FewerBatches(bs, m.batches)
    requires forall p :: p in sent ==> CanSay(w.h, m, p)
    requires forall a :: a in SentAcks(sent) ==> AckReady(w.h.book, m, a)
    ensures Sound(w, n, Reaction(m.(batches := bs), sent))
  {
    hide Of, NodeOk, Sound, Outcome, CanSay, AckReady, FewerBatches;
    FinishedOutcome(w.h, m, bs, sent);
    SettleSame(w, n, m, m.(batches := bs), sent);
  }

  lemma OfMember(w: World, n: Node)
    requires Of(w, n)
    ensures n.id in n.members
  {
  }

  lemma AskedSaid(w: World, n: Node, m: Node, p: Packet)
    requires Of(w, n) && Winning(w, n, m) && n.role == Candidate && n.votes == m.votes
    requires VotesIn(w, n) && p in Broadcast(m, RequestVote(m.term, m.id, |m.log|, LastTerm(m.log)))
    ensures CanSay(w.h, BecomeLeader(m).node, p)
  {
    hide Of, NodeOk, MayReveal;
    OfMember(w, n);
    var q := m.votes * m.members;
    assert {m.id, p.to} <= m.members;
    SubsetSize({m.id, p.to}, m.members);
    assert |q| >= 2;
    var u :| u in q && u != m.id by {
      if forall u :: u in q ==> u == m.id { SubsetSize(q, {m.id}); }
    }
    assert Packet(u, n.id, RequestVoteResp(n.term, true)) in w.net;
    AskedIsDurable(w, n, u);
    CandLogIs(w.h, w.net, m);
    MayAsk(w.h, w.net, m);
    LeaderMayAsk(m);
  }

  lemma CandLogIs(h: History, net: set<Packet>, m: Node)
    requires NodeOk(h, net, m) && m.role == Candidate && (m.term, m.id) in h.candLog
    ensures h.candLog[(m.term, m.id)] == m.log
  {
  }

  /** `m` is `n` with the synced hard state noted; the finished batch `b` is still listed. */
  ghost predicate Completing(w: World, n: Node, b: Batch, m: Node) {
    && NodeOk(w.h, w.net, m) && b in m.batches && m.batches == n.batches
    && m.id == n.id && m.members == n.members && m.role == n.role && m.term == n.term && m.votedFor == n.votedFor
    && m.log == n.log && m.commitIndex == n.commitIndex && m.votes == n.votes
    && (b.hard.Some? ==> m.durableTerm >= b.hard.value.term && Follows(b.hard.value, m.durableHard))
  }

  lemma CompletingOk(w: World, n: Node, k: nat)
    requires Of(w, n) && k < |n.batches|
    ensures Completing(w, n, n.batches[k], NoteHard(n, n.batches[k].hard))
  {
    hide Of, NodeOk, NoteHard, Written;
    OfOk(w, n);
    var hard := n.batches[k].hard;
    if hard.Some? { WrittenOk(w.h, w.net, n, k); }
    NoteHardOk(w.h, w.net, n, hard);
    NoteHardKeeps(n, hard);
  }

  lemma QuietSound(w: World, n: Node, b: Batch, m: Node, bs: seq<Batch>, sent: set<Packet>)
    requires Of(w, n) && Completing(w, n, b, m) && FewerBatches(bs, m.batches)
    requires forall p :: p in sent ==> CanSay(w.h, m, p) && !p.msg.AppendEntriesResp?
    ensures Sound(w, n, Reaction(m.(batches := bs), sent))
  {
    hide Of, NodeOk, Sound, CanSay, AckReady, FewerBatches;
    FinishedSound(w, n, m, bs, sent);
  }

  lemma WinningOk(w: World, n: Node, b: Batch, m: Node, bs: seq<Batch>)
    requires Completing(w, n, b, m) && m.role == Candidate && m.durableTerm >= m.term
    requires FewerBatches(bs, m.batches) && (forall c :: c in bs ==> c in n.batches)
    requires |m.votes * m.members| >= Quorum(m.members)
    ensures Winning(w, n, m.(batches := bs))
  {
    hide NodeOk, FewerBatches;
    FewerBatchesOk(w.h, w.net, m, bs);
  }

  lemma CampaignWon(w: World, n: Node, b: Batch, m: Node, bs: seq<Batch>)
    requires Of(w, n) && Completing(w, n, b, m) && m.role == Candidate && m.durableTerm >= m.term && VotesIn(w, n)
    requires FewerBatches(bs, m.batches) && (forall c :: c in bs ==> c in n.batches)
    requires |m.votes * m.members| >= Quorum(m.members)
    ensures var m' := m.(batches := bs);
      var asked := Broadcast(m', RequestVote(m'.term, m'.id, |m'.log|, LastTerm(m'.log)));
      Sound(w, n, Reaction(BecomeLeader(m').node, asked + BecomeLeader(m').sent))
  {
    hide Of, NodeOk, Sound, CanSay, FewerBatches, BecomeLeader, VotesIn, Broadcast;
    var m' := m.(batches := bs);
    WinningOk(w, n, b, m, bs);
    var asked := Broadcast(m', RequestVote(m'.term, m'.id, |m'.log|, LastTerm(m'.log)));
    forall p | p in asked ensures p.msg.RequestVote? && CanSay(w.h, BecomeLeader(m').node, p) {
      AskedSaid(w, n, m', p);
      BroadcastKind(m', RequestVote(m'.term, m'.id, |m'.log|, LastTerm(m'.log)), p);
    }
    ElectSound(w, n, m', asked);
  }

  lemma BroadcastKind(n: Node, msg: Message, p: Packet)
    requires p in Broadcast(n, msg)
    ensures p.msg == msg
  {
  }

  lemma AskSaid(h: History, net: set<Packet>, m: Node)
    requires NodeOk(h, net, m) && m.role == Candidate
    ensures forall p ::
      p in Broadcast(m, RequestVote(m.term, m.id, |m.log|, LastTerm(m.log))) ==> CanSay(h, m, p) && p.msg.RequestVote?
  {
    hide NodeOk, MayReveal;
    if m.durableTerm >= m.term { MayAsk(h, net, m); }
  }

  /** A candidate whose term is durable has its own vote durable. */
  lemma MayAsk(h: History, net: set<Packet>, m: Node)
    requires NodeOk(h, net, m) && m.role == Candidate && m.durableTerm >= m.term
    ensures MayReveal(m, m.term, m.id)
  {
  }

  lemma LeaderMayAsk(m: Node)
    requires MayReveal(m, m.term, m.id)
    ensures MayReveal(BecomeLeader(m).node, m.term, m.id)
  {
    assert forall b :: b in m.batches ==> b in BecomeLeader(m).node.batches;
  }

  lemma VotesInOk(w: World, n: Node)
    requires NodeOk(w.h, w.net, n) && n.role == Candidate
    ensures VotesIn(w, n)
  {
  }

  lemma CampaignSound(w: World, n: Node, b: Batch, m: Node, bs: seq<Batch>)
    requires Of(w, n) && Completing(w, n, b, m) && b.action.Campaign?
    requires FewerBatches(bs, m.batches) && (forall c :: c in bs ==> c in n.batches)
    ensures Sound(w, n, OnDurable(m.(batches := bs), b.action))
  {
    hide Of, NodeOk, Sound, CanSay, FewerBatches, BecomeLeader, Broadcast, VotesIn;
    OfOk(w, n);
    BatchAt(w.h, w.net, m, b);
    var T := b.action.term;
    if m.term == T && m.role == Candidate {
      if |m.votes * m.members| >= Quorum(m.members) {
        VotesInOk(w, n);
        CampaignWon(w, n, b, m, bs);
      } else {
        AskSaid(w.h, w.net, m);
        BroadcastBatches(m, bs, RequestVote(T, m.id, |m.log|, LastTerm(m.log)));
        QuietSound(w, n, b, m, bs, Broadcast(m, RequestVote(T, m.id, |m.log|, LastTerm(m.log))));
      }
    } else {
      QuietSound(w, n, b, m, bs, {});
    }
  }

  lemma BroadcastBatches(m: Node, bs: seq<Batch>, msg: Message)
    ensures Broadcast(m.(batches := bs), msg) == Broadcast(m, msg)
  {
  }

  lemma VoteReplySaid(w: World, n: Node, b: Batch, m: Node, p: Packet)
    requires Completing(w, n, b, m) && b.action.VoteReply?
    requires p in Send(m, b.action.to, RequestVoteResp(b.action.term, b.action.granted))
    ensures CanSay(w.h, m, p)
  {
    hide NodeOk;
    BatchAt(w.h, w.net, m, b);
  }

  lemma VoteReplySound(w: World, n: Node, b: Batch, m: Node, bs: seq<Batch>)
    requires Of(w, n) && Completing(w, n, b, m) && b.action.VoteReply? && FewerBatches(bs, m.batches)
    ensures Sound(w, n, OnDurable(m.(batches := bs), b.action))
  {
    hide Of, NodeOk, Sound, CanSay, FewerBatches, Completing;
    var sent := Send(m, b.action.to, RequestVoteResp(b.action.term, b.action.granted));
    forall p | p in sent ensures CanSay(w.h, m, p) { VoteReplySaid(w, n, b, m, p); }
    QuietSound(w, n, b, m, bs, sent);
  }

  lemma ReplySound(w: World, n: Node, b: Batch, m: Node, bs: seq<Batch>)
    requires Of(w, n) && Completing(w, n, b, m) && b.action.Reply? && FewerBatches(bs, m.batches)
    ensures Sound(w, n, OnDurable(m.(batches := bs), b.action))
  {
    hide Of, NodeOk, Sound, FewerBatches, AckReady;
    BatchAt(w.h, w.net, m, b);
    FinishedSound(w, n, m, bs, Send(m, b.action.to, b.action.msg));
  }

  // ---- a log write became durable -------------------------------------------------------

  /** The node after the range of the finished write is parked and claims are advanced. */
  ghost function Claimed(n: Node, a: Persist): Node
    requires a.LogDurable?
  {
    var index := Min(a.index, |n.log|);
    if index > n.durableIndex then AdvanceDurable(n.(parked := n.parked + [(a.from, index)])) else n
  }

  lemma ClaimedOk(h: History, net: set<Packet>, n: Node, a: Persist)
    requires NodeOk(h, net, n) && a.LogDurable?
    ensures NodeOk(h, net, Claimed(n, a))
  {
    hide NodeOk, AdvanceDurable;
    var parked := n.parked + [(a.from, Min(a.index, |n.log|))];
    ParkedOk(h, net, n, parked);
    AdvanceDurableOk(h, net, n.(parked := parked));
  }

  lemma ParkedOk(h: History, net: set<Packet>, n: Node, parked: seq<(nat, nat)>)
    requires NodeOk(h, net, n)
    ensures NodeOk(h, net, n.(parked := parked))
  {
  }

  lemma ClaimedKeeps(n: Node, a: Persist, bs: seq<Batch>)
    requires a.LogDurable?
    ensures Claimed(n.(batches := bs), a) == Claimed(n, a).(batches := bs)
    ensures Claimed(n, a) == n.(durableIndex := Claimed(n, a).durableIndex, parked := Claimed(n, a).parked)
  {
    hide AdvanceDurable;
    var p := n.(parked := n.parked + [(a.from, Min(a.index, |n.log|))]);
    AdvanceBatches(p, bs);
    AdvanceBatches(p, n.batches);
  }

  ghost function AckFor(n: Node, a: Persist): set<Packet>
    requires a.LogDurable?
  {
    match a.replyTo
    case None => {}
    case Some(to) => Send(n, to, AppendEntriesResp(a.replyTerm, true, Min(n.durableIndex, a.verified), NO_INDEX))
  }

  lemma AckForReady(h: History, net: set<Packet>, m: Node, b: Batch)
    requires NodeOk(h, net, m) && b in m.batches && b.action.LogDurable?
    ensures forall p :: p in AckFor(m, b.action) ==> CanSay(h, m, p) && p.msg.AppendEntriesResp?
    ensures forall a :: a in SentAcks(AckFor(m, b.action)) ==> AckReady(h.book, m, a)
  {
    hide NodeOk;
    BatchAt(h, net, m, b);
    if b.action.replyTo.Some? {
      var i := Min(m.durableIndex, b.action.verified);
      assert Owes(m.batches, b.action.replyTerm, i);
    }
  }

  lemma LogDurableIs(m: Node, c: Node, a: Persist, bs: seq<Batch>)
    requires a.LogDurable? && c == Claimed(m, a)
    ensures var c' := c.(batches := bs);
      OnDurable(m.(batches := bs), a) == Reaction(if c.role == Leader then MaybeCommit(c') else c', AckFor(c, a))
  {
    hide MaybeCommit, AdvanceDurable;
    ClaimedKeeps(m, a, bs);
  }

  lemma LogDurableSound(w: World, n: Node, b: Batch, m: Node, bs: seq<Batch>)
    requires Of(w, n) && Completing(w, n, b, m) && b.action.LogDurable? && FewerBatches(bs, m.batches)
    ensures Sound(w, n, OnDurable(m.(batches := bs), b.action))
  {
    hide Of, NodeOk, Sound, FewerBatches, MaybeCommit, Claimed, AckFor, CanSay, AckReady, Outcome, OnDurable;
    var a := b.action;
    var c := Claimed(m, a);
    ClaimedOk(w.h, w.net, m, a);
    ClaimedKeeps(m, a, bs);
    AckForReady(w.h, w.net, c, b);
    LogDurableIs(m, c, a, bs);
    var c' := c.(batches := bs);
    if c.role == Leader {
      MaybeCommitOutcome(w.h, c, bs, MaybeCommit(c'), {}, AckFor(c, a));
      assert {} + AckFor(c, a) == AckFor(c, a);
      MaybeCommits(c, bs);
      SettleSame(w, n, c, MaybeCommit(c'), AckFor(c, a));
    } else {
      FinishedSound(w, n, c, bs, AckFor(c, a));
    }
  }

  lemma SyncedSound(w: World, n: Node, k: nat)
    requires Of(w, n) && k < |n.batches|
    ensures Sound(w, n, OnSynced(n, k))
  {
    hide Of, NodeOk, Sound, FewerBatches, NoteHard, OnDurable;
    var b := n.batches[k];
    var bs := Without(n.batches, k);
    var m := NoteHard(n, b.hard);
    CompletingOk(w, n, k);
    NoteHardBatches(n, bs, b.hard);
    WithoutFewer(n.batches, k);
    assert OnSynced(n, k) == OnDurable(m.(batches := bs), b.action);
    match b.action {
      case Campaign(_) => CampaignSound(w, n, b, m, bs);
      case VoteReply(_, _, _) => VoteReplySound(w, n, b, m, bs);
      case LogDurable(_, _, _, _, _) => LogDurableSound(w, n, b, m, bs);
      case Reply(_, _) => ReplySound(w, n, b, m, bs);
      case Quiet => QuietBatchSound(w, n, b, m, bs);
    }
  }

  lemma QuietBatchSound(w: World, n: Node, b: Batch, m: Node, bs: seq<Batch>)
    requires Of(w, n) && Completing(w, n, b, m) && b.action.Quiet? && FewerBatches(bs, m.batches)
    ensures Sound(w, n, OnDurable(m.(batches := bs), b.action))
  {
    hide Of, NodeOk, Sound, FewerBatches;
    QuietSound(w, n, b, m, bs, {});
  }

  // ---- crashes --------------------------------------------------------------------------

  lemma NothingOwed(T: nat, i: nat)
    ensures !Owes([], T, i)
  {
  }

  lemma RecoverVotes(h: History, net: set<Packet>, n: Node, hs: HardState)
    requires NodeOk(h, net, n) && Survives(n, hs)
    ensures Follows(n.durableHard, hs) && hs.term >= n.durableTerm
    ensures OnceOk(h.book.elections, net, n.id, hs.term, hs.votedFor, hs, [])
    ensures VotesOk(h.book, h.candLog, n.id, hs.term, hs.votedFor, hs, [])
    ensures SpeechOk(h.book, h.candLog, n.id, net, hs.term, [])
  {
    forall T: nat, i: nat ensures !Owes([], T, i) { NothingOwed(T, i); }
    assert CastOk(h.book, h.candLog, n.id, n.batches, hs.term, hs.votedFor);
    forall p | p in net && p.from == n.id ensures SaidOk(h.book, h.candLog, n.id, p, hs.term, []) {
      assert SaidOk(h.book, h.candLog, n.id, p, n.durableTerm, n.batches);
    }
  }

  lemma RecoverLog(h: History, net: set<Packet>, n: Node, hs: HardState, kept: nat)
    requires NodeOk(h, net, n) && Recoverable(n, hs, kept) && hs.term >= n.durableTerm
    ensures LogOk(h.book.termLog, n.log[..kept], hs.term)
    ensures AckOk(h.book, n.id, n.log[..kept], kept, [])
    ensures AckTermsOk(h.book, n.id, hs.term, hs.term, [])
  {
    PrefixOk(h.book.termLog, n.log, n.term, kept);
    var log := n.log[..kept];
    forall T: nat, i: nat | OwnIndex(h.book.termLog, T, i) && Gave(h.book.acks, n.id, T, i)
      ensures (i <= kept && Agree(h.book.termLog[T], log, i)) || Blocked(h.book.elections, T, i)
    {
      if !Blocked(h.book.elections, T, i) { assert log[..i] == n.log[..i]; }
    }
  }

  lemma RecoverOk(h: History, net: set<Packet>, n: Node, hs: HardState, kept: nat)
    requires NodeOk(h, net, n) && Survives(n, hs) && Recoverable(n, hs, kept)
    ensures NodeOk(h, net, Recovered(n.id, n.members, n.maxBatch, hs, n.log[..kept]))
  {
    RecoverVotes(h, net, n, hs);
    RecoverLog(h, net, n, hs, kept);
    var m := Recovered(n.id, n.members, n.maxBatch, hs, n.log[..kept]);
    RecoveredRest(h, net, n, m, hs);
  }

  lemma RecoveredRest(h: History, net: set<Packet>, n: Node, m: Node, hs: HardState)
    requires PromiseOk(h.book.elections, n.id, n.durableTerm, n.batches) && StoodOk(h.candLog, n.id, n.durableTerm)
    requires m.id == n.id && m.batches == [] && m.durableTerm == hs.term >= n.durableTerm && m.durableHard == hs
    requires m.term == hs.term && m.votedFor == hs.votedFor && m.stateSeq == hs.seqno + 1 && m.role == Follower
    ensures PromiseOk(h.book.elections, m.id, m.durableTerm, m.batches) && StoodOk(h.candLog, m.id, m.durableTerm)
    ensures HardOk(m.term, m.votedFor, m.stateSeq, m.durableTerm, m.durableHard, m.batches)
    ensures CandidateOk(h.book.elections, h.candLog, net, m) && LeaderOk(h.book, h.commits, m)
  {
  }

  lemma CrashSound(w: World, n: Node, hs: HardState, kept: nat)
    requires Of(w, n) && Survives(n, hs) && Recoverable(n, hs, kept)
    ensures Sound(w, n, Reaction(Recovered(n.id, n.members, n.maxBatch, hs, n.log[..kept]), {}))
  {
    hide Of, NodeOk, Sound;
    OfOk(w, n);
    RecoverOk(w.h, w.net, n, hs, kept);
    SettlePlain(w, n, Recovered(n.id, n.members, n.maxBatch, hs, n.log[..kept]), {});
  }

  // ---- every step ---------------------------------------------------------------------

  lemma PacketAt(w: World, p: Packet)
    requires Inv(w) && p in w.net
    ensures PacketOk(w.h, p)
  {
    assert PacketOk(w.h, p);
  }

  lemma DeliverSound(w: World, n: Node, p: Packet, ignore: bool)
    requires Of(w, n) && p in w.net && p.to == n.id
    ensures Sound(w, n, OnMessage(n, p.from, p.msg, ignore))
  {
    PacketAt(w, p);
    hide Of, Inv, NodeOk, Sound;
    if n.failed {
      UnchangedSound(w, n);
    } else {
      match p.msg {
        case RequestVote(T, cand, li, lt) => RequestVoteSound(w, n, p.from, T, li, lt, ignore);
        case RequestVoteResp(T, granted) => VoteRespSound(w, n, p.from, T, granted);
        case AppendEntries(T, _, prev, prevTerm, entries, commit) =>
          AppendEntriesSound(w, n, p.from, T, prev, prevTerm, entries, commit);
        case AppendEntriesResp(T, success, m, conflict) => AppendRespSound(w, n, p.from, T, success, m, conflict);
        case ReadProbe(T, _, seqno) => ReadProbeSound(w, n, p.from, T, seqno);
        case ReadProbeResp(T, seqno) => ReadProbeRespSound(w, n, p.from, T, seqno);
      }
    }
  }

  lemma ReactSound(w: World, a: Action)
    requires Inv(w) && Enabled(w, a)
    ensures Sound(w, w.nodes[Actor(a)], React(w.nodes[Actor(a)], a))
  {
    var n := w.nodes[Actor(a)];
    NodeAt(w, Actor(a));
    assert Of(w, n);
    hide Of, Inv, NodeOk, Sound;
    match a {
      case Deliver(p, ignore) => DeliverSound(w, n, p, ignore);
      case ElectionTimeout(_) => TimeoutSound(w, n);
      case PreVoteRound(_) => PreVoteRoundSound(w, n);
      case NewerTerm(_, term) => NewerTermSound(w, n, term);
      case Heartbeat(_) => HeartbeatSound(w, n);
      case Synced(_, k) => SyncedSound(w, n, k);
      case StorageFails(_, k) => FailureSound(w, n, k);
      case ClientCommand(_, cmd) => ProposeSound(w, n, cmd);
      case ClientRead(_, id) => RequestReadSound(w, n, id);
      case Crash(_, hs, kept) => CrashSound(w, n, hs, kept);
    }
  }

  /** Every step of every node, crashes and storage failures included, keeps the invariant. */
  lemma StepKeepsInv(w: World, a: Action)
    requires Inv(w) && Enabled(w, a)
    ensures Inv(Next(w, a)) && Extends(w.h, Next(w, a).h)
  {
    hide Inv, Sound, React;
    NodeAt(w, Actor(a));
    var n := w.nodes[Actor(a)];
    var r := React(n, a);
    ReactSound(w, a);
    SoundExtends(w, n, r);
    AssembleOk(w, n, r, Next(w, a));
  }

  lemma SoundExtends(w: World, n: Node, r: Reaction)
    requires Sound(w, n, r)
    ensures Extends(w.h, Record(w, n, r.node, r.sent))
  {
  }
}
