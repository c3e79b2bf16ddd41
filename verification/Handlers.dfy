/**
 What each event does to a node, in terms of logs, terms and majorities alone. `RaftSpec` says how an
 event is handled, branch by branch; here is what comes of it: which vote is given to whom, what a log
 holds after an append, how far a node commits and claims, which reads are confirmed and served, and
 what is sent.
*/
module Handlers {
  import opened Types
  import opened RaftSpec

  // ---- logs and majorities -----------------------------------------------------------

  /** The log has an entry of that term at index `i`; before every log stands index 0, of term 0. */
  predicate HoldsAt(log: seq<Entry>, i: nat, term: nat) {
    if i == 0 then term == 0 else i <= |log| && log[i - 1].term == term
  }

  /** The first `k` of `es`, laid behind index `prev`, are in the log. */
  ghost predicate Matching(log: seq<Entry>, prev: nat, es: seq<Entry>, k: nat) {
    k <= |es| && prev + k <= |log| && forall j :: 0 <= j < k ==> log[prev + j].term == es[j].term
  }

  /** They are, and the next one is not. */
  ghost predicate NewFrom(log: seq<Entry>, prev: nat, es: seq<Entry>, k: nat) {
    Matching(log, prev, es, k) && k < |es| && (prev + k < |log| ==> log[prev + k].term != es[k].term)
  }

  /** A candidate's log that ends at `lastIndex` with `lastTerm` is no worse than this one. */
  predicate NoWorse(log: seq<Entry>, lastIndex: nat, lastTerm: nat) {
    |log| == 0
    || lastTerm > log[|log| - 1].term
    || (lastTerm == log[|log| - 1].term && lastIndex >= |log|)
  }

  function Least(a: nat, b: nat): nat { if a <= b then a else b }
  function Greatest(a: nat, b: nat): nat { if a <= b then b else a }

  predicate Majority(s: set<NodeId>, members: set<NodeId>) { 2 * |s * members| > |members| }

  /** A packet leaves for a peer exactly when its term is durable at the sender. */
  ghost predicate Tells(n: Node, sent: set<Packet>, to: NodeId, msg: Message) {
    sent == if msg.term <= n.durableTerm then {Packet(n.id, to, msg)} else {}
  }

  ghost predicate TellsAll(n: Node, sent: set<Packet>, msg: Message) {
    forall p :: p in sent <==>
      msg.term <= n.durableTerm && p.from == n.id && p.to in n.members && p.to != n.id && p.msg == msg
  }

  /** The next append for a peer: the entries from its next index on, and what stands before them. */
  ghost predicate NextAppend(n: Node, to: NodeId, msg: Message) {
    && msg.AppendEntries? && msg.term == n.term && msg.leader == n.id && msg.leaderCommit == n.commitIndex
    && msg.prevIndex + 1 == (if to in n.nextIndex && n.nextIndex[to] > 0 then n.nextIndex[to] else 1)
    && msg.prevIndex <= |n.log| && HoldsAt(n.log, msg.prevIndex, msg.prevTerm)
    && |msg.entries| == Least(n.maxBatch, |n.log| - msg.prevIndex)
    && msg.entries == n.log[msg.prevIndex..msg.prevIndex + |msg.entries|]
  }

  ghost predicate SendsNext(n: Node, sent: set<Packet>, to: NodeId) {
    forall p :: p in sent <==> n.term <= n.durableTerm && p.from == n.id && p.to == to && NextAppend(n, to, p.msg)
  }

  lemma SendAppendSends(n: Node, to: NodeId)
    ensures SendsNext(n, SendAppend(n, to), to)
  {
    hide Slice, NextAppend, TermAt;
    forall msg ensures NextAppend(n, to, msg) <==> IsNextAppend(n, to, msg) { NextAppendIs(n, to, msg); }
    NextAppendSent(n, to);
  }

  /** Where the next append for a peer begins. */
  function NextFor(n: Node, to: NodeId): nat { Max(if to in n.nextIndex then n.nextIndex[to] else 1, 1) }

  ghost predicate IsNextAppend(n: Node, to: NodeId, msg: Message) {
    var next := NextFor(n, to);
    && TermAt(n.log, next - 1).Some?
    && msg == AppendEntries(n.term, n.id, next - 1, TermAt(n.log, next - 1).value, Slice(n.log, next, n.maxBatch),
                            n.commitIndex)
  }

  lemma NextAppendSent(n: Node, to: NodeId)
    ensures forall p ::
      p in SendAppend(n, to) <==>
        n.term <= n.durableTerm && p.from == n.id && p.to == to && IsNextAppend(n, to, p.msg)
  {
    hide Slice, TermAt;
  }

  lemma NextAppendIs(n: Node, to: NodeId, msg: Message)
    ensures NextAppend(n, to, msg) <==> IsNextAppend(n, to, msg)
  {
    var next := NextFor(n, to);
    if next <= |n.log| + 1 {
      var es := Slice(n.log, next, n.maxBatch);
      assert |es| == Least(n.maxBatch, |n.log| - (next - 1)) && es == n.log[next - 1..next - 1 + |es|];
    }
  }

  function Addressed(sent: set<Packet>, to: NodeId): set<Packet> { set p | p in sent && p.to == to }

  /** To every other member, what is next for it. */
  ghost predicate SendsAllNext(n: Node, sent: set<Packet>) {
    && (forall p :: p in sent ==> p.to in n.members && p.to != n.id)
    && forall to :: to in n.members && to != n.id ==> SendsNext(n, Addressed(sent, to), to)
  }

  lemma BroadcastSends(n: Node)
    ensures SendsAllNext(n, BroadcastAppend(n))
  {
    hide SendAppend, SendsNext;
    var sent := BroadcastAppend(n);
    forall p | p in sent ensures p.to in n.members && p.to != n.id { SentTo(n, p); }
    forall to | to in n.members && to != n.id ensures SendsNext(n, Addressed(sent, to), to) {
      SendAppendSends(n, to);
      forall p ensures p in sent && p.to == to <==> p in SendAppend(n, to) {
        if p in sent { SentTo(n, p); }
        if p in SendAppend(n, to) { AppendTo(n, to, p); }
      }
      assert Addressed(sent, to) == SendAppend(n, to);
    }
  }

  lemma AppendTo(n: Node, to: NodeId, p: Packet)
    requires p in SendAppend(n, to)
    ensures p.to == to
  {
  }

  lemma SentTo(n: Node, p: Packet)
    requires p in BroadcastAppend(n)
    ensures p.to in Peers(n) && p in SendAppend(n, p.to)
  {
    hide SendAppend;
    var to :| to in Peers(n) && p in SendAppend(n, to);
    AppendTo(n, to, p);
  }

  // ---- elections ---------------------------------------------------------------------------

  /** A request of an older term is refused, and one of a newer term that is not to be heard is dropped. */
  lemma VoteRefused(n: Node, from: NodeId, term: nat, cand: NodeId, lastIndex: nat, lastTerm: nat, ignore: bool)
    requires !n.failed && (term < n.term || (term > n.term && ignore))
    ensures var r := OnMessage(n, from, RequestVote(term, cand, lastIndex, lastTerm), ignore);
      && r.node == n
      && if term < n.term then Tells(n, r.sent, from, RequestVoteResp(n.term, false)) else r.sent == {}
  {
  }

  /**
   Whom the node votes for: the candidate, if the node's vote in that term is free or the candidate's
   already, and the candidate's log is no worse. It says so once the vote is durable, refuses otherwise,
   and is silent while a vote for the candidate, or the term itself, is on its way to disk.
  */
  lemma VoteAnswered(n: Node, from: NodeId, term: nat, cand: NodeId, lastIndex: nat, lastTerm: nat, ignore: bool)
    requires !n.failed && (term == n.term || (term > n.term && !ignore))
    ensures var r := OnMessage(n, from, RequestVote(term, cand, lastIndex, lastTerm), ignore);
      var voted := if term > n.term then None else n.votedFor;
      var granted := (voted == None || voted == Some(cand)) && NoWorse(n.log, lastIndex, lastTerm);
      var m := r.node;
      && m.term == term && m.votedFor == (if granted then Some(cand) else voted)
      && m.log == n.log && m.commitIndex == n.commitIndex
      && (term > n.term ==> m.role == Follower) && (term == n.term ==> m.role == n.role)
      && (if term > n.term || m.votedFor != n.votedFor then
            r.sent == {} && m.stateSeq == n.stateSeq + 1
            && m.batches ==
               n.batches + [Batch(VoteReply(from, term, granted), Some(HardState(term, m.votedFor, n.stateSeq)))]
          else
            m == n
            && if granted && !(n.durableHard.term == term && n.durableHard.votedFor == Some(cand)) then r.sent == {}
               else Tells(n, r.sent, from, RequestVoteResp(term, granted)))
  {
  }

  /** A candidate leads as soon as a majority of the members voted for it, and not before. */
  lemma VoteCounted(n: Node, from: NodeId, term: nat, granted: bool, ignore: bool)
    requires !n.failed
    ensures var r := OnMessage(n, from, RequestVoteResp(term, granted), ignore);
      if term > n.term then StepsDown(n, r, term)
      else if n.role == Candidate && term == n.term && granted then
        if Majority(n.votes + {from}, n.members) then Leads(n.(votes := n.votes + {from}), r.node, r.sent)
        else r == Reaction(n.(votes := n.votes + {from}), {})
      else r == Reaction(n, {})
  {
    hide BecomeLeader;
    var m := n.(votes := n.votes + {from});
    MajorityIs(m.votes, m.members);
    BecomesLeader(m);
  }

  lemma MajorityIs(s: set<NodeId>, members: set<NodeId>)
    ensures Majority(s, members) <==> |s * members| >= Quorum(members)
  {
  }

  /** The node follows in the newer term, with its vote free, and writes that down. */
  ghost predicate StepsDown(n: Node, r: Reaction, term: nat) {
    r == Reaction(
      n.(term := term, votedFor := None, role := Follower, votes := {}, stateSeq := n.stateSeq + 1,
         batches := n.batches + [Batch(Quiet, Some(HardState(term, None, n.stateSeq)))]),
      {})
  }

  /** A new leader opens its term with an entry, takes every peer's log to end where its own did, and sends it on. */
  ghost predicate Leads(n: Node, m: Node, sent: set<Packet>) {
    && m == n.(role := Leader, nextIndex := m.nextIndex, matchIndex := m.matchIndex, probeAcked := map[],
               log := n.log + [Entry(n.term, |n.log| + 1, NOOP_COMMAND)],
               batches := n.batches + [Batch(LogDurable(|n.log| + 1, |n.log| + 1, UNBOUNDED, None, 0), None)])
    && m.nextIndex.Keys == m.matchIndex.Keys == n.members - {n.id}
    && (forall p :: p in n.members && p != n.id ==> m.nextIndex[p] == |n.log| + 1 && m.matchIndex[p] == 0)
    && SendsAllNext(m, sent)
  }

  lemma BecomesLeader(n: Node)
    ensures Leads(n, BecomeLeader(n).node, BecomeLeader(n).sent)
  {
    hide BroadcastAppend, SendsAllNext;
    BroadcastSends(BecomeLeader(n).node);
  }

  /** A node stands for the next term with its own vote, which it writes down before it asks for others. */
  lemma TimesOut(n: Node)
    ensures var r := OnElectionTimeout(n);
      if n.failed || n.role == Leader || n.id !in n.members then r == Reaction(n, {})
      else r == Reaction(
        n.(term := n.term + 1, votedFor := Some(n.id), role := Candidate, votes := {n.id}, stateSeq := n.stateSeq + 1,
           batches := n.batches + [Batch(Campaign(n.term + 1), Some(HardState(n.term + 1, Some(n.id), n.stateSeq)))]),
        {})
  {
  }

  /** A round of pre-votes makes a candidate give up; whatever else names a newer term is heeded. */
  lemma OthersHeard(n: Node, term: nat)
    ensures OnPreVoteRound(n).sent == {}
    ensures OnPreVoteRound(n).node ==
      if n.failed || n.role == Leader || n.id !in n.members then n else n.(role := Follower, votes := {})
    ensures if n.failed || term <= n.term then OnNewerTerm(n, term) == Reaction(n, {})
            else StepsDown(n, OnNewerTerm(n, term), term)
  {
  }

  /** A node whose storage failed takes no action that waited for it, and does nothing any more. */
  lemma FailureStops(n: Node, k: nat, from: NodeId, msg: Message, ignore: bool)
    requires k < |n.batches|
    ensures var m := OnStorageFailure(n, k);
      && m == n.(failed := true, batches := m.batches) && |m.batches| == |n.batches|
      && m.batches[k] == Batch(Quiet, n.batches[k].hard)
      && (forall j :: 0 <= j < |n.batches| && j != k ==> m.batches[j] == n.batches[j])
      && OnMessage(m, from, msg, ignore) == Reaction(m, {})
  {
  }

  /**
   A node that restarts follows, with the term and vote it recovered, claims all of the log it recovered and
   has committed none of it, and numbers its next hard state above the one it recovered.
  */
  lemma Restarts(id: NodeId, members: set<NodeId>, maxBatch: nat, hs: HardState, log: seq<Entry>)
    ensures var m := Recovered(id, members, maxBatch, hs, log);
      && m.id == id && m.members == members && m.maxBatch == maxBatch && m.role == Follower && !m.failed
      && m.term == m.durableTerm == hs.term && m.votedFor == hs.votedFor && m.durableHard == hs
      && m.log == log && m.durableIndex == |log| && m.commitIndex == 0 == m.lastApplied
      && m.batches == [] && m.parked == [] && m.pendingReads == [] && m.readSeq == 0
      && StepDownAndPersist(m, hs.term + 1).batches == [Batch(Quiet, Some(HardState(hs.term + 1, None, hs.seqno + 1)))]
  {
  }

  // ---- appends ---------------------------------------------------------------------------------

  /** An append of an older term, or behind an entry the node lacks, changes no log and commits nothing. */
  lemma AppendRefused(n: Node, from: NodeId, term: nat, ld: NodeId, prev: nat, prevTerm: nat, es: seq<Entry>,
                      commit: nat, ignore: bool)
    requires !n.failed && (term < n.term || !HoldsAt(n.log, prev, prevTerm))
    ensures var r := OnMessage(n, from, AppendEntries(term, ld, prev, prevTerm, es, commit), ignore);
      var m := r.node;
      if term < n.term then m == n && Tells(n, r.sent, from, AppendEntriesResp(n.term, false, 0, 0))
      else
        && m.term == term && m.role == Follower && m.votedFor == (if term > n.term then None else n.votedFor)
        && m.log == n.log && m.commitIndex == n.commitIndex
        && m.durableIndex == n.durableIndex && m.parked == n.parked
        && exists hint: nat :: PointsBack(n.log, prev, hint)
             && var reply := AppendEntriesResp(term, false, n.durableIndex, hint);
               if term > n.term then
                 r.sent == {}
                 && m.batches == n.batches + [Batch(Reply(from, reply), Some(HardState(term, None, n.stateSeq)))]
               else m.batches == n.batches && Tells(n, r.sent, from, reply)
  {
    if term >= n.term {
      HintPoints(n.log, prev);
      var hint := ConflictHint(n.log, prev);
      assert PointsBack(n.log, prev, hint);
    }
  }

  /** One past a log that is too short; otherwise where the run of the entry at `prev` begins. */
  ghost predicate PointsBack(log: seq<Entry>, prev: nat, hint: nat) {
    if |log| < prev then hint == |log| + 1
    else
      && hint <= prev && (prev > 0 ==> hint > 0)
      && (forall i {:trigger log[i]} :: hint <= i + 1 <= prev && i >= 0 ==> log[i].term == log[prev - 1].term)
      && (hint > 1 ==> log[hint - 2].term != log[hint - 1].term)
  }

  lemma HintPoints(log: seq<Entry>, prev: nat)
    ensures PointsBack(log, prev, ConflictHint(log, prev))
  {
    if prev <= |log| { RunIs(log, prev); }
  }

  lemma {:induction false} RunIs(log: seq<Entry>, i: nat)
    requires i <= |log|
    ensures PointsBack(log, i, RunStart(log, i))
  {
    if i > 1 && log[i - 2].term == log[i - 1].term { RunIs(log, i - 1); }
  }

  /** The node that takes an append: a follower of its term. */
  function Following(n: Node, term: nat): Node {
    n.(term := term, role := Follower, votedFor := if term > n.term then None else n.votedFor,
       votes := if term > n.term || n.role != Follower then {} else n.votes)
  }

  lemma AppendIs(n: Node, from: NodeId, term: nat, ld: NodeId, prev: nat, prevTerm: nat, es: seq<Entry>,
                 commit: nat, ignore: bool)
    requires !n.failed && term >= n.term && HoldsAt(n.log, prev, prevTerm)
    ensures var a := Accept(Following(n, term), from, prev, es, term > n.term);
      OnMessage(n, from, AppendEntries(term, ld, prev, prevTerm, es, commit), ignore)
        == Reaction(FollowCommit(a.node, commit, prev + |es|), a.sent)
  {
    hide Accept, FollowCommit;
    assert Concede(if term > n.term then StepDown(n, term) else n) == Following(n, term);
  }

  /**
   How far an append commits: every index up to the leader's commit index and up to the last entry of the
   append, all of which the node now holds, and nothing else that was not committed.
  */
  lemma AppendCommits(n: Node, from: NodeId, term: nat, ld: NodeId, prev: nat, prevTerm: nat, es: seq<Entry>,
                      commit: nat, ignore: bool)
    requires !n.failed && term >= n.term && HoldsAt(n.log, prev, prevTerm)
    ensures var m := OnMessage(n, from, AppendEntries(term, ld, prev, prevTerm, es, commit), ignore).node;
      && m.term == term && m.role == Follower && m.votedFor == (if term > n.term then None else n.votedFor)
      && Matching(m.log, prev, es, |es|)
      && m.commitIndex == Greatest(n.commitIndex, Least(commit, prev + |es|))
  {
    hide OnMessage, Accept;
    AppendIs(n, from, term, ld, prev, prevTerm, es, commit, ignore);
    AcceptedLog(Following(n, term), from, prev, es, term > n.term);
  }

  /** The log after an append that matches at `prev`. */
  lemma AcceptedLog(n: Node, from: NodeId, prev: nat, es: seq<Entry>, dirty: bool)
    requires prev <= |n.log|
    ensures var m := Accept(n, from, prev, es, dirty).node;
      m.term == n.term && m.role == n.role && m.votedFor == n.votedFor && m.commitIndex == n.commitIndex
      && Matching(m.log, prev, es, |es|)
  {
    hide ClampAll, ClampRanges, Adopt, FirstNew;
    var k := FirstNew(n.log, prev, es);
    FirstNewIs(n.log, prev, es);
    if k < |es| { AdoptedLog(n, prev, es, k); }
  }

  lemma FirstNewIs(log: seq<Entry>, prev: nat, es: seq<Entry>)
    requires prev <= |log|
    ensures var k := FirstNew(log, prev, es); k <= |es| && prev + k <= |log| && Matching(log, prev, es, k)
    ensures FirstNew(log, prev, es) < |es| ==> NewFrom(log, prev, es, FirstNew(log, prev, es))
  {
  }

  lemma AdoptedLog(n: Node, prev: nat, es: seq<Entry>, k: nat)
    requires k < |es| && Matching(n.log, prev, es, k)
    ensures var m := Adopt(n, prev, es, k);
      && m == n.(log := m.log, durableIndex := m.durableIndex, parked := m.parked, batches := m.batches)
      && m.log == n.log[..prev + k] + es[k..] && |m.log| == prev + |es| && Matching(m.log, prev, es, |es|)
  {
    hide ClampAll, ClampRanges;
    assert n.log[..|n.log|] == n.log;
  }

  /** An append that holds nothing new leaves the log and the claim alone, and is acknowledged. */
  lemma AppendKnown(n: Node, from: NodeId, term: nat, ld: NodeId, prev: nat, prevTerm: nat, es: seq<Entry>,
                    commit: nat, ignore: bool)
    requires !n.failed && term >= n.term && HoldsAt(n.log, prev, prevTerm) && Matching(n.log, prev, es, |es|)
    ensures var r := OnMessage(n, from, AppendEntries(term, ld, prev, prevTerm, es, commit), ignore);
      var m := r.node;
      && m.log == n.log && m.durableIndex == n.durableIndex && m.parked == n.parked
      && if term > n.term then
           r.sent == {} && m.stateSeq == n.stateSeq + 1
           && var claim := LogDurable(n.durableIndex + 1, n.durableIndex, prev + |es|, Some(from), term);
             m.batches == n.batches + [Batch(claim, Some(HardState(term, None, n.stateSeq)))]
         else
           m.batches == n.batches && m.stateSeq == n.stateSeq
           && Tells(n, r.sent, from, AppendEntriesResp(term, true, Least(n.durableIndex, prev + |es|), 0))
  {
    hide OnMessage, FirstNew;
    AppendIs(n, from, term, ld, prev, prevTerm, es, commit, ignore);
    FirstNewIs(n.log, prev, es);
  }

  /**
   An append with something new: the log is cut at the first entry it contradicts or lacks, with every
   claim that reached past it, and the rest is taken over and on its way to disk.
  */
  lemma AppendTakes(n: Node, from: NodeId, term: nat, ld: NodeId, prev: nat, prevTerm: nat, es: seq<Entry>,
                    commit: nat, ignore: bool, k: nat)
    requires !n.failed && term >= n.term && HoldsAt(n.log, prev, prevTerm) && NewFrom(n.log, prev, es, k)
    ensures var r := OnMessage(n, from, AppendEntries(term, ld, prev, prevTerm, es, commit), ignore);
      var m := r.node;
      var claim := LogDurable(prev + k + 1, prev + |es|, prev + |es|, Some(from), term);
      && r.sent == {} && m.log == n.log[..prev + k] + es[k..]
      && |m.batches| == |n.batches| + 1
      && m.batches[|n.batches|] ==
         Batch(claim, if term > n.term then Some(HardState(term, None, n.stateSeq)) else None)
      && if prev + k == |n.log| then
           m.durableIndex == n.durableIndex && m.parked == n.parked && m.batches[..|n.batches|] == n.batches
         else ClaimsCut(n, m, prev + k)
  {
    hide OnMessage, Accept, ClaimsCut, BatchCut;
    AppendIs(n, from, term, ld, prev, prevTerm, es, commit, ignore);
    FirstIs(n.log, prev, es, k);
    var d := Following(n, term);
    AcceptTakes(d, from, prev, es, term > n.term, k);
    if prev + k < |n.log| {
      CutSame(d, Accept(d, from, prev, es, term > n.term).node, n,
              FollowCommit(Accept(d, from, prev, es, term > n.term).node, commit, prev + |es|), prev + k);
    }
  }

  lemma CutSame(a: Node, b: Node, n: Node, m: Node, cap: nat)
    requires ClaimsCut(a, b, cap) && n.durableIndex == a.durableIndex && m.durableIndex == b.durableIndex
    requires n.parked == a.parked && m.parked == b.parked && n.batches == a.batches && m.batches == b.batches
    ensures ClaimsCut(n, m, cap)
  {
    hide BatchCut;
  }

  lemma AcceptTakes(n: Node, from: NodeId, prev: nat, es: seq<Entry>, dirty: bool, k: nat)
    requires prev <= |n.log| && NewFrom(n.log, prev, es, k) && FirstNew(n.log, prev, es) == k
    ensures var r := Accept(n, from, prev, es, dirty);
      var m := r.node;
      var claim := LogDurable(prev + k + 1, prev + |es|, prev + |es|, Some(from), n.term);
      && r.sent == {} && m.log == n.log[..prev + k] + es[k..] && |m.batches| == |n.batches| + 1
      && m.batches[|n.batches|] == Batch(claim, if dirty then Some(HardState(n.term, n.votedFor, n.stateSeq)) else None)
      && if prev + k == |n.log| then
           m.durableIndex == n.durableIndex && m.parked == n.parked && m.batches[..|n.batches|] == n.batches
         else ClaimsCut(n, m, prev + k)
  {
    hide Adopt, FirstNew, ClaimsCut;
    AdoptedLog(n, prev, es, k);
    AdoptedClaims(n, prev, es, k);
    if prev + k < |n.log| {
      var a := Adopt(n, prev, es, k);
      CutMore(n, a, Accept(n, from, prev, es, dirty).node, prev + k);
    }
  }

  lemma AdoptedClaims(n: Node, prev: nat, es: seq<Entry>, k: nat)
    requires k < |es| && prev + k <= |n.log|
    ensures var m := Adopt(n, prev, es, k);
      && |m.batches| == |n.batches|
      && if prev + k == |n.log| then m.durableIndex == n.durableIndex && m.parked == n.parked && m.batches == n.batches
         else ClaimsCut(n, m, prev + k)
  {
    hide ClampRanges, ClampAll, Landed, BatchCut;
    ClampedLanded(n.parked, prev + k);
    ClampedBatches(n.batches, prev + k);
  }

  lemma CutMore(n: Node, a: Node, m: Node, cap: nat)
    requires ClaimsCut(n, a, cap) && m.durableIndex == a.durableIndex && m.parked == a.parked
    requires |a.batches| == |n.batches| && a.batches <= m.batches
    ensures ClaimsCut(n, m, cap)
  {
    hide BatchCut, Landed;
  }

  lemma FirstIs(log: seq<Entry>, prev: nat, es: seq<Entry>, k: nat)
    requires NewFrom(log, prev, es, k)
    ensures FirstNew(log, prev, es) == k
  {
  }

  /** The entry at index `i` reached the disk in a range that could not be claimed yet. */
  ghost predicate Landed(parked: seq<(nat, nat)>, i: nat) {
    exists r :: r in parked && r.0 <= i <= r.1
  }

  /** Nothing is claimed, or will be, past `cap`; what reaches up to it is claimed as before. */
  ghost predicate ClaimsCut(n: Node, m: Node, cap: nat) {
    && m.durableIndex == Least(n.durableIndex, cap)
    && (forall i: nat :: Landed(m.parked, i) <==> Landed(n.parked, i) && i <= cap)
    && |n.batches| <= |m.batches|
    && forall b {:trigger m.batches[b]} :: 0 <= b < |n.batches| ==> BatchCut(n.batches[b], m.batches[b], cap)
  }

  ghost predicate BatchCut(b: Batch, c: Batch, cap: nat) {
    && c.hard == b.hard && c.action.LogDurable? == b.action.LogDurable?
    && if b.action.LogDurable? then
         c.action == b.action.(index := Least(b.action.index, cap))
       else c.action == b.action
  }

  lemma ClampedBatches(bs: seq<Batch>, cap: nat)
    ensures var cs := ClampAll(bs, cap);
      |cs| == |bs| && forall b {:trigger cs[b]} :: 0 <= b < |bs| ==> BatchCut(bs[b], cs[b], cap)
  {
  }

  lemma {:induction false} ClampedLanded(parked: seq<(nat, nat)>, cap: nat)
    ensures forall i: nat :: Landed(ClampRanges(parked, cap), i) <==> Landed(parked, i) && i <= cap
  {
    if |parked| > 0 {
      ClampedLanded(parked[1..], cap);
      var r, rest := parked[0], ClampRanges(parked[1..], cap);
      forall i: nat ensures Landed(ClampRanges(parked, cap), i) <==> Landed(parked, i) && i <= cap {
        LandedFirst(parked, i);
        if r.0 <= cap {
          assert ClampRanges(parked, cap)[1..] == rest;
          LandedFirst(ClampRanges(parked, cap), i);
        }
      }
    } else {
      assert forall i: nat :: !Landed(parked, i);
    }
  }

  lemma LandedFirst(parked: seq<(nat, nat)>, i: nat)
    requires |parked| > 0
    ensures Landed(parked, i) <==> parked[0].0 <= i <= parked[0].1 || Landed(parked[1..], i)
  {
    assert parked == [parked[0]] + parked[1..];
    forall r ensures r in parked <==> r == parked[0] || r in parked[1..] {}
  }
}
