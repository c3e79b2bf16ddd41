/**
 What the protocol is for. In one round without loss, a node that stands is elected if those whose logs
 are no better, and who have not heard of its term, are a majority with it; and a command that a leader
 takes is committed by the leader and applied by every follower that was in step with it, if they and the
 leader are a majority.
*/
module Progress {
  import opened Types
  import opened RaftSpec
  import opened Handlers
  import opened Completions

  /** A leader all of whose log is durable, and who takes no peer to hold more than that. */
  ghost predicate Reigns(l: Node) {
    && l.role == Leader && !l.failed && l.term <= l.durableTerm && l.durableIndex == |l.log| && l.maxBatch > 0
    && (forall i :: 0 <= i < |l.log| ==> l.log[i].term <= l.term)
    && (forall p :: p in l.matchIndex ==> l.matchIndex[p] <= |l.log|)
    && l.id in l.members
  }

  /** A follower of the leader's term whose log is the leader's and durable, and whom the leader takes for that. */
  ghost predicate InStep(l: Node, f: Node) {
    && f.role == Follower && !f.failed && f.term == l.term <= f.durableTerm
    && f.log == l.log && f.durableIndex == |f.log|
    && f.commitIndex <= |f.log| && f.lastApplied <= |f.log|
    && f.id in l.members && f.id != l.id && f.id in l.nextIndex && l.nextIndex[f.id] == |l.log| + 1
  }

  // ---- the append ------------------------------------------------------------------------

  /** An append of one new entry that a node takes, once on disk, is claimed and acknowledged. */
  lemma TakenIsAcknowledged(f: Node, from: NodeId, ld: NodeId, prevTerm: nat, e: Entry, commit: nat) returns (g: Node)
    requires !f.failed && f.term <= f.durableTerm && f.durableIndex == |f.log| && e.term <= f.term
    requires HoldsAt(f.log, |f.log|, prevTerm) && forall i :: 0 <= i < |f.log| ==> f.log[i].term <= f.term
    ensures var took := OnMessage(f, from, AppendEntries(f.term, ld, |f.log|, prevTerm, [e], commit), false).node;
      && |took.batches| > 0
      && var done := OnSynced(took, |took.batches| - 1);
        done.node == g && done.sent == {Packet(f.id, from, AppendEntriesResp(f.term, true, |f.log| + 1, 0))}
    ensures g.log == f.log + [e] && g.durableIndex == |g.log| && g.role == Follower && !g.failed && g.id == f.id
    ensures g.term == f.term <= g.durableTerm && g.lastApplied == f.lastApplied
  {
    hide OnMessage, OnSynced, OnDurable, NoteHard, ClaimGrows, ClaimsCut;
    var r := OnMessage(f, from, AppendEntries(f.term, ld, |f.log|, prevTerm, [e], commit), false);
    AppendTakes(f, from, f.term, ld, |f.log|, prevTerm, [e], commit, false, 0);
    assert f.log[..|f.log|] + [e][0..] == f.log + [e];
    AppendFrame(f, from, f.term, ld, |f.log|, prevTerm, [e], commit);
    var took := r.node;
    var k := |took.batches| - 1;
    BatchLanded(took, k);
    var rest := took.(batches := took.batches[..k] + took.batches[k + 1..]);
    EntriesLanded(rest, |f.log| + 1, |f.log| + 1, |f.log| + 1, Some(from), f.term);
    var c: Node :| ClaimGrows(rest.(parked := rest.parked + [(|f.log| + 1, |f.log| + 1)]), c)
                   && OnDurable(rest, took.batches[k].action).node == c
                   && Tells(rest, OnDurable(rest, took.batches[k].action).sent, from,
                            AppendEntriesResp(f.term, true, Least(c.durableIndex, |f.log| + 1), 0));
    g := c;
    ClaimsNext(rest.(parked := rest.parked + [(|f.log| + 1, |f.log| + 1)]), c);
  }

  /** What an append of the node's own term leaves alone. */
  lemma AppendFrame(f: Node, from: NodeId, term: nat, ld: NodeId, prev: nat, prevTerm: nat, es: seq<Entry>, commit: nat)
    requires !f.failed && term == f.term && HoldsAt(f.log, prev, prevTerm)
    ensures var m := OnMessage(f, from, AppendEntries(term, ld, prev, prevTerm, es, commit), false).node;
      && m.id == f.id && !m.failed && m.term == f.term && m.role == Follower && m.durableTerm == f.durableTerm
      && m.lastApplied == f.lastApplied
  {
    hide OnMessage, FirstNew, Adopt;
    AppendIs(f, from, term, ld, prev, prevTerm, es, commit, false);
    FirstNewIs(f.log, prev, es);
    if FirstNew(f.log, prev, es) < |es| { AdoptedLog(Following(f, term), prev, es, FirstNew(f.log, prev, es)); }
  }

  /** A claim of all but the last entry, which landed, becomes a claim of all. */
  lemma ClaimsNext(n: Node, m: Node)
    requires ClaimGrows(n, m) && n.durableIndex + 1 == |n.log| && (|n.log|, |n.log|) in n.parked
    requires n.term <= n.durableTerm && forall i :: 0 <= i < |n.log| ==> n.log[i].term <= n.term
    ensures m == n.(durableIndex := |n.log|, parked := m.parked)
  {
    ClaimInside(n, m);
    assert Landed(n.parked, |n.log|);
    assert TermsKnown(n.log, |n.log|, n.durableTerm);
  }

  lemma ClaimInside(n: Node, m: Node)
    requires ClaimGrows(n, m)
    ensures m.durableIndex <= Greatest(n.durableIndex, |n.log|)
  {
    if m.durableIndex > n.durableIndex { assert TermsKnown(n.log, m.durableIndex, n.durableTerm); }
  }

  // ---- the leader ----------------------------------------------------------------------------

  /** The leader took a command, and its own write of it is durable. */
  lemma OwnEntryLands(l: Node, cmd: Command) returns (d: Node)
    requires Reigns(l)
    ensures var took := Propose(l, cmd).node;
      && |took.batches| > 0 && d == OnSynced(took, |took.batches| - 1).node
      && took.log == l.log + [Entry(l.term, |l.log| + 1, cmd)]
    ensures Reigns(d) && d.log == l.log + [Entry(l.term, |l.log| + 1, cmd)]
    ensures d == l.(log := d.log, durableIndex := |d.log|, parked := d.parked, commitIndex := d.commitIndex)
    ensures Majority({l.id}, l.members) ==> d.commitIndex >= |d.log|
  {
    hide Propose, OnSynced, OnDurable, NoteHard, ClaimGrows, Commits, SendsAllNext;
    CommandTaken(l, cmd);
    var took := Propose(l, cmd).node;
    var k := |took.batches| - 1;
    BatchLanded(took, k);
    var rest := took.(batches := took.batches[..k] + took.batches[k + 1..]);
    assert rest.batches == l.batches;
    EntriesLanded(rest, |l.log| + 1, |l.log| + 1, UNBOUNDED, None, 0);
    d := OnDurable(rest, took.batches[k].action).node;
    var grown := rest.(parked := rest.parked + [(|l.log| + 1, |l.log| + 1)]);
    var c: Node :| ClaimGrows(grown, c) && Commits(c, d);
    ClaimsNext(grown, c);
    CommitsFrame(c, d);
    if Majority({l.id}, l.members) {
      HeldHas(c, {l.id}, |c.log|);
      EndsAtLog(c);
    }
  }

  lemma CommitsFrame(n: Node, m: Node)
    requires Commits(n, m)
    ensures m == n.(commitIndex := m.commitIndex)
    ensures forall k :: MayCommit(n, k) ==> m.commitIndex >= k
  {
  }

  lemma HeldHas(n: Node, s: set<NodeId>, k: nat)
    requires Majority(s, n.members)
    requires forall p :: p in s && p in n.members ==> p in HeldBy(n, k)
    ensures Majority(HeldBy(n, k), n.members)
  {
    var a, b := s * n.members, HeldBy(n, k) * n.members;
    assert b == a + (b - a);
  }

  /** Nobody holds more than the log, so an entry of its term that ends the log may be committed by a majority. */
  lemma EndsAtLog(n: Node)
    requires |n.log| > 0 && n.log[|n.log| - 1].term == n.term && n.durableIndex <= |n.log|
    requires forall p :: p in n.matchIndex ==> n.matchIndex[p] <= |n.log|
    requires Majority(HeldBy(n, |n.log|), n.members)
    ensures MayCommit(n, |n.log|)
  {
    assert HeldBy(n, |n.log| + 1) == {};
  }

  // ---- the acknowledgements ------------------------------------------------------------------

  /** The leader after each of `ps` acknowledged its whole log. */
  ghost function AfterAcks(l: Node, ps: seq<NodeId>): Node {
    if |ps| == 0 then l
    else OnMessage(AfterAcks(l, ps[..|ps| - 1]), ps[|ps| - 1], AppendEntriesResp(l.term, true, |l.log|, 0), false).node
  }

  lemma {:induction false} AcksCounted(l: Node, ps: seq<NodeId>)
    requires Reigns(l)
    ensures var m := AfterAcks(l, ps);
      && m == l.(matchIndex := m.matchIndex, nextIndex := m.nextIndex, commitIndex := m.commitIndex) && Reigns(m)
      && (forall p :: p in ps ==> p in m.matchIndex && m.matchIndex[p] == |l.log|
                                  && p in m.nextIndex && m.nextIndex[p] == |l.log| + 1)
      && (forall p :: p in m.matchIndex && p !in ps ==> p in l.matchIndex && m.matchIndex[p] == l.matchIndex[p])
  {
    hide OnMessage, Commits, SendsNext;
    if |ps| > 0 {
      var init, p := ps[..|ps| - 1], ps[|ps| - 1];
      AcksCounted(l, init);
      var b := AfterAcks(l, init);
      AckCounted(b, p, l.term, |l.log|, 0, false);
      var c := b.(matchIndex := b.matchIndex[p := |l.log|], nextIndex := b.nextIndex[p := |l.log| + 1]);
      CommitsFrame(c, AfterAcks(l, ps));
      assert forall x :: x in ps <==> x in init || x == p;
    }
  }

  /** Once a majority, the leader included, holds its whole log, the leader has committed it. */
  lemma AcksCommit(l: Node, ps: seq<NodeId>)
    requires Reigns(l) && |ps| > 0 && |l.log| > 0 && l.log[|l.log| - 1].term == l.term
    requires Majority((set p | p in ps) + {l.id}, l.members)
    ensures AfterAcks(l, ps).commitIndex >= |l.log|
  {
    hide OnMessage, Commits, SendsNext, Majority;
    var init, p := ps[..|ps| - 1], ps[|ps| - 1];
    AcksCounted(l, init);
    AcksCounted(l, ps);
    var b := AfterAcks(l, init);
    AckCounted(b, p, l.term, |l.log|, 0, false);
    var c := b.(matchIndex := b.matchIndex[p := |l.log|], nextIndex := b.nextIndex[p := |l.log| + 1]);
    CommitsFrame(c, AfterAcks(l, ps));
    assert forall x :: x in ps <==> x in init || x == p;
    HeldHas(c, (set q | q in ps) + {l.id}, |c.log|);
    EndsAtLog(c);
  }

  // ---- the round ---------------------------------------------------------------------------------

  /** A follower told of the commit applies the command. */
  lemma AppliesAll(l: Node, g: Node, msg: Message)
    requires Reigns(l) && l.commitIndex >= |l.log| && NextAppend(l, g.id, msg)
    requires g.id in l.nextIndex && l.nextIndex[g.id] == |l.log| + 1
    requires g.log == l.log && !g.failed && g.term == l.term && g.lastApplied <= |g.log|
    ensures Drain(OnMessage(g, l.id, msg, false).node).lastApplied == |l.log|
  {
    hide OnMessage, Drain;
    var m := OnMessage(g, l.id, msg, false).node;
    assert msg.prevIndex == |l.log| && msg.entries == [];
    AppendCommits(g, l.id, l.term, msg.leader, msg.prevIndex, msg.prevTerm, [], msg.leaderCommit, false);
    AppendKnown(g, l.id, l.term, msg.leader, msg.prevIndex, msg.prevTerm, [], msg.leaderCommit, false);
    AppendFrame(g, l.id, l.term, msg.leader, msg.prevIndex, msg.prevTerm, [], msg.leaderCommit);
    Drained(m);
  }

  /** What is sent to a follower in step when the leader takes a command: that command's entry. */
  lemma CommandIsSent(l: Node, cmd: Command, f: Node) returns (p: Packet)
    requires Reigns(l) && InStep(l, f)
    ensures p in Propose(l, cmd).sent && p.to == f.id && p.from == l.id
    ensures p.msg.AppendEntries? && p.msg.term == l.term && p.msg.prevIndex == |l.log|
    ensures HoldsAt(l.log, |l.log|, p.msg.prevTerm) && p.msg.entries == [Entry(l.term, |l.log| + 1, cmd)]
  {
    hide Propose;
    CommandTaken(l, cmd);
    var r := Propose(l, cmd);
    p := NextIsSent(r.node, r.sent, f.id);
    assert |p.msg.entries| == 1;
    assert p.msg.entries == r.node.log[|l.log|..|l.log| + 1] == [r.node.log[|l.log|]];
  }

  /** Something is sent to every other member whose next index the leader's log reaches. */
  lemma NextIsSent(n: Node, sent: set<Packet>, to: NodeId) returns (p: Packet)
    requires SendsAllNext(n, sent) && to in n.members && to != n.id && n.term <= n.durableTerm
    requires to in n.nextIndex && 0 < n.nextIndex[to] <= |n.log| + 1
    ensures p in sent && p.to == to && p.from == n.id && NextAppend(n, to, p.msg)
  {
    hide NextAppend;
    var msg := NextAppendFor(n, to);
    p := Packet(n.id, to, msg);
    assert SendsNext(n, Addressed(sent, to), to);
    assert p in Addressed(sent, to);
  }

  lemma NextAppendFor(n: Node, to: NodeId) returns (msg: Message)
    requires to in n.nextIndex && 0 < n.nextIndex[to] <= |n.log| + 1
    ensures NextAppend(n, to, msg) && msg.term == n.term
  {
    var prev := n.nextIndex[to] - 1;
    msg := AppendEntries(n.term, n.id, prev, if prev == 0 then 0 else n.log[prev - 1].term,
                         n.log[prev..prev + Least(n.maxBatch, |n.log| - prev)], n.commitIndex);
  }

  function Ids(fs: seq<Node>): (ids: seq<NodeId>)
    ensures |ids| == |fs| && forall i :: 0 <= i < |ids| ==> ids[i] == fs[i].id
  {
    seq(|fs|, i requires 0 <= i < |fs| => fs[i].id)
  }

  /** A follower took the leader's packet `p`, wrote it down, and acknowledged it. */
  ghost predicate Acknowledges(l: Node, f: Node, p: Packet, g: Node) {
    var took := OnMessage(f, l.id, p.msg, false).node;
    && |took.batches| > 0
    && OnSynced(took, |took.batches| - 1)
       == Reaction(g, {Packet(f.id, l.id, AppendEntriesResp(l.term, true, |l.log| + 1, 0))})
  }

  /** The leader `d` is `l` after it took the command and wrote it down. */
  ghost predicate WroteDown(l: Node, cmd: Command, d: Node) {
    var took := Propose(l, cmd).node;
    |took.batches| > 0 && d == OnSynced(took, |took.batches| - 1).node
  }

  /** The leader's next heartbeat makes the follower apply the command. */
  ghost predicate HeartbeatApplies(m: Node, g: Node, index: nat) {
    exists p ::
      p in OnHeartbeat(m).sent && p.to == g.id && Drain(OnMessage(g, p.from, p.msg, false).node).lastApplied == index
  }

  /**
   One round without loss. A leader takes a command; followers in step with it take what it sends them,
   write it down and acknowledge it; the leader counts the acknowledgements. If they and the leader are a
   majority, the command is committed then, and the next heartbeat has every one of them apply it.
  */
  lemma OneRoundApplies(l: Node, cmd: Command, fs: seq<Node>) returns (d: Node, ps: seq<Packet>, gs: seq<Node>)
    requires Reigns(l) && forall f :: f in fs ==> InStep(l, f)
    requires Majority((set v | v in Ids(fs)) + {l.id}, l.members)
    ensures WroteDown(l, cmd, d) && d.log == l.log + [Entry(l.term, |l.log| + 1, cmd)]
    ensures |ps| == |gs| == |fs|
    ensures forall i :: 0 <= i < |fs| ==>
      ps[i] in Propose(l, cmd).sent && ps[i].to == fs[i].id && Acknowledges(l, fs[i], ps[i], gs[i])
    ensures AfterAcks(d, Ids(fs)).commitIndex >= |l.log| + 1
    ensures forall i :: 0 <= i < |fs| ==> HeartbeatApplies(AfterAcks(d, Ids(fs)), gs[i], |l.log| + 1)
  {
    hide OnMessage, OnSynced, Propose, Drain, OnHeartbeat, Majority, Reigns, InStep, Acknowledges, HeartbeatApplies;
    d := OwnEntryLands(l, cmd);
    var ids := Ids(fs);
    AcksCounted(d, ids);
    if |fs| == 0 {
      assert (set v | v in ids) + {l.id} == {l.id};
    } else {
      ReignsLast(d, l, cmd);
      AcksCommit(d, ids);
    }
    ps, gs := [], [];
    for i := 0 to |fs|
      invariant |ps| == |gs| == i
      invariant forall k :: 0 <= k < i ==>
        ps[k] in Propose(l, cmd).sent && ps[k].to == fs[k].id && Acknowledges(l, fs[k], ps[k], gs[k])
        && HeartbeatApplies(AfterAcks(d, ids), gs[k], |l.log| + 1)
    {
      assert fs[i] in fs && ids[i] in ids;
      var p, g := FollowerRound(l, cmd, fs[i], d, AfterAcks(d, ids));
      ps, gs := ps + [p], gs + [g];
    }
  }

  lemma ReignsLast(d: Node, l: Node, cmd: Command)
    requires d.log == l.log + [Entry(l.term, |l.log| + 1, cmd)] && d.term == l.term
    ensures |d.log| > 0 && d.log[|d.log| - 1].term == d.term
  {
  }

  /** One follower's part of the round. */
  lemma FollowerRound(l: Node, cmd: Command, f: Node, d: Node, m: Node) returns (p: Packet, g: Node)
    requires Reigns(l) && InStep(l, f) && d.log == l.log + [Entry(l.term, |l.log| + 1, cmd)] && Reigns(m)
    requires m.log == d.log && m.term == l.term && m.id == l.id && m.members == l.members && m.commitIndex >= |m.log|
    requires f.id in m.nextIndex && m.nextIndex[f.id] == |m.log| + 1
    ensures p in Propose(l, cmd).sent && p.to == f.id && Acknowledges(l, f, p, g)
    ensures HeartbeatApplies(m, g, |l.log| + 1)
  {
    hide OnMessage, OnSynced, Propose, Drain, OnHeartbeat;
    p := CommandIsSent(l, cmd, f);
    g := TakenIsAcknowledged(f, l.id, p.msg.leader, p.msg.prevTerm, Entry(l.term, |l.log| + 1, cmd),
                             p.msg.leaderCommit);
    HeartbeatSends(m);
    var q := NextIsSent(m, Appends(OnHeartbeat(m).sent), f.id);
    AppliesAll(m, g, q.msg);
  }

  // ---- an election ----------------------------------------------------------------------------------

  function EndTerm(log: seq<Entry>): nat { if |log| == 0 then 0 else log[|log| - 1].term }

  /** The request of a candidate whose own vote is durable. */
  function Request(c: Node): Message { RequestVote(c.term, c.id, |c.log|, EndTerm(c.log)) }

  /** The node has not heard of the candidate's term, and its log is no better. */
  ghost predicate WouldVote(c: Node, v: Node) {
    && !v.failed && v.term < c.term && v.id in c.members && v.id != c.id && NoWorse(v.log, |c.log|, EndTerm(c.log))
  }

  /** The voter wrote its vote down, and gave it. */
  ghost predicate GivesVote(c: Node, v: Node) {
    var took := OnMessage(v, c.id, Request(c), false).node;
    && |took.batches| > 0
    && OnSynced(took, |took.batches| - 1).sent == {Packet(v.id, c.id, RequestVoteResp(c.term, true))}
  }

  lemma VoterRound(c: Node, v: Node)
    requires WouldVote(c, v)
    ensures GivesVote(c, v)
  {
    hide OnMessage, OnSynced, OnDurable, NoteHard, ClaimGrows, NoWorse;
    VoteAnswered(v, c.id, c.term, c.id, |c.log|, EndTerm(c.log), false);
    var took := OnMessage(v, c.id, Request(c), false).node;
    var k := |took.batches| - 1;
    BatchLanded(took, k);
    var rest := took.(batches := took.batches[..k] + took.batches[k + 1..]);
    VoteFrame(v, c.id, c.term, |c.log|, EndTerm(c.log));
    HardLanded(rest, took.batches[k].hard.value);
    var m := NoteHard(rest, took.batches[k].hard);
    AnswerLanded(m, c.id, c.term, true, Request(c));
  }

  lemma VoteFrame(v: Node, cand: NodeId, term: nat, lastIndex: nat, lastTerm: nat)
    requires !v.failed
    ensures OnMessage(v, cand, RequestVote(term, cand, lastIndex, lastTerm), false).node.id == v.id
  {
  }

  /** The candidate after each of `vs` granted it a vote. */
  ghost function AfterVotes(c: Node, vs: seq<NodeId>): Node {
    if |vs| == 0 then c
    else OnMessage(AfterVotes(c, vs[..|vs| - 1]), vs[|vs| - 1], RequestVoteResp(c.term, true), false).node
  }

  lemma {:induction false} VotesCounted(c: Node, vs: seq<NodeId>)
    requires c.role != Follower && !c.failed
    ensures var m := AfterVotes(c, vs);
      && m.term == c.term && m.id == c.id && !m.failed
      && (m.role == Leader || (m == c.(votes := c.votes + set v | v in vs)
                               && (|vs| > 0 ==> !Majority(c.votes + (set v | v in vs), c.members))))
  {
    hide OnMessage, Leads, Majority;
    if |vs| > 0 {
      var init, v := vs[..|vs| - 1], vs[|vs| - 1];
      VotesCounted(c, init);
      var b := AfterVotes(c, init);
      VoteCounted(b, v, c.term, true, false);
      assert (set x | x in vs) == (set x | x in init) + {v};
      assert c.votes + (set x | x in vs) == c.votes + (set x | x in init) + {v};
      if b.role == Candidate && Majority(b.votes + {v}, b.members) {
        LeadsFrame(b.(votes := b.votes + {v}), AfterVotes(c, vs),
                   OnMessage(b, v, RequestVoteResp(c.term, true), false).sent);
      }
    }
  }

  lemma LeadsFrame(n: Node, m: Node, sent: set<Packet>)
    requires Leads(n, m, sent)
    ensures m.role == Leader && m.term == n.term && m.id == n.id && m.failed == n.failed
  {
    hide SendsAllNext;
  }

  /**
   One election without loss. A node stands and writes that down; it asks every other member; those who
   would vote for it write that down and say so. If they and it are a majority, it leads its term.
  */
  lemma OneElection(n: Node, vs: seq<Node>) returns (c: Node, d: Node)
    requires !n.failed && n.role != Leader && n.id in n.members && n.durableTerm <= n.term
    requires forall v :: v in vs ==> WouldVote(OnElectionTimeout(n).node, v)
    requires Majority((set v | v in Ids(vs)) + {n.id}, n.members)
    ensures c == OnElectionTimeout(n).node && |c.batches| > 0 && d == OnSynced(c, |c.batches| - 1).node
    ensures forall v :: v in vs ==>
      Packet(n.id, v.id, Request(c)) in OnSynced(c, |c.batches| - 1).sent && GivesVote(c, v)
    ensures AfterVotes(d, Ids(vs)).role == Leader && AfterVotes(d, Ids(vs)).term == n.term + 1
  {
    hide OnMessage, OnSynced, OnDurable, NoteHard, ClaimGrows, NoWorse, Leads, Majority, GivesVote;
    TimesOut(n);
    c := OnElectionTimeout(n).node;
    var k := |c.batches| - 1;
    BatchLanded(c, k);
    var rest := c.(batches := c.batches[..k] + c.batches[k + 1..]);
    HardLanded(rest, c.batches[k].hard.value);
    var m := NoteHard(rest, c.batches[k].hard);
    CampaignLanded(m, n.term + 1);
    var r := OnSynced(c, k);
    d := r.node;
    if Majority(m.votes, m.members) { LeadsFrame(m, d, Appends(r.sent)); }
    forall v | v in vs
      ensures Packet(n.id, v.id, Request(c)) in r.sent && GivesVote(c, v)
    {
      VoterRound(c, v);
      assert Packet(n.id, v.id, Request(c)) in r.sent - Appends(r.sent);
    }
    VotesCounted(d, Ids(vs));
    assert {n.id} + (set v | v in Ids(vs)) == (set v | v in Ids(vs)) + {n.id};
    if |vs| == 0 { assert (set v | v in Ids(vs)) + {n.id} == {n.id}; }
  }
}
