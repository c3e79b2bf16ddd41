/** What holds of every finite run of the cluster, whatever was lost, repeated, reordered or crashed. */
module ClusterTheorems {
  import opened Types
  import opened RaftSpec
  import opened Cluster
  import opened ClusterInv
  import opened ClusterFacts
  import opened ClusterGrowth
  import opened ClusterSafety

  lemma InitKeepsInv(w: World)
    requires Init(w)
    ensures Inv(w)
  {
    forall v | v in w.nodes ensures NodeOk(w.h, w.net, w.nodes[v]) {
      var n := w.nodes[v];
      assert n == Recovered(v, w.members, n.maxBatch, BLANK_HARD_STATE, []);
    }
  }

  lemma StepInv(w: World, w': World)
    requires Inv(w) && Step(w, w')
    ensures Inv(w') && Extends(w.h, w'.h) && w.net <= w'.net && w'.members == w.members
  {
    hide Inv;
    var a :| Enabled(w, a) && w' == Next(w, a);
    StepKeepsInv(w, a);
  }

  /** The invariant holds in every state of a run. */
  lemma {:induction false} RunInv(ws: seq<World>, i: nat)
    requires Run(ws) && i < |ws|
    ensures Inv(ws[i])
    decreases i
  {
    hide Inv, Step;
    if i == 0 {
      InitKeepsInv(ws[0]);
    } else {
      RunInv(ws, i - 1);
      assert Step(ws[i - 1], ws[i - 1 + 1]);
      StepInv(ws[i - 1], ws[i]);
    }
  }

  /** History and network only grow along a run. */
  lemma {:induction false} RunGrows(ws: seq<World>, i: nat, j: nat)
    requires Run(ws) && i <= j < |ws|
    ensures Extends(ws[i].h, ws[j].h) && ws[i].net <= ws[j].net && ws[i].members == ws[j].members
    decreases j - i
  {
    hide Inv, Step;
    if i < j {
      RunInv(ws, i);
      assert Step(ws[i], ws[i + 1]);
      StepInv(ws[i], ws[i + 1]);
      RunGrows(ws, i + 1, j);
      ExtendsTrans(ws[i].h, ws[i + 1].h, ws[j].h);
    }
  }

  // ---- what the invariant says of one node, in terms of a later history --------------

  lemma LeaderLogLater(ws: seq<World>, i: nat, j: nat, u: NodeId)
    requires Run(ws) && i <= j < |ws| && u in ws[i].nodes && ws[i].nodes[u].role == Leader
    ensures var n := ws[i].nodes[u]; var b := ws[j].h.book;
      n.term in b.elections && b.elections[n.term].leader == u && n.term in b.termLog && n.log <= b.termLog[n.term]
  {
    hide Inv, Run;
    RunInv(ws, i);
    NodeAt(ws[i], u);
    RunGrows(ws, i, j);
  }

  lemma GroundedLater(ws: seq<World>, i: nat, j: nat, u: NodeId)
    requires Run(ws) && i <= j < |ws| && u in ws[i].nodes
    ensures var n := ws[i].nodes[u]; LogOk(ws[j].h.book.termLog, n.log, n.term)
  {
    hide Inv, Run;
    RunInv(ws, i);
    NodeAt(ws[i], u);
    RunGrows(ws, i, j);
    LogGrows(ws[i].h.book, ws[j].h.book, ws[i].nodes[u].log, ws[i].nodes[u].term);
  }

  lemma DecidedLater(ws: seq<World>, i: nat, j: nat, u: NodeId)
    requires Run(ws) && i <= j < |ws| && u in ws[i].nodes
    ensures var n := ws[i].nodes[u];
      n.lastApplied <= n.commitIndex <= |n.log|
        && Decided(ws[j].h.book.termLog, ws[j].h.commits, n.log, n.commitIndex, n.term)
  {
    hide Inv, Run;
    RunInv(ws, i);
    NodeAt(ws[i], u);
    RunGrows(ws, i, j);
    DecidedGrows(ws[i].h, ws[j].h, ws[i].nodes[u].log, ws[i].nodes[u].commitIndex, ws[i].nodes[u].term);
  }

  lemma HistoryAt(ws: seq<World>, j: nat)
    requires Run(ws) && j < |ws|
    ensures HistoryOk(ws[j].h, ws[j].members)
  {
    RunInv(ws, j);
  }

  // ---- the theorems --------------------------------------------------------------------

  /** Election safety: at most one node ever leads a given term. */
  lemma ElectionSafety(ws: seq<World>, i: nat, j: nat, u: NodeId, v: NodeId)
    requires Run(ws) && i < |ws| && j < |ws| && u in ws[i].nodes && v in ws[j].nodes
    requires ws[i].nodes[u].role == Leader && ws[j].nodes[v].role == Leader
    requires ws[i].nodes[u].term == ws[j].nodes[v].term
    ensures u == v
  {
    hide Run;
    LeaderLogLater(ws, i, Max(i, j), u);
    LeaderLogLater(ws, j, Max(i, j), v);
  }

  /** Log matching: two logs, of any nodes at any times, that agree on the term at an index agree through it. */
  lemma LogMatching(ws: seq<World>, i: nat, j: nat, u: NodeId, v: NodeId, k: nat)
    requires Run(ws) && i < |ws| && j < |ws| && u in ws[i].nodes && v in ws[j].nodes
    requires TermAt(ws[i].nodes[u].log, k).Some? && TermAt(ws[i].nodes[u].log, k) == TermAt(ws[j].nodes[v].log, k)
    ensures Agree(ws[i].nodes[u].log, ws[j].nodes[v].log, k)
  {
    hide Run;
    var m := Max(i, j);
    GroundedLater(ws, i, m, u);
    GroundedLater(ws, j, m, v);
    if k > 0 { MatchAt(ws[m].h.book.termLog, ws[i].nodes[u].log, ws[j].nodes[v].log, k); }
  }

  lemma AgreeNone(a: seq<Entry>, b: seq<Entry>)
    ensures Agree(a, b, 0)
  {
  }

  lemma AgreeFlip(a: seq<Entry>, b: seq<Entry>, i: nat)
    requires Agree(a, b, i)
    ensures Agree(b, a, i)
  {
  }

  /** A decided prefix is what some leader committed. */
  lemma DecidedAgree(h: History, members: set<NodeId>, a: seq<Entry>, k: nat, s: nat, b: seq<Entry>, l: nat, t: nat)
    requires HistoryOk(h, members)
    requires Decided(h.book.termLog, h.commits, a, k, s) && Decided(h.book.termLog, h.commits, b, l, t) && k <= |a|
    requires l <= |b|
    ensures Agree(a, b, Min(k, l))
  {
    hide Agree, HistoryOk;
    var L := h.book.termLog;
    var x := Min(k, l);
    if x == 0 {
      AgreeNone(a, b);
    } else {
      var c :| c in h.commits && c.term <= s && k <= c.index && c.term in L && Agree(a, L[c.term], k);
      var d :| d in h.commits && d.term <= t && l <= d.index && d.term in L && Agree(b, L[d.term], l);
      CommitsAgree(h, members, c, d);
      AgreeShorter(a, L[c.term], k, x);
      AgreeShorter(b, L[d.term], l, x);
      AgreeShorter(L[c.term], L[d.term], Min(c.index, d.index), x);
      AgreeFlip(b, L[d.term], x);
      AgreeTrans(a, L[c.term], L[d.term], x);
      AgreeTrans(a, L[d.term], b, x);
    }
  }

  /**
   State machine safety: whatever any two nodes have committed, at any two times of the run and
   through any crashes between them, is the same up to the shorter of the two.
  */
  lemma CommittedPrefixesAgree(ws: seq<World>, i: nat, j: nat, u: NodeId, v: NodeId)
    requires Run(ws) && i < |ws| && j < |ws| && u in ws[i].nodes && v in ws[j].nodes
    ensures var n, m := ws[i].nodes[u], ws[j].nodes[v];
      Agree(n.log, m.log, Min(n.commitIndex, m.commitIndex))
  {
    hide Run;
    var x := Max(i, j);
    DecidedLater(ws, i, x, u);
    DecidedLater(ws, j, x, v);
    HistoryAt(ws, x);
    var n, m := ws[i].nodes[u], ws[j].nodes[v];
    DecidedAgree(ws[x].h, ws[x].members, n.log, n.commitIndex, n.term, m.log, m.commitIndex, m.term);
  }

  /** No two nodes ever apply different entries at one index. */
  lemma StateMachineSafety(ws: seq<World>, i: nat, j: nat, u: NodeId, v: NodeId, k: nat)
    requires Run(ws) && i < |ws| && j < |ws| && u in ws[i].nodes && v in ws[j].nodes
    requires k < ws[i].nodes[u].lastApplied && k < ws[j].nodes[v].lastApplied
    ensures k < |ws[i].nodes[u].log| && k < |ws[j].nodes[v].log| && ws[i].nodes[u].log[k] == ws[j].nodes[v].log[k]
  {
    hide Run;
    DecidedLater(ws, i, i, u);
    DecidedLater(ws, j, j, v);
    CommittedPrefixesAgree(ws, i, j, u, v);
    var n, m := ws[i].nodes[u], ws[j].nodes[v];
    AgreeElem(n.log, m.log, Min(n.commitIndex, m.commitIndex), k);
  }

  /**
   Leader completeness: once any node counts a prefix of its log as committed in some term, every
   leader of that term from then on, and every leader of a later term at any time of the run, before
   or after, has the prefix in its log.
  */
  lemma LeaderCompleteness(ws: seq<World>, i: nat, j: nat, u: NodeId, v: NodeId)
    requires Run(ws) && i < |ws| && j < |ws| && u in ws[i].nodes && v in ws[j].nodes && ws[j].nodes[v].role == Leader
    requires ws[j].nodes[v].term > ws[i].nodes[u].term || (ws[j].nodes[v].term == ws[i].nodes[u].term && i <= j)
    ensures Agree(ws[i].nodes[u].log, ws[j].nodes[v].log, ws[i].nodes[u].commitIndex)
  {
    hide Run, Decided, HistoryOk;
    var x := Max(i, j);
    DecidedLater(ws, i, x, u);
    LeaderLogNow(ws, j, v);
    HistoryAt(ws, x);
    HistoryAt(ws, j);
    RunGrows(ws, j, x);
    PrefixInLeader(ws[x].h, ws[j].h, ws[x].members, ws[i].nodes[u], ws[j].nodes[v], i <= j);
  }

  /** `m` leads at history `h0`; `n` has its prefix decided at the same or a later history `h`. */
  lemma PrefixInLeader(h: History, h0: History, members: set<NodeId>, n: Node, m: Node, now: bool)
    requires HistoryOk(h, members) && HistoryOk(h0, members) && Extends(h0, h)
    requires n.commitIndex <= |n.log| && Decided(h.book.termLog, h.commits, n.log, n.commitIndex, n.term)
    requires m.term in h0.book.termLog && m.log == h0.book.termLog[m.term]
    requires (m.term > n.term || (m.term == n.term && now)) && (now ==> h == h0)
    ensures Agree(n.log, m.log, n.commitIndex)
  {
    hide HistoryOk, Agree;
    if n.commitIndex == 0 {
      AgreeNone(n.log, m.log);
    } else {
      var c :| c in h.commits && c.term <= n.term && n.commitIndex <= c.index && c.term in h.book.termLog
               && Agree(n.log, h.book.termLog[c.term], n.commitIndex);
      if c.term < m.term {
        CommittedInEarlier(h, h0, members, c, m.term);
      } else {
        CommittedInLater(h, members, c, m.term);
      }
      AgreeShorter(h.book.termLog[c.term], m.log, c.index, n.commitIndex);
      AgreeTrans(n.log, h.book.termLog[c.term], m.log, n.commitIndex);
    }
  }

  /** A later term's leader had what a leader commits even before it was committed. */
  lemma CommittedInEarlier(h: History, h0: History, members: set<NodeId>, c: Commit, T: nat)
    requires HistoryOk(h, members) && HistoryOk(h0, members) && Extends(h0, h) && c in h.commits
    requires c.term in h.book.termLog && T in h0.book.termLog && c.term < T
    ensures Agree(h.book.termLog[c.term], h0.book.termLog[T], c.index)
  {
    hide Agree;
    ChosenNotBlocked(h, members, c.term, c.index);
    assert OwnIndex(h.book.termLog, c.term, c.index);
    assert T in h0.book.elections && h0.book.elections[T] == h.book.elections[T];
    assert !NoneReach(h.book.elections[T], c.term, c.index);
    var a :| a in h0.book.elections[T].frozen && a.term == c.term && a.index >= c.index;
    assert c.term in h0.book.termLog && c.index <= |h0.book.termLog[c.term]|;
    assert h0.book.termLog[c.term] <= h.book.termLog[c.term];
    assert OwnIndex(h0.book.termLog, c.term, c.index);
    assert Safe(h0.book, c.term, c.index, h0.book.termLog[T]);
    AgreeLonger(h0.book.termLog[c.term], h.book.termLog[c.term], h0.book.termLog[T], c.index);
  }

  lemma AgreeLonger(a: seq<Entry>, a': seq<Entry>, b: seq<Entry>, i: nat)
    requires a <= a' && i <= |a|
    ensures Agree(a, b, i) ==> Agree(a', b, i)
  {
    assert a'[..i] == a[..i];
  }

  lemma LeaderLogNow(ws: seq<World>, j: nat, v: NodeId)
    requires Run(ws) && j < |ws| && v in ws[j].nodes && ws[j].nodes[v].role == Leader
    ensures ws[j].nodes[v].term in ws[j].h.book.termLog
    ensures ws[j].nodes[v].log == ws[j].h.book.termLog[ws[j].nodes[v].term]
  {
    hide Inv, Run;
    RunInv(ws, j);
    NodeAt(ws[j], v);
  }

  /** A node never comes back, not even from a crash, at a term below one it has spoken in. */
  lemma TermsStayDurable(ws: seq<World>, i: nat, j: nat, p: Packet)
    requires Run(ws) && i <= j < |ws| && p in ws[i].net
    ensures p.from in ws[j].nodes && p.msg.term <= ws[j].nodes[p.from].durableTerm <= ws[j].nodes[p.from].term
  {
    hide Run;
    RunGrows(ws, i, j);
    RunInv(ws, j);
    SpokenTerm(ws[j], p);
  }

  lemma SpokenTerm(w: World, p: Packet)
    requires Inv(w) && p in w.net
    ensures p.from in w.nodes && p.msg.term <= w.nodes[p.from].durableTerm <= w.nodes[p.from].term
  {
    assert MembersOk(w);
    hide Inv;
    NodeAt(w, p.from);
    var n := w.nodes[p.from];
    assert SaidOk(w.h.book, w.h.candLog, n.id, p, n.durableTerm, n.batches);
  }

  /** `v` revealed a vote for `c` in `T`: it granted one, or it asked for votes for itself. */
  ghost predicate Revealed(net: set<Packet>, v: NodeId, T: nat, c: NodeId) {
    Packet(v, c, RequestVoteResp(T, true)) in net || (c == v && Asked(net, v, T))
  }

  /** A node gives at most one vote in a term, counting its own and every vote it ever revealed. */
  lemma OneVotePerTerm(ws: seq<World>, i: nat, v: NodeId, T: nat, c: NodeId, d: NodeId)
    requires Run(ws) && i < |ws| && Revealed(ws[i].net, v, T, c) && Revealed(ws[i].net, v, T, d)
    ensures c == d
  {
    hide Run;
    RunInv(ws, i);
    VoteAt(ws[i], v, T, c, d);
  }

  lemma VoteAt(w: World, v: NodeId, T: nat, c: NodeId, d: NodeId)
    requires Inv(w) && Revealed(w.net, v, T, c) && Revealed(w.net, v, T, d)
    ensures c == d
  {
    assert MembersOk(w);
    hide Inv;
    NodeAt(w, v);
    assert VotedFor(w.h.book.elections, w.net, v, T, c) && VotedFor(w.h.book.elections, w.net, v, T, d);
  }

  // ---- committed entries stay --------------------------------------------------------------

  lemma MaybeCommitUp(n: Node)
    ensures MaybeCommit(n).commitIndex >= n.commitIndex
  {
  }

  lemma AdvanceCommit(n: Node)
    ensures AdvanceDurable(n).commitIndex == n.commitIndex
  {
  }

  lemma DurableUp(n: Node, a: Persist)
    ensures OnDurable(n, a).node.commitIndex >= n.commitIndex
  {
    hide AdvanceDurable, MaybeCommit;
    if a.LogDurable? {
      var index := Min(a.index, |n.log|);
      AdvanceCommit(n.(parked := n.parked + [(a.from, index)]));
      MaybeCommitUp(if index > n.durableIndex then AdvanceDurable(n.(parked := n.parked + [(a.from, index)])) else n);
    }
  }

  lemma HardUp(n: Node, hard: Option<HardState>)
    ensures NoteHard(n, hard).commitIndex == n.commitIndex
  {
    hide AdvanceDurable;
    if hard.Some? {
      var m := if hard.value.seqno >= n.durableHard.seqno then n.(durableHard := hard.value) else n;
      AdvanceCommit(m.(durableTerm := hard.value.term));
    }
  }

  lemma AcceptUp(n: Node, from: NodeId, prev: nat, entries: seq<Entry>, dirty: bool)
    requires prev <= |n.log|
    ensures Accept(n, from, prev, entries, dirty).node.commitIndex == n.commitIndex
  {
  }

  lemma AppendUp(n: Node, from: NodeId, term: nat, prev: nat, prevTerm: nat, entries: seq<Entry>, commit: nat)
    ensures OnAppendEntries(n, from, term, prev, prevTerm, entries, commit).node.commitIndex >= n.commitIndex
  {
    hide Accept;
    var m := Concede(if term > n.term then StepDown(n, term) else n);
    if prev <= |m.log| { AcceptUp(m, from, prev, entries, term > n.term); }
  }

  lemma MessageUp(n: Node, from: NodeId, msg: Message, ignore: bool)
    ensures OnMessage(n, from, msg, ignore).node.commitIndex >= n.commitIndex
  {
    hide MaybeCommit, OnAppendEntries;
    if msg.AppendEntries? { AppendUp(n, from, msg.term, msg.prevIndex, msg.prevTerm, msg.entries, msg.leaderCommit); }
    if msg.AppendEntriesResp? && msg.success {
      var best := Max(if from in n.matchIndex then n.matchIndex[from] else NO_INDEX, msg.matchIndex);
      MaybeCommitUp(n.(matchIndex := n.matchIndex[from := best], nextIndex := n.nextIndex[from := best + 1]));
    }
  }

  /** Only a crash takes a commit index back. */
  lemma CommitUp(n: Node, a: Action)
    requires (a.Synced? || a.StorageFails? ==> a.batch < |n.batches|) && !a.Crash?
    ensures React(n, a).node.commitIndex >= n.commitIndex
  {
    hide OnMessage, OnDurable, NoteHard;
    match a {
      case Deliver(p, ignore) => MessageUp(n, p.from, p.msg, ignore);
      case Synced(_, k) =>
        var bs := n.batches[..k] + n.batches[k + 1..];
        HardUp(n.(batches := bs), n.batches[k].hard);
        DurableUp(NoteHard(n.(batches := bs), n.batches[k].hard), n.batches[k].action);
      case _ =>
    }
  }

  /** No event but a crash removes or replaces a committed entry, and a crash forgets only that it was committed. */
  lemma CommittedEntriesStay(ws: seq<World>, i: nat, a: Action, u: NodeId)
    requires Run(ws) && i + 1 < |ws| && Enabled(ws[i], a) && ws[i + 1] == Next(ws[i], a) && u in ws[i].nodes
    requires !(a.Crash? && a.node == u)
    ensures u in ws[i + 1].nodes && ws[i].nodes[u].commitIndex <= ws[i + 1].nodes[u].commitIndex
    ensures Agree(ws[i].nodes[u].log, ws[i + 1].nodes[u].log, ws[i].nodes[u].commitIndex)
  {
    hide Run, React;
    if Actor(a) == u { CommitUp(ws[i].nodes[u], a); }
    CommittedPrefixesAgree(ws, i, i + 1, u, u);
  }
}
