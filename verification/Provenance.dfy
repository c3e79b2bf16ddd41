/**
 Where the entries of logs come from: a leader's opening entry, or a command some client asked for at
 an earlier step of the run.
*/
module Provenance {
  import opened Types
  import opened RaftSpec
  import opened Cluster
  import opened ClusterInv
  import opened ClusterFacts
  import opened ClusterSafety
  import opened ClusterTheorems

  /** Every command of the log is among those known. */
  ghost predicate Known(log: seq<Entry>, cmds: set<Command>) {
    forall e :: e in log ==> e.cmd in cmds
  }

  ghost predicate PacketsKnown(net: set<Packet>, cmds: set<Command>) {
    forall p :: p in net && p.msg.AppendEntries? ==> Known(p.msg.entries, cmds)
  }

  ghost predicate ReactionKnown(r: Reaction, cmds: set<Command>) {
    Known(r.node.log, cmds) && PacketsKnown(r.sent, cmds)
  }

  lemma KnownParts(a: seq<Entry>, b: seq<Entry>, cmds: set<Command>)
    ensures Known(a + b, cmds) <==> Known(a, cmds) && Known(b, cmds)
  {
    forall e ensures e in a + b <==> e in a || e in b {}
  }

  lemma KnownSlice(log: seq<Entry>, lo: nat, hi: nat, cmds: set<Command>)
    requires lo <= hi <= |log| && Known(log, cmds)
    ensures Known(log[lo..hi], cmds)
  {
    forall e | e in log[lo..hi] ensures e in log {}
  }

  lemma AppendSendsKnown(n: Node, to: NodeId, cmds: set<Command>)
    requires Known(n.log, cmds)
    ensures PacketsKnown(SendAppend(n, to), cmds)
  {
    var next := Max(if to in n.nextIndex then n.nextIndex[to] else 1, 1);
    if next <= |n.log| { KnownSlice(n.log, next - 1, Min(next - 1 + n.maxBatch, |n.log|), cmds); }
  }

  lemma BroadcastKnown(n: Node, cmds: set<Command>)
    requires Known(n.log, cmds)
    ensures PacketsKnown(BroadcastAppend(n), cmds)
  {
    hide SendAppend, Known;
    forall q | q in BroadcastAppend(n) && q.msg.AppendEntries? ensures Known(q.msg.entries, cmds) {
      var p :| p in Peers(n) && q in SendAppend(n, p);
      AppendSendsKnown(n, p, cmds);
    }
  }

  lemma LeaderKnown(n: Node, cmds: set<Command>)
    requires Known(n.log, cmds) && NOOP_COMMAND in cmds
    ensures ReactionKnown(BecomeLeader(n), cmds)
  {
    hide BroadcastAppend;
    KnownParts(n.log, [Entry(n.term, |n.log| + 1, NOOP_COMMAND)], cmds);
    BroadcastKnown(BecomeLeader(n).node, cmds);
  }

  lemma ProposeKnown(n: Node, cmd: Command, cmds: set<Command>)
    requires Known(n.log, cmds) && cmd in cmds
    ensures ReactionKnown(Propose(n, cmd), cmds)
  {
    hide BroadcastAppend;
    KnownParts(n.log, [Entry(n.term, |n.log| + 1, cmd)], cmds);
    BroadcastKnown(Propose(n, cmd).node, cmds);
  }

  lemma AdoptKnown(n: Node, prev: nat, entries: seq<Entry>, k: nat, cmds: set<Command>)
    requires k < |entries| && prev + k <= |n.log| && Known(n.log, cmds) && Known(entries, cmds)
    ensures Known(Adopt(n, prev, entries, k).log, cmds)
  {
    hide Known;
    KnownSlice(n.log, 0, prev + k, cmds);
    KnownSlice(entries, k, |entries|, cmds);
    assert n.log[..prev + k] == n.log[0..prev + k] && entries[k..] == entries[k..|entries|];
    KnownParts(if prev + k < |n.log| then n.log[..prev + k] else n.log, entries[k..], cmds);
  }

  lemma AppendKnown(n: Node, from: NodeId, term: nat, prev: nat, prevTerm: nat, entries: seq<Entry>, commit: nat,
                    cmds: set<Command>)
    requires Known(n.log, cmds) && Known(entries, cmds)
    ensures ReactionKnown(OnAppendEntries(n, from, term, prev, prevTerm, entries, commit), cmds)
  {
    hide Known, Adopt, FirstNew, ConflictHint;
    if term >= n.term {
      var m := Concede(if term > n.term then StepDown(n, term) else n);
      if TermAt(m.log, prev) == Some(prevTerm) {
        var k := FirstNewIn(m.log, prev, entries);
        if k < |entries| { AdoptKnown(m, prev, entries, k, cmds); }
      }
    }
  }

  lemma FirstNewIn(log: seq<Entry>, prev: nat, entries: seq<Entry>) returns (k: nat)
    requires prev <= |log|
    ensures k == FirstNew(log, prev, entries) && (k < |entries| ==> prev + k <= |log|)
  {
    k := FirstNew(log, prev, entries);
  }

  lemma RespKnown(n: Node, from: NodeId, term: nat, success: bool, m: nat, conflict: nat, cmds: set<Command>)
    requires Known(n.log, cmds)
    ensures ReactionKnown(OnAppendResp(n, from, term, success, m, conflict), cmds)
  {
    hide Known, SendAppend, QuorumIndex, IsQuorumIndex;
    AppendSendsKnown(OnAppendResp(n, from, term, success, m, conflict).node, from, cmds);
  }

  lemma VoteKnown(n: Node, from: NodeId, term: nat, granted: bool, cmds: set<Command>)
    requires Known(n.log, cmds) && NOOP_COMMAND in cmds
    ensures ReactionKnown(OnVoteResp(n, from, term, granted), cmds)
  {
    hide Known, BecomeLeader;
    LeaderKnown(n.(votes := n.votes + {from}), cmds);
  }

  lemma MessageKnown(n: Node, from: NodeId, msg: Message, ignore: bool, cmds: set<Command>)
    requires Known(n.log, cmds) && NOOP_COMMAND in cmds && (msg.AppendEntries? ==> Known(msg.entries, cmds))
    ensures ReactionKnown(OnMessage(n, from, msg, ignore), cmds)
  {
    hide Known, OnAppendEntries, OnAppendResp, OnVoteResp, UpToDate;
    match msg {
      case AppendEntries(T, _, prev, prevTerm, entries, commit) =>
        AppendKnown(n, from, T, prev, prevTerm, entries, commit, cmds);
      case AppendEntriesResp(T, success, m, conflict) => RespKnown(n, from, T, success, m, conflict, cmds);
      case RequestVoteResp(T, granted) => VoteKnown(n, from, T, granted, cmds);
      case _ =>
    }
  }

  lemma AdvanceLog(n: Node)
    ensures AdvanceDurable(n).log == n.log
  {
  }

  lemma NoteLog(n: Node, hard: Option<HardState>)
    ensures NoteHard(n, hard).log == n.log
  {
    hide AdvanceDurable;
    if hard.Some? {
      var m := if hard.value.seqno >= n.durableHard.seqno then n.(durableHard := hard.value) else n;
      AdvanceLog(m.(durableTerm := hard.value.term));
    }
  }

  lemma DurableKnown(n: Node, a: Persist, cmds: set<Command>)
    requires Known(n.log, cmds) && NOOP_COMMAND in cmds && (a.Reply? ==> !a.msg.AppendEntries?)
    ensures ReactionKnown(OnDurable(n, a), cmds)
  {
    hide Known, AdvanceDurable, QuorumIndex, IsQuorumIndex, BecomeLeader;
    LeaderKnown(n, cmds);
    if a.LogDurable? { AdvanceLog(n.(parked := n.parked + [(a.from, Min(a.index, |n.log|))])); }
  }

  lemma RepliesOnly(h: History, net: set<Packet>, n: Node, k: nat)
    requires NodeOk(h, net, n) && k < |n.batches|
    ensures n.batches[k].action.Reply? ==> !n.batches[k].action.msg.AppendEntries?
  {
    BatchAt(h, net, n, n.batches[k]);
  }

  lemma EventKnown(h: History, net: set<Packet>, n: Node, a: Action, cmds: set<Command>)
    requires NodeOk(h, net, n) && (a.Synced? || a.StorageFails? ==> a.batch < |n.batches|)
    requires Known(n.log, cmds) && NOOP_COMMAND in cmds && (a.ClientCommand? ==> a.cmd in cmds)
    requires a.Deliver? && a.packet.msg.AppendEntries? ==> Known(a.packet.msg.entries, cmds)
    ensures ReactionKnown(React(n, a), cmds)
  {
    hide NodeOk, Known, OnMessage, OnDurable, NoteHard, Propose;
    match a {
      case Deliver(p, ignore) => MessageKnown(n, p.from, p.msg, ignore, cmds);
      case Heartbeat(_) => BroadcastKnown(n, cmds);
      case ClientCommand(_, cmd) => ProposeKnown(n, cmd, cmds);
      case Synced(_, k) =>
        RepliesOnly(h, net, n, k);
        var bs := n.batches[..k] + n.batches[k + 1..];
        NoteLog(n.(batches := bs), n.batches[k].hard);
        DurableKnown(NoteHard(n.(batches := bs), n.batches[k].hard), n.batches[k].action, cmds);
      case Crash(_, _, kept) => KnownSlice(n.log, 0, Min(kept, |n.log|), cmds);
      case _ =>
    }
  }

  // ---- runs -------------------------------------------------------------------------------------

  ghost predicate WorldKnown(w: World, cmds: set<Command>) {
    (forall v :: v in w.nodes ==> Known(w.nodes[v].log, cmds)) && PacketsKnown(w.net, cmds)
  }

  lemma DrainLog(n: Node)
    ensures Drain(n).log == n.log
  {
  }

  lemma StepKnown(w: World, a: Action, cmds: set<Command>)
    requires Inv(w) && Enabled(w, a) && WorldKnown(w, cmds) && NOOP_COMMAND in cmds
    requires (a.ClientCommand? ==> a.cmd in cmds)
    ensures WorldKnown(Next(w, a), cmds)
  {
    hide Inv, NodeOk, Known, React, Drain;
    var n := w.nodes[Actor(a)];
    NodeAt(w, Actor(a));
    EventKnown(w.h, w.net, n, a, cmds);
    DrainLog(React(n, a).node);
  }

  lemma KnownMore(w: World, cmds: set<Command>, more: set<Command>)
    requires WorldKnown(w, cmds) && cmds <= more
    ensures WorldKnown(w, more)
  {
  }

  /** The commands clients asked for in the first `t` steps, and the one leaders begin with. */
  ghost function AskedBy(acts: seq<Action>, t: nat): (cmds: set<Command>)
    requires t <= |acts|
    ensures forall c ::
      c in cmds <==> c == NOOP_COMMAND || exists i :: 0 <= i < t && acts[i].ClientCommand? && acts[i].cmd == c
  {
    {NOOP_COMMAND} + set i | 0 <= i < t && acts[i].ClientCommand? :: acts[i].cmd
  }

  /** Whatever is in a log was asked for before, but for leaders' opening entries. */
  lemma {:induction false} RunKnown(ws: seq<World>, acts: seq<Action>, t: nat)
    requires Run(ws) && |ws| == |acts| + 1 && t < |ws|
    requires forall i :: 0 <= i < |acts| ==> Enabled(ws[i], acts[i]) && ws[i + 1] == Next(ws[i], acts[i])
    ensures WorldKnown(ws[t], AskedBy(acts, t))
    decreases t
  {
    hide Run, Inv, Enabled, Next, WorldKnown;
    if t == 0 {
      StartKnown(ws);
    } else {
      RunKnown(ws, acts, t - 1);
      RunInv(ws, t - 1);
      var cmds := AskedBy(acts, t);
      assert AskedBy(acts, t - 1) <= cmds;
      KnownMore(ws[t - 1], AskedBy(acts, t - 1), cmds);
      if acts[t - 1].ClientCommand? { assert acts[t - 1].cmd in cmds; }
      assert ws[t - 1 + 1] == Next(ws[t - 1], acts[t - 1]);
      StepKnown(ws[t - 1], acts[t - 1], cmds);
    }
  }

  lemma StartKnown(ws: seq<World>)
    requires Run(ws)
    ensures forall cmds :: WorldKnown(ws[0], cmds)
  {
    forall v | v in ws[0].nodes ensures ws[0].nodes[v].log == [] {
      assert ws[0].nodes[v] == Recovered(v, ws[0].members, ws[0].nodes[v].maxBatch, BLANK_HARD_STATE, []);
    }
  }
}
