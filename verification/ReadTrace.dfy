/**
 When reads are fresh, in terms of the messages alone. The trace of a run keeps, for every node, the
 probes it sent since it last restarted, and for every reply the probes it answers. If each reply a
 leader counts answers a probe the leader sent since it last restarted, then each was given in the
 leader's term or is numbered no higher than its probes were when it was elected, and so every read
 is fresh. Only a reply to a probe the leader has forgotten can do harm.
*/
module ReadTrace {
  import opened Types
  import opened RaftSpec
  import opened Cluster
  import opened ClusterInv
  import opened ReadIndex

  /** `recent`: the probes each node sent since its last restart; `answers`: replies with the probes they answer. */
  datatype Trace = Trace(recent: map<NodeId, set<Packet>>, answers: set<(Packet, Packet)>)

  function Probes(sent: set<Packet>): set<Packet> { set p | p in sent && p.msg.ReadProbe? }

  function Replies(sent: set<Packet>, q: Packet): set<(Packet, Packet)> {
    set p | p in sent && p.msg.ReadProbeResp? :: (p, q)
  }

  ghost predicate Covers(w: World, tr: Trace) { tr.recent.Keys == w.nodes.Keys }

  ghost function TraceNext(w: World, tr: Trace, a: Action): Trace
    requires Enabled(w, a) && Covers(w, tr)
  {
    var v := Actor(a);
    var sent := React(w.nodes[v], a).sent;
    Trace(
      tr.recent[v := if a.Crash? then {} else tr.recent[v] + Probes(sent)],
      if a.Deliver? && a.packet.msg.ReadProbe? then tr.answers + Replies(sent, a.packet) else tr.answers)
  }

  /** A reply about to be counted answers a probe its leader sent since it last restarted. */
  ghost predicate CountsCurrent(w: World, tr: Trace, a: Action)
    requires Covers(w, tr)
  {
    CountsReply(w, a) ==> exists q :: (a.packet, q) in tr.answers && q in tr.recent[a.packet.to]
  }

  // ---- the invariant ------------------------------------------------------------------

  /** A leader sent the probes of its earlier terms before it was elected. */
  ghost predicate RecentOk(n: Node, rh: ReadHistory, q: Packet) {
    && q.msg.ReadProbe? && q.msg.term <= n.term && q.msg.seqno <= n.readSeq
    && (n.role == Leader && q.msg.term < n.term ==> n.term in rh.base && q.msg.seqno <= rh.base[n.term])
  }

  ghost predicate AllRecentOk(n: Node, rh: ReadHistory, ps: set<Packet>) {
    forall q :: q in ps ==> RecentOk(n, rh, q)
  }

  /** A reply carries its probe's number, and the answerer's term, in which it vouches if that is the probe's too. */
  ghost predicate AnswerOk(rh: ReadHistory, p: Packet, q: Packet) {
    && p.msg.ReadProbeResp? && q.msg.ReadProbe?
    && p.msg.seqno == q.msg.seqno && q.msg.term <= p.msg.term
    && (q.msg.term == p.msg.term ==> p in rh.vouched)
  }

  ghost predicate AnswersOk(rh: ReadHistory, answers: set<(Packet, Packet)>) {
    forall pq :: pq in answers ==> AnswerOk(rh, pq.0, pq.1)
  }

  ghost predicate TraceOk(rw: ReadWorld, tr: Trace) {
    && Covers(rw.w, tr) && AnswersOk(rw.rh, tr.answers)
    && forall v {:trigger rw.w.nodes[v]} :: v in rw.w.nodes ==> AllRecentOk(rw.w.nodes[v], rw.rh, tr.recent[v])
  }

  /** A reply to a recent probe is vouched for, or too old to count for a read of the reign. */
  lemma CurrentIsVouched(rw: ReadWorld, tr: Trace, a: Action)
    requires TraceOk(rw, tr) && CountsCurrent(rw.w, tr, a)
    ensures Vouched(rw.w, rw.rh, a)
  {
    if CountsReply(rw.w, a) {
      var q :| (a.packet, q) in tr.answers && q in tr.recent[a.packet.to];
      assert AnswerOk(rw.rh, (a.packet, q).0, (a.packet, q).1);
      assert RecentOk(rw.w.nodes[a.packet.to], rw.rh, q);
    }
  }

  // ---- one step ------------------------------------------------------------------------

  /** Numbers and terms go up until a crash, and a leader keeps its reign or begins a new one. */
  ghost predicate MovesOn(n: Node, x: Node) {
    && n.readSeq <= x.readSeq && n.term <= x.term
    && (x.role == Leader ==> SameReign(n, x) || (n.role == Candidate && x.term == n.term && x.readSeq == n.readSeq))
  }

  lemma CountMovesOn(n: Node, from: NodeId, msg: Message, ignore: bool)
    requires msg.ReadProbeResp?
    ensures MovesOn(n, OnMessage(n, from, msg, ignore).node)
  {
  }

  lemma EventMovesOn(n: Node, a: Action)
    requires !a.Crash? && (a.Synced? || a.StorageFails? ==> a.batch < |n.batches|)
    ensures MovesOn(n, React(n, a).node)
  {
    hide OnMessage, OnSynced;
    if a.Deliver? && a.packet.msg.ReadProbeResp? {
      CountMovesOn(n, a.packet.from, a.packet.msg, a.ignore);
    } else if !(a.ClientRead? && AcceptsRead(n)) {
      EventKeeps(n, a);
    }
  }

  /** A term that just got its leader had none before, so the leader's number is recorded for it. */
  lemma NewReign(rw: ReadWorld, a: Action, n: Node, x: Node, rw': ReadWorld)
    requires Stepped(rw, a, n, x, rw') && n.role == Candidate && x.role == Leader && x.term == n.term
    ensures x.term in rw'.rh.base && rw'.rh.base[x.term] == x.readSeq
  {
    hide Inv, React, Drain, NodeOk, Of, RecordReads, Stepped, Enabled, RepliesOk, AcceptsNow, LeaderReadsOk;
    SteppedFacts(rw, a, n, x, rw');
    SteppedInv(rw, a, n, x, rw');
    ReadFacts(rw, n.id);
    hide ReadInv;
    DrainRole(x);
    LeadersTerm(rw'.w, n.id);
    ExtendsElections(rw.w.h, rw'.w.h);
    CandidateTerm(rw.w, n);
    NewBase(rw.w, rw.rh, a);
  }

  lemma OldProbeStays(n: Node, x: Node, rh: ReadHistory, rh': ReadHistory, q: Packet)
    requires RecentOk(n, rh, q) && MovesOn(n, x) && Grows(rh, rh')
    requires n.role == Candidate && x.role == Leader ==> x.term in rh'.base && rh'.base[x.term] == x.readSeq
    ensures RecentOk(x, rh', q)
  {
  }

  lemma DrainRecent(x: Node, rh: ReadHistory, ps: set<Packet>)
    requires AllRecentOk(x, rh, ps)
    ensures AllRecentOk(Drain(x), rh, ps)
  {
  }

  /** The probes of the acting node. */
  lemma ActorRecent(rw: ReadWorld, a: Action, n: Node, x: Node, rw': ReadWorld, ps: set<Packet>)
    requires Stepped(rw, a, n, x, rw') && AllRecentOk(n, rw.rh, ps) && !a.Crash?
    ensures AllRecentOk(Drain(x), rw'.rh, ps + Probes(React(n, a).sent))
  {
    hide Inv, React, Drain, NodeOk, Of, RecordReads, Stepped, Enabled, RepliesOk, AcceptsNow, LeaderReadsOk, RecentOk,
         Grows, MovesOn;
    SteppedFacts(rw, a, n, x, rw');
    SteppedInv(rw, a, n, x, rw');
    AcceptedStays(rw, a, n, x, rw');
    ProbesStay(rw, a, n, x, rw');
    BatchThere(rw.w, a);
    EventMovesOn(n, a);
    hide ReadInv, ReadNext;
    if n.role == Candidate && x.role == Leader {
      MovesOnTerm(n, x);
      NewReign(rw, a, n, x, rw');
    }
    forall q | q in ps + Probes(React(n, a).sent) ensures RecentOk(x, rw'.rh, q) {
      if q in ps { OldProbeStays(n, x, rw.rh, rw'.rh, q); } else { NewProbe(x, React(n, a).sent, rw'.rh, q); }
    }
    DrainRecent(x, rw'.rh, ps + Probes(React(n, a).sent));
  }

  lemma BatchThere(w: World, a: Action)
    requires Enabled(w, a)
    ensures a.Synced? || a.StorageFails? ==> a.batch < |w.nodes[Actor(a)].batches|
  {
  }

  lemma MovesOnTerm(n: Node, x: Node)
    requires MovesOn(n, x) && n.role == Candidate && x.role == Leader
    ensures x.term == n.term
  {
  }

  lemma NewProbe(x: Node, sent: set<Packet>, rh: ReadHistory, q: Packet)
    requires ProbesOwn(x, sent) && q in Probes(sent)
    ensures RecentOk(x, rh, q)
  {
  }

  lemma MessageReplies(n: Node, from: NodeId, msg: Message, ignore: bool, p: Packet)
    requires p in OnMessage(n, from, msg, ignore).sent && p.msg.ReadProbeResp? && msg.ReadProbe?
    ensures p.msg.seqno == msg.seqno && msg.term <= p.msg.term == n.term
  {
  }

  lemma NewAnswer(rw: ReadWorld, a: Action, n: Node, x: Node, rw': ReadWorld, p: Packet)
    requires Stepped(rw, a, n, x, rw') && a.Deliver? && a.packet.msg.ReadProbe? && p in React(n, a).sent
    requires p.msg.ReadProbeResp?
    ensures AnswerOk(rw'.rh, p, a.packet)
  {
    hide Inv, React, Drain, NodeOk, Of, Stepped, Enabled, RepliesOk, AcceptsNow, LeaderReadsOk, OnMessage, PacketOk;
    SteppedFacts(rw, a, n, x, rw');
    SteppedInv(rw, a, n, x, rw');
    hide ReadInv, ReadNext;
    Delivered(rw.w, n, a.packet, a.ignore);
    MessageReplies(n, a.packet.from, a.packet.msg, a.ignore, p);
  }

  /** One step keeps the trace and the read history together. */
  lemma StepKeepsTrace(rw: ReadWorld, tr: Trace, a: Action)
    requires ReadInv(rw) && TraceOk(rw, tr) && Enabled(rw.w, a) && CountsCurrent(rw.w, tr, a)
    ensures ReadInv(ReadNext(rw, a)) && TraceOk(ReadNext(rw, a), TraceNext(rw.w, tr, a))
  {
    hide Inv, React, Drain, NodeOk, Of, RecordReads, RepliesOk, AcceptsNow, LeaderReadsOk, AllRecentOk, AnswerOk,
         CountsCurrent, Vouched, Grows, ProbesOk, AcceptedOk;
    CurrentIsVouched(rw, tr, a);
    StepKeepsReads(rw, a);
    var n := rw.w.nodes[Actor(a)];
    var x := React(n, a).node;
    var rw' := ReadNext(rw, a);
    var tr' := TraceNext(rw.w, tr, a);
    assert Stepped(rw, a, n, x, rw');
    SteppedFacts(rw, a, n, x, rw');
    AcceptedStays(rw, a, n, x, rw');
    hide Stepped, ReadInv, ReadNext, Enabled;
    forall v | v in rw'.w.nodes ensures AllRecentOk(rw'.w.nodes[v], rw'.rh, tr'.recent[v]) {
      if v != n.id {
        RecentGrows(rw.w.nodes[v], rw.rh, rw'.rh, tr.recent[v]);
      } else if a.Crash? {
        NoneRecent(Drain(x), rw'.rh);
      } else {
        ActorRecent(rw, a, n, x, rw', tr.recent[v]);
      }
    }
    forall pq | pq in tr'.answers ensures AnswerOk(rw'.rh, pq.0, pq.1) {
      if pq in tr.answers { AnswerStays(rw.rh, rw'.rh, pq.0, pq.1); } else { NewAnswer(rw, a, n, x, rw', pq.0); }
    }
  }

  lemma NoneRecent(x: Node, rh: ReadHistory)
    ensures AllRecentOk(x, rh, {})
  {
  }

  lemma RecentGrows(n: Node, rh: ReadHistory, rh': ReadHistory, ps: set<Packet>)
    requires AllRecentOk(n, rh, ps) && Grows(rh, rh')
    ensures AllRecentOk(n, rh', ps)
  {
  }

  lemma AnswerStays(rh: ReadHistory, rh': ReadHistory, p: Packet, q: Packet)
    requires AnswerOk(rh, p, q) && Grows(rh, rh')
    ensures AnswerOk(rh', p, q)
  {
  }

  // ---- every run -------------------------------------------------------------------------

  /** The trace of a run. */
  ghost predicate TraceRun(rws: seq<ReadWorld>, acts: seq<Action>, trs: seq<Trace>) {
    && ReadRun(rws, acts) && |trs| == |rws|
    && Covers(rws[0].w, trs[0]) && trs[0].answers == {} && (forall v :: v in trs[0].recent ==> trs[0].recent[v] == {})
    && forall i :: 0 <= i < |acts| ==> Covers(rws[i].w, trs[i]) && trs[i + 1] == TraceNext(rws[i].w, trs[i], acts[i])
  }

  lemma {:induction false} RunKeepsTrace(rws: seq<ReadWorld>, acts: seq<Action>, trs: seq<Trace>, i: nat)
    requires TraceRun(rws, acts, trs) && i < |rws|
    requires forall k :: 0 <= k < |acts| ==> Covers(rws[k].w, trs[k]) && CountsCurrent(rws[k].w, trs[k], acts[k])
    ensures ReadInv(rws[i]) && TraceOk(rws[i], trs[i])
    decreases i
  {
    hide ReadInv, Init, ReadNext, TraceNext, Enabled, AllRecentOk, CountsCurrent;
    if i == 0 {
      InitReads(rws[0]);
      forall v | v in rws[0].w.nodes ensures AllRecentOk(rws[0].w.nodes[v], rws[0].rh, trs[0].recent[v]) {
        NoneRecent(rws[0].w.nodes[v], rws[0].rh);
      }
    } else {
      RunKeepsTrace(rws, acts, trs, i - 1);
      assert rws[i - 1 + 1] == ReadNext(rws[i - 1], acts[i - 1]);
      assert trs[i - 1 + 1] == TraceNext(rws[i - 1].w, trs[i - 1], acts[i - 1]);
      StepKeepsTrace(rws[i - 1], trs[i - 1], acts[i - 1]);
    }
  }

  /**
   If every reply a leader counts answers a probe the leader sent since it last restarted, every counted
   reply is vouched for, so a quorum truly vouches for each read served (`ReadIndex.AllVouchedGenuine`)
   and each is fresh (`ReadIndex.ServedReadsAreFresh`).
  */
  lemma CurrentRepliesAreVouched(rws: seq<ReadWorld>, acts: seq<Action>, trs: seq<Trace>)
    requires TraceRun(rws, acts, trs)
    requires forall k :: 0 <= k < |acts| ==> Covers(rws[k].w, trs[k]) && CountsCurrent(rws[k].w, trs[k], acts[k])
    ensures AllVouched(rws, acts)
  {
    hide TraceOk, TraceRun, CountsCurrent, Vouched;
    TraceLength(rws, acts, trs);
    forall k | 0 <= k < |acts| ensures Vouched(rws[k].w, rws[k].rh, acts[k]) {
      RunKeepsTrace(rws, acts, trs, k);
      CurrentIsVouched(rws[k], trs[k], acts[k]);
    }
  }

  lemma TraceLength(rws: seq<ReadWorld>, acts: seq<Action>, trs: seq<Trace>)
    requires TraceRun(rws, acts, trs)
    ensures |rws| == |acts| + 1 == |trs|
  {
  }
}
