/**
 ReadIndex over runs of the cluster. A read is fresh when it is served at an index no lower than
 every commit index any node had reached when the leader accepted it.

 A leader takes a `ReadProbeResp` carrying its own term as an answer to its own probe. A node
 answers a probe of an older term with its own, newer term and the probe's number. If the prober
 restarts, forgetting its probe numbers, and then leads that newer term, such an old reply counts
 for a read it knows nothing of (`StaleRead.StaleReadServed`). A read is fresh whenever a quorum truly
 vouches for it, whatever else was counted (`ServedReadsAreFresh`), and a quorum does unless a reply
 forged in that way, numbered for this read or a later one, was counted (`GenuineUnlessTainted`).
*/
module ReadIndex {
  import opened Types
  import opened RaftSpec
  import opened Cluster
  import opened ClusterInv
  import opened ClusterFacts
  import opened ClusterGrowth
  import opened ClusterSettle
  import opened ClusterStep
  import opened ClusterEvents
  import opened ClusterSafety
  import opened ClusterTheorems

  /** What had been committed, and which terms had leaders, when a read was accepted. */
  datatype ReadRecord = ReadRecord(commits: set<Commit>, elected: set<nat>)

  /**
   Reads by the leader's term and probe number; `vouched`: replies given in the prober's own term;
   `base`: the number of each term's leader's latest probe when it was elected; `forged`: the terms and
   numbers of replies a leader counted that were neither vouched nor too old to count.
  */
  datatype ReadHistory = ReadHistory(
    accepted: map<(nat, nat), ReadRecord>, vouched: set<Packet>, base: map<nat, nat>, forged: set<(nat, nat)>)

  const NO_READS := ReadHistory(map[], {}, map[], {})

  datatype ReadWorld = ReadWorld(w: World, rh: ReadHistory)

  ghost predicate AcceptsNow(w: World, a: Action) {
    a.ClientRead? && a.node in w.nodes && AcceptsRead(w.nodes[a.node])
  }

  /** The event answers a probe of the node's own term. */
  ghost predicate AnswersProbe(w: World, a: Action) {
    a.Deliver? && a.packet.msg.ReadProbe? && a.packet.to in w.nodes && a.packet.msg.term == w.nodes[a.packet.to].term
  }

  /** A leader is about to count a reply. */
  ghost predicate CountsReply(w: World, a: Action) {
    a.Deliver? && a.packet.msg.ReadProbeResp? && a.packet.to in w.nodes && !w.nodes[a.packet.to].failed
    && w.nodes[a.packet.to].role == Leader && w.nodes[a.packet.to].term == a.packet.msg.term
  }

  /** A reply about to be counted was given in the leader's term, or is too old to count for any read of the reign. */
  ghost predicate Vouched(w: World, rh: ReadHistory, a: Action) {
    CountsReply(w, a) ==>
      a.packet in rh.vouched || (a.packet.msg.term in rh.base && a.packet.msg.seqno <= rh.base[a.packet.msg.term])
  }

  ghost function RecordReads(w: World, rh: ReadHistory, a: Action): ReadHistory
    requires Enabled(w, a)
  {
    var n := w.nodes[Actor(a)];
    var x := React(n, a).node;
    ReadHistory(
      if AcceptsNow(w, a) then rh.accepted[(n.term, n.readSeq + 1) := ReadRecord(w.h.commits, w.h.book.elections.Keys)]
      else rh.accepted,
      if AnswersProbe(w, a) then rh.vouched + React(n, a).sent else rh.vouched,
      if x.role == Leader && x.term !in rh.base then rh.base[x.term := x.readSeq] else rh.base,
      if Vouched(w, rh, a) then rh.forged else rh.forged + {(a.packet.msg.term, a.packet.msg.seqno)})
  }

  ghost function ReadNext(rw: ReadWorld, a: Action): ReadWorld
    requires Enabled(rw.w, a)
  {
    ReadWorld(Next(rw.w, a), RecordReads(rw.w, rw.rh, a))
  }

  // ---- the invariant ------------------------------------------------------------------

  /** `u` had not voted in a later election when the reads it vouches for were accepted. */
  ghost predicate NotDeposing(elections: map<nat, Election>, rec: ReadRecord, T: nat, u: NodeId) {
    forall T2 :: T2 in rec.elected && T2 > T ==> T2 in elections && u !in elections[T2].voters
  }

  ghost predicate ReplyOk(elections: map<nat, Election>, net: set<Packet>, rh: ReadHistory, p: Packet) {
    && p.msg.ReadProbeResp? && p.from != p.to
    && Packet(p.to, p.from, ReadProbe(p.msg.term, p.to, p.msg.seqno)) in net
    && forall k ::
         k in rh.accepted && k.0 == p.msg.term && k.1 <= p.msg.seqno ==>
           NotDeposing(elections, rh.accepted[k], k.0, p.from)
  }

  ghost predicate RepliesOk(elections: map<nat, Election>, net: set<Packet>, rh: ReadHistory) {
    forall p {:trigger ReplyOk(elections, net, rh, p)} :: p in rh.vouched ==> ReplyOk(elections, net, rh, p)
  }

  /** A probe of a term comes from the leader the term elected. */
  ghost predicate ProbesOk(elections: map<nat, Election>, net: set<Packet>) {
    forall p ::
      p in net && p.msg.ReadProbe? ==> p.msg.term in elections && elections[p.msg.term].leader == p.from == p.msg.leader
  }

  /** Node `u` answered a probe of `v` in its term `T`, one with number `s` or later. */
  ghost predicate VouchedBy(rh: ReadHistory, u: NodeId, v: NodeId, T: nat, s: nat) {
    exists p ::
      p in rh.vouched && p.msg.ReadProbeResp? && p.from == u && p.to == v && p.msg.term == T && p.msg.seqno >= s
  }

  ghost predicate AllVouch(rh: ReadHistory, q: set<NodeId>, v: NodeId, T: nat, s: nat) {
    forall u :: u in q && u != v ==> VouchedBy(rh, u, v, T, s)
  }

  /** A quorum, the leader included, truly vouches for the read numbered `s`. */
  ghost predicate Genuine(rh: ReadHistory, members: set<NodeId>, v: NodeId, T: nat, s: nat) {
    exists q :: IsQuorum(members, q) && AllVouch(rh, q, v, T, s)
  }

  /** A reply was counted in term `T` for the read numbered `s`, or a later one, that had not been given in `T`. */
  ghost predicate Tainted(rh: ReadHistory, T: nat, s: nat) {
    exists k :: k in rh.forged && k.0 == T && k.1 >= s
  }

  /** Everything committed by then, as far as terms up to this one go, is below the read index. */
  ghost predicate ReadOk(n: Node, rh: ReadHistory, r: PendingRead) {
    && 0 < r.seqno <= n.readSeq && (n.term, r.seqno) in rh.accepted
    && r.readIndex <= n.commitIndex
    && (forall c :: c in rh.accepted[(n.term, r.seqno)].commits && c.term <= n.term ==> c.index <= r.readIndex)
    && (r.confirmed && !Tainted(rh, n.term, r.seqno) ==> Genuine(rh, n.members, n.id, n.term, r.seqno))
  }

  ghost predicate AckedOk(n: Node, rh: ReadHistory) {
    n.term in rh.base && forall u :: u in n.probeAcked ==>
      || n.probeAcked[u] <= rh.base[n.term] || (n.term, n.probeAcked[u]) in rh.forged
      || Packet(u, n.id, ReadProbeResp(n.term, n.probeAcked[u])) in rh.vouched
  }

  /** The leader's numbers are those of its reign, or from before it. */
  ghost predicate BaseOk(n: Node, rh: ReadHistory) {
    n.term in rh.base && rh.base[n.term] <= n.readSeq
  }

  /** The accepted reads of term `T` have numbers up to `s`, and so do its probes. */
  ghost predicate KeysBelow(T: nat, s: nat, rh: ReadHistory) {
    forall k :: k in rh.accepted && k.0 == T ==> k.1 <= s
  }

  ghost predicate ProbesBelow(T: nat, s: nat, net: set<Packet>) {
    forall p :: p in net && p.msg.ReadProbe? && p.msg.term == T ==> p.msg.seqno <= s
  }

  ghost predicate PendingOk(n: Node, rh: ReadHistory) {
    forall r :: r in n.pendingReads ==> ReadOk(n, rh, r)
  }

  ghost predicate LeaderReadsOk(net: set<Packet>, rh: ReadHistory, n: Node) {
    if n.role == Leader then
      && PendingOk(n, rh) && AckedOk(n, rh) && BaseOk(n, rh)
      && KeysBelow(n.term, n.readSeq, rh) && ProbesBelow(n.term, n.readSeq, net)
    else n.pendingReads == []
  }

  ghost predicate AcceptedOk(w: World, rh: ReadHistory) {
    rh.base.Keys <= w.h.book.elections.Keys && forall k :: k in rh.accepted ==>
      && k.0 in w.h.book.elections && k.0 in rh.base && k.1 > rh.base[k.0]
      && rh.accepted[k].elected <= w.h.book.elections.Keys
      && forall c :: c in rh.accepted[k].commits ==> c.term in rh.accepted[k].elected
  }

  ghost predicate ReadInv(rw: ReadWorld) {
    && Inv(rw.w)
    && AcceptedOk(rw.w, rw.rh)
    && ProbesOk(rw.w.h.book.elections, rw.w.net)
    && RepliesOk(rw.w.h.book.elections, rw.w.net, rw.rh)
    && (forall v {:trigger LeaderReadsOk(rw.w.net, rw.rh, rw.w.nodes[v])} ::
          v in rw.w.nodes ==> LeaderReadsOk(rw.w.net, rw.rh, rw.w.nodes[v]))
  }

  // ---- what events do to the fields ReadIndex uses ---------------------------------------

  /** The leader stayed leader of its term. */
  ghost predicate SameReign(n: Node, m: Node) {
    n.role == Leader && m.role == Leader && n.term == m.term && n.readSeq <= m.readSeq && n.commitIndex <= m.commitIndex
  }

  ghost predicate ReadFieldsKept(n: Node, m: Node) {
    && m.pendingReads == n.pendingReads && m.readSeq == n.readSeq && n.term <= m.term
    && (m.role == Leader ==>
        (SameReign(n, m) && m.probeAcked == n.probeAcked)
          || (n.role == Candidate && m.term == n.term && m.probeAcked == map[]))
  }

  lemma AdvanceKeeps(n: Node)
    ensures var m := AdvanceDurable(n); m == n.(durableIndex := m.durableIndex, parked := m.parked)
  {
  }

  lemma MaybeCommitKeeps(n: Node)
    ensures var m := MaybeCommit(n); m == n.(commitIndex := m.commitIndex) && m.commitIndex >= n.commitIndex
  {
  }

  lemma OnDurableKeeps(n: Node, a: Persist)
    ensures ReadFieldsKept(n, OnDurable(n, a).node)
  {
    hide AdvanceDurable, MaybeCommit;
    if a.LogDurable? {
      var index := Min(a.index, |n.log|);
      var p := n.(parked := n.parked + [(a.from, index)]);
      AdvanceKeeps(p);
      MaybeCommitKeeps(if index > n.durableIndex then AdvanceDurable(p) else n);
    }
  }

  lemma SyncedKeeps(n: Node, k: nat)
    requires k < |n.batches|
    ensures ReadFieldsKept(n, OnSynced(n, k).node)
  {
    hide OnDurable, NoteHard;
    var bs := n.batches[..k] + n.batches[k + 1..];
    var m := NoteHard(n.(batches := bs), n.batches[k].hard);
    NoteHardReads(n.(batches := bs), n.batches[k].hard);
    OnDurableKeeps(m, n.batches[k].action);
  }

  lemma NoteHardReads(n: Node, hard: Option<HardState>)
    ensures var m := NoteHard(n, hard);
      m.pendingReads == n.pendingReads && m.readSeq == n.readSeq && m.probeAcked == n.probeAcked && m.role == n.role
      && m.term == n.term && m.commitIndex == n.commitIndex
  {
    hide AdvanceDurable;
    if hard.Some? {
      var m := if hard.value.seqno >= n.durableHard.seqno then n.(durableHard := hard.value) else n;
      AdvanceKeeps(m.(durableTerm := hard.value.term));
    }
  }

  lemma AppendRespKeeps(n: Node, from: NodeId, T: nat, success: bool, m: nat, conflict: nat)
    ensures ReadFieldsKept(n, OnAppendResp(n, from, T, success, m, conflict).node)
  {
    hide MaybeCommit;
    var best := Max(if from in n.matchIndex then n.matchIndex[from] else NO_INDEX, m);
    MaybeCommitKeeps(n.(matchIndex := n.matchIndex[from := best], nextIndex := n.nextIndex[from := best + 1]));
  }

  lemma AcceptKeeps(n: Node, from: NodeId, prev: nat, entries: seq<Entry>, dirty: bool)
    requires prev <= |n.log|
    ensures var m := Accept(n, from, prev, entries, dirty).node;
      m.pendingReads == n.pendingReads && m.readSeq == n.readSeq && m.role == n.role && m.term == n.term
  {
  }

  lemma AppendKeeps(n: Node, from: NodeId, T: nat, prev: nat, prevTerm: nat, entries: seq<Entry>, commit: nat)
    ensures ReadFieldsKept(n, OnAppendEntries(n, from, T, prev, prevTerm, entries, commit).node)
  {
    hide Accept;
    if T >= n.term {
      var m := Concede(if T > n.term then StepDown(n, T) else n);
      if TermAt(m.log, prev) == Some(prevTerm) { AcceptKeeps(m, from, prev, entries, T > n.term); }
    }
  }

  lemma MessageKeeps(n: Node, from: NodeId, msg: Message, ignore: bool)
    requires !msg.ReadProbeResp?
    ensures ReadFieldsKept(n, OnMessage(n, from, msg, ignore).node)
  {
    hide OnAppendEntries, OnAppendResp;
    match msg {
      case AppendEntries(T, _, prev, prevTerm, entries, commit) =>
        AppendKeeps(n, from, T, prev, prevTerm, entries, commit);
      case AppendEntriesResp(T, success, m, conflict) => AppendRespKeeps(n, from, T, success, m, conflict);
      case _ =>
    }
  }

  /** Every event but accepting a read, counting a reply and crashing leaves the reads alone. */
  lemma EventKeeps(n: Node, a: Action)
    requires a.Synced? || a.StorageFails? ==> a.batch < |n.batches|
    requires !(a.Deliver? && a.packet.msg.ReadProbeResp?) && !a.Crash? && !(a.ClientRead? && AcceptsRead(n))
    ensures ReadFieldsKept(n, React(n, a).node)
  {
    hide OnMessage, OnSynced;
    match a {
      case Deliver(p, ignore) => MessageKeeps(n, p.from, p.msg, ignore);
      case Synced(_, k) => SyncedKeeps(n, k);
      case _ =>
    }
  }

  // ---- probes and replies --------------------------------------------------------------------

  /** A probe is the leader's, with its latest number. */
  ghost predicate ProbesOwn(m: Node, sent: set<Packet>) {
    forall p :: p in sent && p.msg.ReadProbe? ==>
      p.from == m.id && p.msg.leader == m.id && m.role == Leader && p.msg.term == m.term && p.msg.seqno == m.readSeq
  }

  lemma SyncedSends(h: History, net: set<Packet>, n: Node, k: nat)
    requires NodeOk(h, net, n) && k < |n.batches|
    ensures forall p :: p in OnSynced(n, k).sent ==> !p.msg.ReadProbe?
  {
    hide OnDurable, NoteHard;
    var b := n.batches[k];
    BatchAt(h, net, n, b);
    hide NodeOk;
    DurableSends(NoteHard(n.(batches := n.batches[..k] + n.batches[k + 1..]), b.hard), b.action);
  }

  lemma DurableSends(n: Node, a: Persist)
    requires a.Reply? ==> !a.msg.ReadProbe?
    ensures forall p :: p in OnDurable(n, a).sent ==> !p.msg.ReadProbe?
  {
    hide AdvanceDurable, MaybeCommit;
  }

  lemma MessageSends(n: Node, from: NodeId, msg: Message, ignore: bool)
    ensures forall p :: p in OnMessage(n, from, msg, ignore).sent ==> !p.msg.ReadProbe?
  {
    hide MaybeCommit, Adopt, FirstNew, UpToDate;
  }

  lemma EventSends(h: History, net: set<Packet>, n: Node, a: Action)
    requires NodeOk(h, net, n) && (a.Synced? || a.StorageFails? ==> a.batch < |n.batches|)
    ensures ProbesOwn(React(n, a).node, React(n, a).sent)
  {
    hide NodeOk, OnMessage, OnSynced;
    match a {
      case Deliver(p, ignore) => MessageSends(n, p.from, p.msg, ignore);
      case Synced(_, k) => SyncedSends(h, net, n, k);
      case _ =>
    }
  }

  /** A node in the prober's term answers to the prober, in that term. */
  lemma AnswerSends(n: Node, from: NodeId, ld: NodeId, T: nat, seqno: nat, ignore: bool, p: Packet)
    requires T == n.term && p in OnMessage(n, from, ReadProbe(T, ld, seqno), ignore).sent
    ensures p == Packet(n.id, from, ReadProbeResp(T, seqno))
  {
  }

  // ---- one step --------------------------------------------------------------------------------

  /** One step of node `n`, which reacts by becoming `x`. */
  ghost predicate Stepped(rw: ReadWorld, a: Action, n: Node, x: Node, rw': ReadWorld) {
    && ReadInv(rw) && Enabled(rw.w, a) && rw' == ReadNext(rw, a)
    && n == rw.w.nodes[Actor(a)] && x == React(n, a).node
  }

  lemma SteppedFacts(rw: ReadWorld, a: Action, n: Node, x: Node, rw': ReadWorld)
    requires Stepped(rw, a, n, x, rw')
    ensures Inv(rw.w) && Inv(rw'.w) && Extends(rw.w.h, rw'.w.h) && rw.w.net <= rw'.w.net
    ensures rw'.w.members == rw.w.members == x.members
    ensures Of(rw.w, n) && n.id == Actor(a) && NodeOk(rw.w.h, rw.w.net, n) && n.members == rw.w.members && x.id == n.id
    ensures rw'.w.nodes == rw.w.nodes[n.id := Drain(x)] && rw'.w.net == rw.w.net + React(n, a).sent
    ensures rw'.rh == RecordReads(rw.w, rw.rh, a)
  {
    hide Inv, Next, React, Drain, RecordReads, NodeOk, LeaderReadsOk, AcceptedOk, RepliesOk, ProbesOk, Extends;
    StepKeepsInv(rw.w, a);
    NodeAt(rw.w, Actor(a));
    ReactId(rw.w, a);
    NextWorld(rw.w, a);
  }

  lemma NextWorld(w: World, a: Action)
    requires Enabled(w, a)
    ensures var n, w' := w.nodes[Actor(a)], Next(w, a);
      && w'.members == w.members && w'.net == w.net + React(n, a).sent
      && w'.nodes == w.nodes[Actor(a) := Drain(React(n, a).node)]
  {
    hide React, Drain, Record;
  }

  lemma ReadFacts(rw: ReadWorld, v: NodeId)
    requires ReadInv(rw) && v in rw.w.nodes
    ensures LeaderReadsOk(rw.w.net, rw.rh, rw.w.nodes[v]) && AcceptedOk(rw.w, rw.rh)
    ensures ProbesOk(rw.w.h.book.elections, rw.w.net) && RepliesOk(rw.w.h.book.elections, rw.w.net, rw.rh)
  {
    hide LeaderReadsOk;
    assert LeaderReadsOk(rw.w.net, rw.rh, rw.w.nodes[v]);
  }

  lemma LeadersTerm(w: World, v: NodeId)
    requires Inv(w) && v in w.nodes && w.nodes[v].role == Leader
    ensures var n := w.nodes[v]; n.term in w.h.book.elections && w.h.book.elections[n.term].leader == v
  {
    hide Inv;
    NodeAt(w, v);
  }

  lemma SoundId(w: World, n: Node, r: Reaction)
    requires Sound(w, n, r)
    ensures r.node.id == n.id && r.node.members == n.members
  {
  }

  lemma ReactId(w: World, a: Action)
    requires Inv(w) && Enabled(w, a)
    ensures React(w.nodes[Actor(a)], a).node.id == w.nodes[Actor(a)].id
    ensures React(w.nodes[Actor(a)], a).node.members == w.nodes[Actor(a)].members
  {
    hide Inv, Sound, React;
    ReactSound(w, a);
    SoundId(w, w.nodes[Actor(a)], React(w.nodes[Actor(a)], a));
  }

  /** What the step sent of probes, and that every probe is still its leader's. */
  lemma ProbesStay(rw: ReadWorld, a: Action, n: Node, x: Node, rw': ReadWorld)
    requires Stepped(rw, a, n, x, rw')
    ensures ProbesOwn(x, React(n, a).sent)
    ensures ProbesOk(rw'.w.h.book.elections, rw'.w.net)
  {
    hide Inv, React, Drain, RecordReads, NodeOk, LeaderReadsOk;
    SteppedFacts(rw, a, n, x, rw');
    ReadFacts(rw, n.id);
    hide ReadInv;
    EventSends(rw.w.h, rw.w.net, n, a);
    var sent := React(n, a).sent;
    if p :| p in sent && p.msg.ReadProbe? {
      DrainRole(x);
      LeadersTerm(rw'.w, n.id);
    }
    hide Stepped, Extends;
    ExtendsElections(rw.w.h, rw'.w.h);
  }

  lemma DrainRole(x: Node)
    ensures Drain(x).role == x.role && Drain(x).term == x.term && Drain(x).id == x.id
  {
  }

  lemma ExtendsElections(h: History, h': History)
    requires Extends(h, h')
    ensures forall T :: T in h.book.elections ==> T in h'.book.elections && h'.book.elections[T] == h.book.elections[T]
  {
  }

  lemma CommitsElected(w: World)
    requires Inv(w)
    ensures forall c :: c in w.h.commits ==> c.term in w.h.book.elections
  {
    assert forall c :: c in w.h.commits ==> OwnIndex(w.h.book.termLog, c.term, c.index);
  }

  /** The read history only grows, and by the acting leader's new read only. */
  ghost predicate Grows(rh: ReadHistory, rh': ReadHistory) {
    && (forall k :: k in rh.accepted ==> k in rh'.accepted && rh'.accepted[k] == rh.accepted[k])
      && rh.vouched <= rh'.vouched && rh.forged <= rh'.forged
    && (forall T :: T in rh.base ==> T in rh'.base && rh'.base[T] == rh.base[T])
  }

  ghost predicate NewKeys(w: World, a: Action, n: Node, rh: ReadHistory, rh': ReadHistory) {
    forall k :: k in rh'.accepted && k !in rh.accepted ==> AcceptsNow(w, a) && k == (n.term, n.readSeq + 1)
  }

  lemma AcceptedStays(rw: ReadWorld, a: Action, n: Node, x: Node, rw': ReadWorld)
    requires Stepped(rw, a, n, x, rw')
    ensures AcceptedOk(rw'.w, rw'.rh) && Grows(rw.rh, rw'.rh) && NewKeys(rw.w, a, n, rw.rh, rw'.rh)
  {
    hide Inv, React, Drain, NodeOk, Of, ReplyOk, RepliesOk, ProbesOk, Stepped, Extends, Enabled, AcceptedOk,
         RecordReads, KeysBelow, Grows, NewKeys;
    SteppedFacts(rw, a, n, x, rw');
    SteppedInv(rw, a, n, x, rw');
    ReadFacts(rw, n.id);
    hide ReadInv, ReadNext, PendingOk, AckedOk, ProbesBelow;
    ExtendsElections(rw.w.h, rw'.w.h);
    CommitsElected(rw.w);
    if AcceptsNow(rw.w, a) { LeadersTerm(rw.w, n.id); }
    DrainRole(x);
    if x.role == Leader { LeadersTerm(rw'.w, n.id); }
    RecordGrows(rw.w, rw.rh, a, n, x, rw'.w);
  }

  /** What a step adds to the record, in the terms of the node `n` that became `x`. */
  lemma RecordShape(w: World, rh: ReadHistory, a: Action, n: Node, x: Node)
    requires Enabled(w, a) && n == w.nodes[Actor(a)] && x == React(n, a).node
    requires AcceptsNow(w, a) ==> (n.term, n.readSeq + 1) !in rh.accepted
    ensures var rh' := RecordReads(w, rh, a); Grows(rh, rh') && NewKeys(w, a, n, rh, rh')
    ensures forall k :: k in RecordReads(w, rh, a).accepted && k !in rh.accepted ==>
      RecordReads(w, rh, a).accepted[k] == ReadRecord(w.h.commits, w.h.book.elections.Keys)
    ensures forall T :: T in RecordReads(w, rh, a).base && T !in rh.base ==> x.role == Leader && T == x.term
  {
    hide React, AcceptsNow;
  }

  lemma RecordGrows(w: World, rh: ReadHistory, a: Action, n: Node, x: Node, w': World)
    requires Enabled(w, a) && n == w.nodes[Actor(a)] && x == React(n, a).node && AcceptedOk(w, rh)
    requires AcceptsNow(w, a) ==> n.term in w.h.book.elections && KeysBelow(n.term, n.readSeq, rh) && BaseOk(n, rh)
    requires x.role == Leader ==> x.term in w'.h.book.elections
    requires forall c :: c in w.h.commits ==> c.term in w.h.book.elections
    requires forall T :: T in w.h.book.elections ==> T in w'.h.book.elections
    ensures var rh' := RecordReads(w, rh, a); AcceptedOk(w', rh') && Grows(rh, rh') && NewKeys(w, a, n, rh, rh')
  {
    hide React, AcceptsNow, RecordReads, Enabled;
    if AcceptsNow(w, a) { assert (n.term, n.readSeq + 1) !in rh.accepted; }
    RecordShape(w, rh, a, n, x);
  }

  lemma SteppedInv(rw: ReadWorld, a: Action, n: Node, x: Node, rw': ReadWorld)
    requires Stepped(rw, a, n, x, rw')
    ensures ReadInv(rw) && Enabled(rw.w, a) && n == rw.w.nodes[n.id] && n.id in rw.w.nodes && x == React(n, a).node
    ensures n.id == Actor(a)
    ensures rw' == ReadNext(rw, a)
  {
    hide Inv, ReadInv, React, NodeOk;
    SteppedFacts(rw, a, n, x, rw');
  }

  // ---- replies stay good -------------------------------------------------------------------------

  lemma ReplyStays(rw: ReadWorld, a: Action, n: Node, x: Node, rw': ReadWorld, p: Packet)
    requires Stepped(rw, a, n, x, rw') && p in rw.rh.vouched
    ensures ReplyOk(rw'.w.h.book.elections, rw'.w.net, rw'.rh, p)
  {
    hide Inv, React, Drain, NodeOk, Of, ReadOk, RecordReads, Stepped, Enabled, Extends;
    SteppedFacts(rw, a, n, x, rw');
    AcceptedStays(rw, a, n, x, rw');
    SteppedInv(rw, a, n, x, rw');
    ReadFacts(rw, n.id);
    hide ReadInv;
    ExtendsElections(rw.w.h, rw'.w.h);
    assert ReplyOk(rw.w.h.book.elections, rw.w.net, rw.rh, p);
    if AcceptsNow(rw.w, a) { LeadersTerm(rw.w, n.id); }
    forall k | k in rw'.rh.accepted && k.0 == p.msg.term && k.1 <= p.msg.seqno
      ensures k in rw.rh.accepted && NotDeposing(rw.w.h.book.elections, rw.rh.accepted[k], k.0, p.from)
    {
      assert Packet(p.to, p.from, ReadProbe(p.msg.term, p.to, p.msg.seqno)) in rw.w.net;
    }
  }

  /** A node in term `T` is no voter of a later election. */
  lemma NoLaterVoter(w: World, v: NodeId, T2: nat)
    requires Inv(w) && v in w.nodes && T2 in w.h.book.elections && T2 > w.nodes[v].term
    ensures v !in w.h.book.elections[T2].voters
  {
    hide Inv;
    NodeAt(w, v);
    var n := w.nodes[v];
    assert n.durableTerm <= n.term;
  }

  lemma NewReplyRecord(rw: ReadWorld, n: Node, h': History, k: (nat, nat))
    requires Inv(rw.w) && AcceptedOk(rw.w, rw.rh) && k in rw.rh.accepted && k.0 == n.term
    requires n.id in rw.w.nodes && n == rw.w.nodes[n.id] && Extends(rw.w.h, h')
    ensures NotDeposing(h'.book.elections, rw.rh.accepted[k], n.term, n.id)
  {
    hide Inv;
    forall T2 | T2 in rw.rh.accepted[k].elected && T2 > n.term
      ensures T2 in h'.book.elections && n.id !in h'.book.elections[T2].voters
    {
      NoLaterVoter(rw.w, n.id, T2);
    }
  }

  lemma NewReplyOk(rw: ReadWorld, a: Action, n: Node, x: Node, rw': ReadWorld, p: Packet)
    requires Stepped(rw, a, n, x, rw') && AnswersProbe(rw.w, a) && p in React(n, a).sent
    ensures ReplyOk(rw'.w.h.book.elections, rw'.w.net, rw'.rh, p)
  {
    hide Inv, React, Drain, NodeOk, Of, ReadOk, RecordReads, Stepped, Enabled, Extends, OnMessage, LeaderReadsOk,
         PacketOk;
    var q := a.packet;
    SteppedFacts(rw, a, n, x, rw');
    AcceptedStays(rw, a, n, x, rw');
    SteppedInv(rw, a, n, x, rw');
    ReadFacts(rw, n.id);
    hide ReadInv;
    Delivered(rw.w, n, q, a.ignore);
    AnswerSends(n, q.from, q.msg.leader, q.msg.term, q.msg.seqno, a.ignore, p);
    forall k | k in rw'.rh.accepted && k.0 == p.msg.term && k.1 <= p.msg.seqno
      ensures NotDeposing(rw'.w.h.book.elections, rw'.rh.accepted[k], k.0, p.from)
    {
      NewReplyRecord(rw, n, rw'.w.h, k);
    }
  }

  lemma Delivered(w: World, n: Node, q: Packet, ignore: bool)
    requires Inv(w) && Enabled(w, Deliver(q, ignore))
    ensures q in w.net && q.from != q.to && React(n, Deliver(q, ignore)) == OnMessage(n, q.from, q.msg, ignore)
  {
    assert PacketOk(w.h, q);
  }

  lemma RepliesStay(rw: ReadWorld, a: Action, n: Node, x: Node, rw': ReadWorld)
    requires Stepped(rw, a, n, x, rw')
    ensures RepliesOk(rw'.w.h.book.elections, rw'.w.net, rw'.rh)
  {
    hide ReplyOk, Inv, ReadInv, React;
    forall p | p in rw'.rh.vouched ensures ReplyOk(rw'.w.h.book.elections, rw'.w.net, rw'.rh, p) {
      if p in rw.rh.vouched { ReplyStays(rw, a, n, x, rw', p); } else { NewReplyOk(rw, a, n, x, rw', p); }
    }
  }

  // ---- the numbers of reads and probes -------------------------------------------------------------

  lemma GenuineStays(rh: ReadHistory, rh': ReadHistory, members: set<NodeId>, v: NodeId, T: nat, s: nat)
    requires Grows(rh, rh')
    ensures Genuine(rh, members, v, T, s) ==> Genuine(rh', members, v, T, s)
    ensures Tainted(rh, T, s) ==> Tainted(rh', T, s)
  {
    if Genuine(rh, members, v, T, s) {
      var q :| IsQuorum(members, q) && AllVouch(rh, q, v, T, s);
      forall u | u in q && u != v ensures VouchedBy(rh', u, v, T, s) {
        assert VouchedBy(rh, u, v, T, s);
        var p :|
          p in rh.vouched && p.msg.ReadProbeResp? && p.from == u && p.to == v && p.msg.term == T && p.msg.seqno >= s;
        assert p in rh'.vouched;
      }
      assert AllVouch(rh', q, v, T, s);
    }
  }

  lemma ReadStays(n: Node, m: Node, rh: ReadHistory, rh': ReadHistory, r: PendingRead)
    requires ReadOk(n, rh, r) && SameReign(n, m) && Grows(rh, rh') && m.id == n.id && m.members == n.members
    ensures ReadOk(m, rh', r)
  {
    hide Genuine, Tainted;
    GenuineStays(rh, rh', n.members, n.id, n.term, r.seqno);
  }

  /** Packets of other leaders and of a leader's latest number keep its probes below its number. */
  lemma ProbesGrow(net: set<Packet>, sent: set<Packet>, x: Node, T: nat, s: nat)
    requires ProbesBelow(T, s, net) && ProbesOwn(x, sent)
    requires x.role == Leader && x.term == T ==> x.readSeq <= s
    ensures ProbesBelow(T, s, net + sent)
  {
  }

  lemma OtherReadsOk(rw: ReadWorld, a: Action, n: Node, x: Node, rw': ReadWorld, v: NodeId)
    requires Stepped(rw, a, n, x, rw') && v in rw.w.nodes && v != n.id
    ensures LeaderReadsOk(rw'.w.net, rw'.rh, rw.w.nodes[v])
  {
    hide Inv, React, Drain, NodeOk, Of, ReadOk, RecordReads, Stepped, Extends, ProbesOwn, ProbesBelow, ProbesOk,
         RepliesOk, AcceptedOk;
    var u := rw.w.nodes[v];
    SteppedFacts(rw, a, n, x, rw');
    SteppedInv(rw, a, n, x, rw');
    AcceptedStays(rw, a, n, x, rw');
    ProbesStay(rw, a, n, x, rw');
    ReadFacts(rw, v);
    hide ReadInv;
    if u.role == Leader {
      LeadersTerm(rw.w, v);
      LeadersTerm(rw'.w, v);
      if AcceptsNow(rw.w, a) { LeadersTerm(rw.w, n.id); }
      DrainRole(x);
      if x.role == Leader { LeadersTerm(rw'.w, n.id); }
      ProbesGrow(rw.w.net, React(n, a).sent, x, u.term, u.readSeq);
      forall r | r in u.pendingReads ensures ReadOk(u, rw'.rh, r) { ReadStays(u, u, rw.rh, rw'.rh, r); }
    }
  }

  lemma DrainReads(net: set<Packet>, rh: ReadHistory, m: Node)
    requires m.role == Leader ==> LeaderReadsOk(net, rh, m)
    ensures LeaderReadsOk(net, rh, Drain(m))
  {
    hide ReadOk;
    var d := Drain(m);
    if m.role == Leader {
      forall r | r in d.pendingReads ensures ReadOk(d, rh, r) { ReadDrained(m, rh, r); }
    }
  }

  lemma ReadDrained(m: Node, rh: ReadHistory, r: PendingRead)
    requires ReadOk(m, rh, r)
    ensures ReadOk(Drain(m), rh, r)
  {
  }

  // ---- the acting node -----------------------------------------------------------------------------

  /** Through a reign, the numbers stay bounds. */
  lemma ReignNumbers(rw: ReadWorld, a: Action, n: Node, x: Node, rw': ReadWorld)
    requires Stepped(rw, a, n, x, rw') && SameReign(n, x) && (AcceptsNow(rw.w, a) ==> x.readSeq == n.readSeq + 1)
    ensures KeysBelow(x.term, x.readSeq, rw'.rh) && ProbesBelow(x.term, x.readSeq, rw'.w.net)
    ensures PendingOk(n, rw.rh) && AckedOk(n, rw.rh) && Grows(rw.rh, rw'.rh) && BaseOk(x, rw'.rh)
  {
    hide Inv, React, Drain, NodeOk, Of, ReadOk, RecordReads, Stepped, Extends, ProbesOwn, ProbesOk, RepliesOk,
         AcceptedOk, PendingOk, AckedOk;
    SteppedFacts(rw, a, n, x, rw');
    SteppedInv(rw, a, n, x, rw');
    AcceptedStays(rw, a, n, x, rw');
    ProbesStay(rw, a, n, x, rw');
    ReadFacts(rw, n.id);
    hide ReadInv;
    ProbesGrow(rw.w.net, React(n, a).sent, x, x.term, x.readSeq);
  }

  lemma KeptReadsOk(rw: ReadWorld, a: Action, n: Node, x: Node, rw': ReadWorld)
    requires Stepped(rw, a, n, x, rw') && SameReign(n, x) && ReadFieldsKept(n, x) && x.id == n.id
    requires x.members == n.members && x.probeAcked == n.probeAcked && !AcceptsNow(rw.w, a)
    ensures LeaderReadsOk(rw'.w.net, rw'.rh, x)
  {
    hide Stepped, ReadOk, KeysBelow, ProbesBelow, AcceptsNow;
    ReignNumbers(rw, a, n, x, rw');
    forall r | r in x.pendingReads ensures ReadOk(x, rw'.rh, r) { ReadStays(n, x, rw.rh, rw'.rh, r); }
  }

  /** A new leader's term is new: nothing was read or probed in it. */
  lemma NewLeaderReadsOk(rw: ReadWorld, a: Action, n: Node, x: Node, rw': ReadWorld)
    requires Stepped(rw, a, n, x, rw') && !AcceptsNow(rw.w, a) && n.role == Candidate && x.role == Leader
    requires x.term == n.term
    requires x.pendingReads == n.pendingReads && x.probeAcked == map[]
    ensures LeaderReadsOk(rw'.w.net, rw'.rh, x)
  {
    hide Inv, React, Drain, NodeOk, Of, ReadOk, RecordReads, Stepped, Enabled, Extends, RepliesOk, AcceptsNow;
    SteppedFacts(rw, a, n, x, rw');
    SteppedInv(rw, a, n, x, rw');
    AcceptedStays(rw, a, n, x, rw');
    ProbesStay(rw, a, n, x, rw');
    ReadFacts(rw, n.id);
    hide ReadInv;
    DrainRole(x);
    LeadersTerm(rw'.w, n.id);
    ExtendsElections(rw.w.h, rw'.w.h);
    CandidateTerm(rw.w, n);
    assert x.term !in rw.rh.base;
    NewBase(rw.w, rw.rh, a);
  }

  lemma NewBase(w: World, rh: ReadHistory, a: Action)
    requires Enabled(w, a)
    ensures var x := React(w.nodes[Actor(a)], a).node;
      x.role == Leader && x.term !in rh.base ==> RecordReads(w, rh, a).base == rh.base[x.term := x.readSeq]
  {
    hide React;
  }

  lemma CandidateTerm(w: World, n: Node)
    requires NodeOk(w.h, w.net, n) && n.role == Candidate
    ensures n.term in w.h.book.elections ==> w.h.book.elections[n.term].leader != n.id
  {
  }

  // ---- accepting a read ----------------------------------------------------------------------------

  /** Everything committed in earlier terms is below the leader's first own commit. */
  lemma CommittedBelow(w: World, n: Node, c: Commit)
    requires Of(w, n) && n.role == Leader && TermAt(n.log, n.commitIndex) == Some(n.term)
    requires c in w.h.commits && c.term <= n.term
    ensures c.index <= n.commitIndex
  {
    hide Of, Inv;
    LeaderBasics(w, n);
    if c.term < n.term {
      CommittedInLater(w.h, w.members, c, n.term);
      AgreeElem(w.h.book.termLog[c.term], n.log, c.index, c.index - 1);
    }
  }

  lemma LeaderBasics(w: World, n: Node)
    requires Of(w, n) && n.role == Leader
    ensures HistoryOk(w.h, w.members) && n.term in w.h.book.termLog && n.log == w.h.book.termLog[n.term]
    ensures Sorted(n.log)
    ensures n.commitIndex <= |n.log|
    ensures forall c :: c in w.h.commits && c.term == n.term ==> c.index <= n.commitIndex
    ensures forall c :: c in w.h.commits ==> OwnIndex(w.h.book.termLog, c.term, c.index)
  {
    OfHistory(w, n);
    OfOk(w, n);
    hide Of, Inv;
  }

  /** A sole member is a quorum. */
  lemma SoleMember(w: World, n: Node, rh: ReadHistory, s: nat)
    requires Of(w, n) && |n.members| == 1
    ensures Genuine(rh, n.members, n.id, n.term, s)
  {
    OfMember(w, n);
    assert n.id in n.members;
    assert IsQuorum(n.members, {n.id}) && AllVouch(rh, {n.id}, n.id, n.term, s);
  }

  lemma AcceptedReadOk(w: World, n: Node, id: nat, rh': ReadHistory)
    requires AcceptsRead(n) && Of(w, n) && (n.term, n.readSeq + 1) in rh'.accepted
    requires rh'.accepted[(n.term, n.readSeq + 1)] == ReadRecord(w.h.commits, w.h.book.elections.Keys)
    ensures ReadOk(RequestRead(n, id).node, rh', PendingRead(id, n.commitIndex, n.readSeq + 1, |n.members| == 1))
  {
    hide Inv, Of;
    forall c | c in w.h.commits && c.term <= n.term ensures c.index <= n.commitIndex { CommittedBelow(w, n, c); }
    hide Genuine, Tainted;
    if |n.members| == 1 { SoleMember(w, n, rh', n.readSeq + 1); }
  }

  lemma AcceptReadsOk(rw: ReadWorld, a: Action, n: Node, x: Node, rw': ReadWorld)
    requires Stepped(rw, a, n, x, rw') && AcceptsNow(rw.w, a)
    ensures LeaderReadsOk(rw'.w.net, rw'.rh, x)
  {
    hide Inv, Drain, NodeOk, Of, ReadOk, Stepped, Enabled, Extends, KeysBelow, ProbesBelow;
    SteppedFacts(rw, a, n, x, rw');
    SteppedInv(rw, a, n, x, rw');
    hide ReadInv;
    ReignNumbers(rw, a, n, x, rw');
    AcceptedReadOk(rw.w, n, a.id, rw'.rh);
    forall r | r in x.pendingReads ensures ReadOk(x, rw'.rh, r) {
      if r in n.pendingReads { ReadStays(n, x, rw.rh, rw'.rh, r); }
    }
  }

  // ---- counting a reply ------------------------------------------------------------------------------

  /** Who vouched for the read had not voted in a later election when the read was accepted. */
  lemma VoucherFree(rw: ReadWorld, u: NodeId, v: NodeId, T: nat, s: nat, T2: nat)
    requires RepliesOk(rw.w.h.book.elections, rw.w.net, rw.rh) && VouchedBy(rw.rh, u, v, T, s)
    requires (T, s) in rw.rh.accepted && T2 in rw.rh.accepted[(T, s)].elected && T2 > T
    ensures T2 in rw.w.h.book.elections && u !in rw.w.h.book.elections[T2].voters
  {
    var p :|
      p in rw.rh.vouched && p.msg.ReadProbeResp? && p.from == u && p.to == v && p.msg.term == T && p.msg.seqno >= s;
    assert ReplyOk(rw.w.h.book.elections, rw.w.net, rw.rh, p);
  }

  /** A quorum that vouches leaves no room for a leader of a later term at the time of the read. */
  lemma ConfirmedIsFresh(rw: ReadWorld, v: NodeId, s: nat, T2: nat)
    requires Inv(rw.w) && v in rw.w.nodes && RepliesOk(rw.w.h.book.elections, rw.w.net, rw.rh)
    requires var T := rw.w.nodes[v].term; Genuine(rw.rh, rw.w.members, v, T, s) && (T, s) in rw.rh.accepted
    requires T2 in rw.rh.accepted[(rw.w.nodes[v].term, s)].elected && T2 in rw.w.h.book.elections
    ensures T2 <= rw.w.nodes[v].term
  {
    hide Inv, RepliesOk, VouchedBy;
    var es, T := rw.w.h.book.elections, rw.w.nodes[v].term;
    ElectionQuorum(rw.w, T2);
    var q :| IsQuorum(rw.w.members, q) && AllVouch(rw.rh, q, v, T, s);
    if T2 > T {
      forall u | u in q ensures u !in es[T2].voters {
        if u == v { NoLaterVoter(rw.w, v, T2); } else { VoucherFree(rw, u, v, T, s, T2); }
      }
      QuorumsMeet(rw.w.members, q, es[T2].voters);
    }
  }

  /** What a leader counts as a quorum is one that truly vouches, unless a reply it counted for the read was forged. */
  lemma VouchersAreGenuine(x: Node, rh: ReadHistory, s: nat)
    requires AckedOk(x, rh) && s > rh.base[x.term] && !Tainted(rh, x.term, s) && x.id in x.members
    requires forall p :: p in rh.vouched ==> p.from != p.to
    requires 1 + |Vouchers(x, s)| >= Quorum(x.members)
    ensures Genuine(rh, x.members, x.id, x.term, s)
  {
    var q := Vouchers(x, s) + {x.id};
    forall u | u in Vouchers(x, s) ensures VouchedBy(rh, u, x.id, x.term, s) && u != x.id {
      assert x.probeAcked[u] >= s;
      assert (x.term, x.probeAcked[u]) !in rh.forged;
      assert Packet(u, x.id, ReadProbeResp(x.term, x.probeAcked[u])) in rh.vouched;
    }
    assert IsQuorum(x.members, q) && AllVouch(rh, q, x.id, x.term, s);
  }

  lemma ElectionQuorum(w: World, T: nat)
    requires Inv(w) && T in w.h.book.elections
    ensures IsQuorum(w.members, w.h.book.elections[T].voters)
  {
  }

  lemma MemberHas(w: World, v: NodeId)
    requires Inv(w) && v in w.nodes
    ensures v in w.members
  {
  }

  /** `r'` is `r`, perhaps confirmed by a quorum. */
  ghost predicate Confirms(x: Node, r: PendingRead, r': PendingRead) {
    && r'.readIndex == r.readIndex && r'.seqno == r.seqno
    && (r'.confirmed ==> r.confirmed || 1 + |Vouchers(x, r.seqno)| >= Quorum(x.members))
  }

  lemma ConfirmShape(m: Node, x: Node, r: PendingRead)
    requires x.members == m.members && x.probeAcked == m.probeAcked
    ensures Confirms(x, r, Confirm(m, r))
  {
    assert Vouchers(m, r.seqno) == Vouchers(x, r.seqno);
  }

  lemma ConfirmsSelf(x: Node, r: PendingRead)
    ensures Confirms(x, r, r)
  {
  }

  lemma CountedShape(n: Node, from: NodeId, T: nat, seqno: nat, x: Node)
    requires x == OnReadProbeResp(n, from, T, seqno).node && x.role == Leader
    ensures x.id == n.id && x.members == n.members && SameReign(n, x) && x.readSeq == n.readSeq
    ensures x.commitIndex == n.commitIndex
    ensures forall u :: u in x.probeAcked ==> (u in n.probeAcked && x.probeAcked[u] == n.probeAcked[u])
                                              || (u == from && T == n.term && x.probeAcked[u] == seqno)
    ensures forall r' :: r' in x.pendingReads ==> exists r :: r in n.pendingReads && Confirms(x, r, r')
  {
    hide Confirms, Confirm, Vouchers;
    if T == n.term {
      var acked := Max(if from in n.probeAcked then n.probeAcked[from] else 0, seqno);
      var m := n.(probeAcked := n.probeAcked[from := acked]);
      forall i | 0 <= i < |x.pendingReads|
        ensures n.pendingReads[i] in n.pendingReads && Confirms(x, n.pendingReads[i], x.pendingReads[i])
      {
        assert x.pendingReads[i] == Confirm(m, n.pendingReads[i]);
        ConfirmShape(m, x, n.pendingReads[i]);
      }
    } else {
      forall r | r in n.pendingReads ensures Confirms(x, r, r) { ConfirmsSelf(x, r); }
    }
  }

  lemma CountedReadOk(w: World, rh: ReadHistory, rh': ReadHistory, n: Node, x: Node, r: PendingRead, r': PendingRead)
    requires AcceptedOk(w, rh) && AckedOk(x, rh') && (forall p :: p in rh'.vouched ==> p.from != p.to)
    requires x.id in x.members
    requires ReadOk(n, rh, r) && SameReign(n, x) && Grows(rh, rh') && Confirms(x, r, r')
    requires x.id == n.id && x.members == n.members
    ensures ReadOk(x, rh', r')
  {
    hide AckedOk, Vouchers, Genuine, Tainted;
    GenuineStays(rh, rh', n.members, n.id, n.term, r.seqno);
    AckedBase(x, rh');
    if r'.confirmed && !r.confirmed && !Tainted(rh', x.term, r.seqno) {
      assert rh.base[x.term] < r.seqno;
      VouchersAreGenuine(x, rh', r.seqno);
    }
  }

  lemma AckedBase(n: Node, rh: ReadHistory)
    requires AckedOk(n, rh)
    ensures n.term in rh.base
  {
  }

  lemma CountedReadsOk(rw: ReadWorld, a: Action, n: Node, x: Node, rw': ReadWorld)
    requires Stepped(rw, a, n, x, rw') && a.Deliver? && a.packet.msg.ReadProbeResp? && x.role == Leader
    requires !n.failed
    ensures LeaderReadsOk(rw'.w.net, rw'.rh, x)
  {
    hide Inv, React, Drain, NodeOk, Of, ReadOk, RecordReads, Stepped, Enabled, Extends, KeysBelow, ProbesBelow,
         RepliesOk, AcceptedOk, Confirms, OnReadProbeResp, OnMessage, AckedOk, Grows;
    var p := a.packet;
    SteppedFacts(rw, a, n, x, rw');
    SteppedInv(rw, a, n, x, rw');
    ReadFacts(rw, n.id);
    hide ReadInv;
    Delivered(rw.w, n, p, a.ignore);
    Counts(n, p.from, p.msg, a.ignore);
    CountedShape(n, p.from, p.msg.term, p.msg.seqno, x);
    ReignNumbers(rw, a, n, x, rw');
    RepliesStay(rw, a, n, x, rw');
    NoSelfReplies(rw'.w.h.book.elections, rw'.w.net, rw'.rh);
    MemberHas(rw.w, n.id);
    CountedAcks(rw, a, n, x, rw'.rh);
    forall r' | r' in x.pendingReads ensures ReadOk(x, rw'.rh, r') {
      var r :| r in n.pendingReads && Confirms(x, r, r');
      CountedReadOk(rw.w, rw.rh, rw'.rh, n, x, r, r');
    }
  }

  lemma NoSelfReplies(elections: map<nat, Election>, net: set<Packet>, rh: ReadHistory)
    requires RepliesOk(elections, net, rh)
    ensures forall p :: p in rh.vouched ==> p.from != p.to
  {
    forall p | p in rh.vouched ensures p.from != p.to { assert ReplyOk(elections, net, rh, p); }
  }

  /** Every number a leader has on file for a peer is vouched for, too old, or recorded as forged. */
  lemma CountedAcks(rw: ReadWorld, a: Action, n: Node, x: Node, rh': ReadHistory)
    requires a.Deliver? && a.packet.msg.ReadProbeResp? && Enabled(rw.w, a)
    requires n == rw.w.nodes[a.packet.to] && n.id == a.packet.to
    requires rh' == RecordReads(rw.w, rw.rh, a) && Grows(rw.rh, rh') && AckedOk(n, rw.rh) && !n.failed
    requires SameReign(n, x) && x.id == n.id && a.packet.from != a.packet.to
    requires forall u :: u in x.probeAcked ==> (u in n.probeAcked && x.probeAcked[u] == n.probeAcked[u])
                                               || (u == a.packet.from && a.packet.msg.term == n.term
                                                   && x.probeAcked[u] == a.packet.msg.seqno)
    requires a.packet.msg == ReadProbeResp(a.packet.msg.term, a.packet.msg.seqno)
    ensures AckedOk(x, rh')
  {
    hide React;
    if a.packet.msg.term == n.term { assert CountsReply(rw.w, a); }
  }

  lemma Counts(n: Node, from: NodeId, msg: Message, ignore: bool)
    requires msg.ReadProbeResp? && !n.failed
    ensures OnMessage(n, from, msg, ignore) == OnReadProbeResp(n, from, msg.term, msg.seqno)
  {
  }

  // ---- every step, every run ---------------------------------------------------------------------------

  lemma CrashFollows(n: Node, a: Action)
    requires a.Crash?
    ensures React(n, a).node.role == Follower && React(n, a).node.pendingReads == []
  {
  }

  lemma FailedKeeps(n: Node, from: NodeId, msg: Message, ignore: bool)
    requires n.failed
    ensures OnMessage(n, from, msg, ignore).node == n
  {
  }

  /** What the acting node became satisfies the read invariant, if it leads. */
  lemma ActorReadsOk(rw: ReadWorld, a: Action, n: Node, x: Node, rw': ReadWorld)
    requires Stepped(rw, a, n, x, rw') && x.role == Leader
    ensures LeaderReadsOk(rw'.w.net, rw'.rh, x)
  {
    hide Inv, Drain, React, NodeOk, Of, ReadOk, RecordReads, Stepped, Extends, RepliesOk, AcceptedOk, Vouched,
         OnMessage, LeaderReadsOk;
    SteppedFacts(rw, a, n, x, rw');
    SteppedInv(rw, a, n, x, rw');
    hide ReadInv;
    if a.Deliver? && a.packet.msg.ReadProbeResp? && !n.failed {
      CountedReadsOk(rw, a, n, x, rw');
    } else if AcceptsNow(rw.w, a) {
      AcceptReadsOk(rw, a, n, x, rw');
    } else {
      if a.Crash? {
        CrashFollows(n, a);
      } else {
        if a.Deliver? && a.packet.msg.ReadProbeResp? {
          Delivered(rw.w, n, a.packet, a.ignore);
          FailedKeeps(n, a.packet.from, a.packet.msg, a.ignore);
        } else {
          EventKeeps(n, a);
        }
        if n.role == Leader { KeptReadsOk(rw, a, n, x, rw'); } else {
          ReadFacts(rw, n.id);
          NewLeaderReadsOk(rw, a, n, x, rw');
        }
      }
    }
  }

  /** Every step keeps the read invariant. */
  lemma StepKeepsReads(rw: ReadWorld, a: Action)
    requires ReadInv(rw) && Enabled(rw.w, a)
    ensures ReadInv(ReadNext(rw, a))
  {
    hide Inv, Drain, React, NodeOk, Of, ReadOk, RecordReads, Extends, RepliesOk, AcceptedOk, ProbesOk, Vouched,
         LeaderReadsOk;
    var n := rw.w.nodes[Actor(a)];
    var x := React(n, a).node;
    var rw' := ReadNext(rw, a);
    assert Stepped(rw, a, n, x, rw');
    SteppedFacts(rw, a, n, x, rw');
    hide ReadNext, Stepped, ReadInv, Next;
    AcceptedStays(rw, a, n, x, rw');
    ProbesStay(rw, a, n, x, rw');
    RepliesStay(rw, a, n, x, rw');
    forall v | v in rw'.w.nodes ensures LeaderReadsOk(rw'.w.net, rw'.rh, rw'.w.nodes[v]) {
      if v != n.id {
        OtherReadsOk(rw, a, n, x, rw', v);
      } else {
        if x.role == Leader { ActorReadsOk(rw, a, n, x, rw'); }
        DrainReads(rw'.w.net, rw'.rh, x);
      }
    }
    ReadInvFrom(rw');
  }

  lemma ReadInvFrom(rw: ReadWorld)
    requires Inv(rw.w) && AcceptedOk(rw.w, rw.rh) && ProbesOk(rw.w.h.book.elections, rw.w.net)
    requires RepliesOk(rw.w.h.book.elections, rw.w.net, rw.rh)
    requires forall v {:trigger LeaderReadsOk(rw.w.net, rw.rh, rw.w.nodes[v])} ::
      v in rw.w.nodes ==> LeaderReadsOk(rw.w.net, rw.rh, rw.w.nodes[v])
    ensures ReadInv(rw)
  {
  }

  /** A finite run together with the events that made it and the record of its reads. */
  ghost predicate ReadRun(rws: seq<ReadWorld>, acts: seq<Action>) {
    && |rws| == |acts| + 1
    && Init(rws[0].w) && rws[0].rh == NO_READS
    && forall i :: 0 <= i < |acts| ==> Enabled(rws[i].w, acts[i]) && rws[i + 1] == ReadNext(rws[i], acts[i])
  }

  lemma InitReads(rw: ReadWorld)
    requires Init(rw.w) && rw.rh == NO_READS
    ensures ReadInv(rw)
  {
    InitKeepsInv(rw.w);
    hide Inv;
    forall v | v in rw.w.nodes ensures LeaderReadsOk(rw.w.net, rw.rh, rw.w.nodes[v]) {
      assert rw.w.nodes[v] == Recovered(v, rw.w.members, rw.w.nodes[v].maxBatch, BLANK_HARD_STATE, []);
    }
  }

  lemma {:induction false} RunKeepsReads(rws: seq<ReadWorld>, acts: seq<Action>, i: nat)
    requires ReadRun(rws, acts) && i < |rws|
    ensures ReadInv(rws[i])
    decreases i
  {
    hide ReadInv, Init, ReadNext, Enabled;
    if i == 0 {
      InitReads(rws[0]);
    } else {
      RunKeepsReads(rws, acts, i - 1);
      assert rws[i - 1 + 1] == ReadNext(rws[i - 1], acts[i - 1]);
      StepKeepsReads(rws[i - 1], acts[i - 1]);
    }
  }

  lemma SteppedAt(rws: seq<ReadWorld>, acts: seq<Action>, i: nat)
    requires ReadRun(rws, acts) && i < |acts|
    ensures Enabled(rws[i].w, acts[i])
    ensures var n := rws[i].w.nodes[Actor(acts[i])]; Stepped(rws[i], acts[i], n, React(n, acts[i]).node, rws[i + 1])
  {
    hide ReadInv, Init, ReadNext, React;
    RunKeepsReads(rws, acts, i);
  }

  lemma {:induction false} ReadsGrow(rws: seq<ReadWorld>, acts: seq<Action>, i: nat, j: nat)
    requires ReadRun(rws, acts) && i <= j < |rws|
    ensures Grows(rws[i].rh, rws[j].rh)
    decreases j - i
  {
    hide ReadRun, Stepped, AcceptedOk, NewKeys, React;
    if i < j {
      RunLength(rws, acts);
      SteppedAt(rws, acts, i);
      var n := rws[i].w.nodes[Actor(acts[i])];
      AcceptedStays(rws[i], acts[i], n, React(n, acts[i]).node, rws[i + 1]);
      ReadsGrow(rws, acts, i + 1, j);
    }
  }

  lemma RunLength(rws: seq<ReadWorld>, acts: seq<Action>)
    requires ReadRun(rws, acts)
    ensures |rws| == |acts| + 1
  {
  }

  function Worlds(rws: seq<ReadWorld>): (ws: seq<World>)
    ensures |ws| == |rws| && forall i :: 0 <= i < |ws| ==> ws[i] == rws[i].w
  {
    seq(|rws|, i requires 0 <= i < |rws| => rws[i].w)
  }

  lemma WorldsRun(rws: seq<ReadWorld>, acts: seq<Action>)
    requires ReadRun(rws, acts)
    ensures Run(Worlds(rws))
  {
    var ws := Worlds(rws);
    hide Init, Next, Enabled, Step;
    forall i | 0 <= i < |ws| - 1 ensures Step(ws[i], ws[i + 1]) {
      assert rws[i + 1] == ReadNext(rws[i], acts[i]);
      StepOf(ws[i], acts[i]);
    }
  }

  lemma StepOf(w: World, a: Action)
    requires Enabled(w, a)
    ensures Step(w, Next(w, a))
  {
  }

  /** Node `v` accepts a read at step `i`. */
  ghost predicate AcceptedAt(rws: seq<ReadWorld>, acts: seq<Action>, i: nat, v: NodeId)
    requires |rws| == |acts| + 1
  {
    i < |acts| && acts[i].ClientRead? && acts[i].node == v && v in rws[i].w.nodes && AcceptsRead(rws[i].w.nodes[v])
  }

  /** Node `v` serves the read numbered `s` of its term `T` in the drain that ends step `j`. */
  ghost predicate ServedAt(rws: seq<ReadWorld>, acts: seq<Action>, j: nat, v: NodeId, T: nat, s: nat, r: PendingRead)
    requires |rws| == |acts| + 1
  {
    && j < |acts| && Enabled(rws[j].w, acts[j]) && Actor(acts[j]) == v && r.seqno == s
    && var x := React(rws[j].w.nodes[v], acts[j]).node;
      x.term == T && r in Served(x)
  }

  /** A read a quorum vouches for is above everything any node had ever committed when it was accepted. */
  lemma ConfirmedCovers(rw: ReadWorld, x: Node, r: PendingRead, at: World, u: NodeId)
    requires AcceptedOk(rw.w, rw.rh) && ReadOk(x, rw.rh, r)
    requires forall T :: T in rw.rh.accepted[(x.term, r.seqno)].elected ==> T <= x.term
    requires Inv(at) && u in at.nodes
    requires var rec := rw.rh.accepted[(x.term, r.seqno)];
      at.h.commits <= rec.commits && at.h.book.elections.Keys <= rec.elected
    ensures at.nodes[u].commitIndex <= r.readIndex <= x.commitIndex
  {
    hide Inv, AcceptedOk;
    NodeAt(at, u);
    CommitsElected(at);
  }

  lemma ServedShape(x: Node, r: PendingRead)
    requires r in Served(x)
    ensures x.role == Leader && r in x.pendingReads && r.confirmed
    ensures r.readIndex <= ApplyCommitted(x).lastApplied
    ensures Drain(x).lastApplied == ApplyCommitted(x).lastApplied && Drain(x).commitIndex == x.commitIndex
  {
  }

  lemma RecordedAt(rws: seq<ReadWorld>, acts: seq<Action>, i: nat, j: nat, v: NodeId)
    requires ReadRun(rws, acts) && i < j < |rws| && AcceptedAt(rws, acts, i, v)
    ensures var n := rws[i].w.nodes[v]; var k := (n.term, n.readSeq + 1);
      k in rws[j].rh.accepted && rws[j].rh.accepted[k] == ReadRecord(rws[i].w.h.commits, rws[i].w.h.book.elections.Keys)
  {
    hide Init, React, Enabled, Next;
    ReadsGrow(rws, acts, i + 1, j);
    assert rws[i + 1] == ReadNext(rws[i], acts[i]);
  }

  /** When it was served at step `j`, a quorum had truly vouched for the read numbered `s` of term `T` of `v`. */
  ghost predicate GenuineAt(rws: seq<ReadWorld>, j: nat, v: NodeId, T: nat, s: nat) {
    j + 1 < |rws| && Genuine(rws[j + 1].rh, rws[j + 1].w.members, v, T, s)
  }

  /** No reply counted by step `j` was forged for that read. */
  ghost predicate UntaintedAt(rws: seq<ReadWorld>, j: nat, T: nat, s: nat) {
    j + 1 < |rws| && !Tainted(rws[j + 1].rh, T, s)
  }

  /** What the serving node was, and what the invariant says of the read it serves. */
  lemma ServedRead(rws: seq<ReadWorld>, acts: seq<Action>, j: nat, v: NodeId, T: nat, s: nat, r: PendingRead)
    requires ReadRun(rws, acts) && |rws| == |acts| + 1 && ServedAt(rws, acts, j, v, T, s, r)
    ensures var x := React(rws[j].w.nodes[v], acts[j]).node; var rw := rws[j + 1];
      && ReadInv(rw) && v in rw.w.nodes && rw.w.nodes[v] == Drain(x) && x.id == v && x.term == T && x.role == Leader
      && x.members == rw.w.members && ReadOk(x, rw.rh, r) && r.confirmed && r.seqno == s
      && r.readIndex <= rw.w.nodes[v].lastApplied
  {
    hide React, Next, Inv, ReadInv, Drain, Stepped, Served, ReadRun, AcceptedOk, ReadOk, Of, NodeOk, RecordReads,
         Extends;
    var n := rws[j].w.nodes[v];
    var x := React(n, acts[j]).node;
    SteppedAt(rws, acts, j);
    SteppedFacts(rws[j], acts[j], n, x, rws[j + 1]);
    ServedShape(x, r);
    ActorReadsOk(rws[j], acts[j], n, x, rws[j + 1]);
    RunKeepsReads(rws, acts, j + 1);
  }

  /**
   Reads are fresh. If a quorum had truly vouched for a read when it was served at step `j`, after being
   accepted at step `i`, its index is no lower than any commit index of any node up to step `i` (`u` at
   step `h`), whatever crashed since, and the state it is served from has applied all that.
  */
  lemma ServedReadsAreFresh(rws: seq<ReadWorld>, acts: seq<Action>, h: nat, i: nat, j: nat, v: NodeId, r: PendingRead,
                            u: NodeId)
    requires ReadRun(rws, acts) && h <= i < j && AcceptedAt(rws, acts, i, v)
    requires ServedAt(rws, acts, j, v, rws[i].w.nodes[v].term, rws[i].w.nodes[v].readSeq + 1, r)
    requires GenuineAt(rws, j, v, rws[i].w.nodes[v].term, rws[i].w.nodes[v].readSeq + 1)
    requires u in rws[h].w.nodes
    ensures rws[h].w.nodes[u].commitIndex <= r.readIndex
    ensures v in rws[j + 1].w.nodes && r.readIndex <= rws[j + 1].w.nodes[v].lastApplied
    ensures Agree(rws[h].w.nodes[u].log, rws[j + 1].w.nodes[v].log, rws[h].w.nodes[u].commitIndex)
  {
    hide React, Next, Inv, Drain, Served, ReadRun, Run, AcceptedOk, ReadOk, RecordReads, Genuine, RepliesOk, ProbesOk,
         LeaderReadsOk, ReadInv;
    RunLength(rws, acts);
    var T, s := rws[i].w.nodes[v].term, rws[i].w.nodes[v].readSeq + 1;
    var x, rw := React(rws[j].w.nodes[v], acts[j]).node, rws[j + 1];
    RecordedAt(rws, acts, i, j + 1, v);
    ServedRead(rws, acts, j, v, T, s, r);
    ReadFacts(rw, v);
    InvAt(rw);
    DrainRole(x);
    DrainCommit(x);
    WorldsRun(rws, acts);
    RunInv(Worlds(rws), h);
    RunGrows(Worlds(rws), h, i);
    RunGrows(Worlds(rws), i, j + 1);
    RecordHasEarlier(rws[h].w.h, rws[i].w.h);
    RecordHasEarlier(rws[i].w.h, rw.w.h);
    hide Extends;
    forall T2 | T2 in rw.rh.accepted[(T, s)].elected ensures T2 <= T { ConfirmedIsFresh(rw, v, s, T2); }
    ConfirmedCovers(rw, x, r, rws[h].w, u);
    CommittedPrefixesAgree(Worlds(rws), h, j + 1, u, v);
  }

  lemma InvAt(rw: ReadWorld)
    requires ReadInv(rw)
    ensures Inv(rw.w)
  {
  }

  lemma DrainCommit(x: Node)
    ensures Drain(x).commitIndex == x.commitIndex
  {
  }

  lemma RecordHasEarlier(h: History, h': History)
    requires Extends(h, h')
    ensures h.commits <= h'.commits && h.book.elections.Keys <= h'.book.elections.Keys
  {
  }

  /** A read is served only if a quorum truly vouched for it, or a forged reply was counted for it. */
  lemma GenuineUnlessTainted(rws: seq<ReadWorld>, acts: seq<Action>, j: nat, v: NodeId, T: nat, s: nat, r: PendingRead)
    requires ReadRun(rws, acts) && |rws| == |acts| + 1 && ServedAt(rws, acts, j, v, T, s, r)
    ensures GenuineAt(rws, j, v, T, s) || !UntaintedAt(rws, j, T, s)
  {
    hide ReadInv, ReadRun, ServedAt, React, Drain, Genuine, Tainted;
    ServedStep(rws, acts, j, v, T, s, r);
    ServedRead(rws, acts, j, v, T, s, r);
  }

  lemma ServedStep(rws: seq<ReadWorld>, acts: seq<Action>, j: nat, v: NodeId, T: nat, s: nat, r: PendingRead)
    requires |rws| == |acts| + 1 && ServedAt(rws, acts, j, v, T, s, r)
    ensures j < |acts| && j + 1 < |rws| && Enabled(rws[j].w, acts[j]) && Actor(acts[j]) == v
  {
  }

  /** Every reply a leader counted had been given in the leader's term, or was too old to count. */
  ghost predicate AllVouched(rws: seq<ReadWorld>, acts: seq<Action>)
    requires |rws| == |acts| + 1
  {
    forall i :: 0 <= i < |acts| ==> Vouched(rws[i].w, rws[i].rh, acts[i])
  }

  /** Then no read is tainted. */
  lemma {:induction false} VouchedUntainted(rws: seq<ReadWorld>, acts: seq<Action>, j: nat)
    requires ReadRun(rws, acts) && AllVouched(rws, acts) && j < |rws|
    ensures rws[j].rh.forged == {}
    decreases j
  {
    hide Init, React, Next, Vouched, Enabled;
    if j > 0 {
      VouchedUntainted(rws, acts, j - 1);
      assert Vouched(rws[j - 1].w, rws[j - 1].rh, acts[j - 1]);
      assert rws[j - 1 + 1] == ReadNext(rws[j - 1], acts[j - 1]);
    }
  }

  lemma AllVouchedGenuine(rws: seq<ReadWorld>, acts: seq<Action>, j: nat, v: NodeId, T: nat, s: nat, r: PendingRead)
    requires ReadRun(rws, acts) && AllVouched(rws, acts) && ServedAt(rws, acts, j, v, T, s, r)
    ensures GenuineAt(rws, j, v, T, s)
  {
    hide ReadRun, AllVouched, ServedAt, Genuine, GenuineAt;
    RunLength(rws, acts);
    ServedStep(rws, acts, j, v, T, s, r);
    VouchedUntainted(rws, acts, j + 1);
    GenuineUnlessTainted(rws, acts, j, v, T, s, r);
  }
}
