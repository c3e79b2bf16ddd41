/**
 A cluster of Raft nodes over a network that loses, duplicates and reorders: the network is the
 set of every packet ever sent, delivery never removes one. Nodes crash and come back with a
 prefix of their log no shorter than what they claimed durable.

 The history records what the proofs talk about and no node can see: the log each term's leader
 built, who elected it, what was acknowledged and what was committed. It only grows.
*/
module Cluster {
  import opened Types
  import opened RaftSpec

  /** `node` told the leader of `term` that it holds that leader's log through `index`. */
  datatype Ack = Ack(node: NodeId, term: nat, index: nat)

  /** `frozen`: every acknowledgement for an earlier term its voters had given or still owed. */
  datatype Election = Election(leader: NodeId, voters: set<NodeId>, frozen: set<Ack>)

  /** The leader of `term` advanced its commit index to `index`. */
  datatype Commit = Commit(term: nat, index: nat)

  /** What each term's leader built, who elected it, and who acknowledged how much of it. */
  datatype Book = Book(termLog: map<nat, seq<Entry>>, elections: map<nat, Election>, acks: set<Ack>)

  /** `candLog`: the log each candidate stood with. */
  datatype History = History(book: Book, candLog: map<(nat, NodeId), seq<Entry>>, commits: set<Commit>)

  datatype World = World(members: set<NodeId>, nodes: map<NodeId, Node>, net: set<Packet>, h: History)

  datatype Action =
    | Deliver(packet: Packet, ignore: bool)
    | ElectionTimeout(node: NodeId)
    | PreVoteRound(node: NodeId)
    | NewerTerm(node: NodeId, term: nat)
    | Heartbeat(node: NodeId)
    | Synced(node: NodeId, batch: nat)
    | StorageFails(node: NodeId, batch: nat)
    | ClientCommand(node: NodeId, cmd: Command)
    | ClientRead(node: NodeId, id: nat)
    | Crash(node: NodeId, hs: HardState, kept: nat)

  function Actor(a: Action): NodeId {
    if a.Deliver? then a.packet.to else a.node
  }

  /** A hard state a crash can bring back: the newest durable one, or a later write still in flight. */
  predicate Survives(n: Node, hs: HardState) {
    || hs == n.durableHard
    || (exists b :: b in n.batches && b.hard == Some(hs) && hs.seqno > n.durableHard.seqno)
  }

  /** What recovery may leave of the log: a prefix, not below the durable claim, of terms the node still knows. */
  predicate Recoverable(n: Node, hs: HardState, kept: nat) {
    && n.durableIndex <= kept <= |n.log|
    && (forall i :: 0 <= i < kept ==> n.log[i].term <= hs.term)
  }

  predicate Enabled(w: World, a: Action) {
    && Actor(a) in w.nodes
    && match a
       case Deliver(p, _) => p in w.net
       case Synced(v, k) => !w.nodes[v].failed && k < |w.nodes[v].batches|
       case StorageFails(v, k) => !w.nodes[v].failed && k < |w.nodes[v].batches|
       case ClientCommand(_, cmd) => !cmd.op.SetMembers?
       case Crash(v, hs, kept) => Survives(w.nodes[v], hs) && Recoverable(w.nodes[v], hs, kept)
       case _ => true
  }

  ghost function React(n: Node, a: Action): Reaction
    requires a.Synced? || a.StorageFails? ==> a.batch < |n.batches|
  {
    match a
    case Deliver(p, ignore) => OnMessage(n, p.from, p.msg, ignore)
    case ElectionTimeout(_) => OnElectionTimeout(n)
    case PreVoteRound(_) => OnPreVoteRound(n)
    case NewerTerm(_, term) => OnNewerTerm(n, term)
    case Heartbeat(_) => OnHeartbeat(n)
    case Synced(_, k) => OnSynced(n, k)
    case StorageFails(_, k) => Reaction(OnStorageFailure(n, k), {})
    case ClientCommand(_, cmd) => Propose(n, cmd)
    case ClientRead(_, id) => RequestRead(n, id)
    case Crash(_, hs, kept) => Reaction(Recovered(n.id, n.members, n.maxBatch, hs, n.log[..Min(kept, |n.log|)]), {})
  }

  // ---- the history -----------------------------------------------------------

  predicate OwesAck(b: Batch) { b.action.LogDurable? && b.action.replyTo.Some? }

  /** Acknowledgements for terms below `term` that `voters` gave or still owe. */
  function PossibleAcks(w: World, voters: set<NodeId>, term: nat): set<Ack> {
    (set a | a in w.h.book.acks && a.node in voters && a.term < term)
    + (set v, b | v in voters && v in w.nodes && b in w.nodes[v].batches && OwesAck(b) && b.action.replyTerm < term
         :: Ack(v, b.action.replyTerm, b.action.verified))
  }

  function SentAcks(sent: set<Packet>): set<Ack> {
    set p | p in sent && p.msg.AppendEntriesResp? && p.msg.success :: Ack(p.from, p.msg.term, p.msg.matchIndex)
  }

  /** A leader counts itself: what it claims durable is an acknowledgement of its own term. */
  function OwnAcks(n: Node): set<Ack> {
    if n.role == Leader then {Ack(n.id, n.term, n.durableIndex)} else {}
  }

  function Record(w: World, before: Node, after: Node, sent: set<Packet>): History {
    var h := w.h;
    History(
      Book(
        if after.role == Leader then h.book.termLog[after.term := after.log] else h.book.termLog,
        if after.role == Leader && after.term !in h.book.elections
        then h.book.elections[after.term := Election(after.id, after.votes * after.members,
                                                     PossibleAcks(w, after.votes * after.members, after.term))]
        else h.book.elections,
        h.book.acks + SentAcks(sent) + OwnAcks(after)),
      if after.role == Candidate && after.durableTerm >= after.term
      then h.candLog[(after.term, after.id) := after.log] else h.candLog,
      if after.role == Leader && after.commitIndex > before.commitIndex
      then h.commits + {Commit(after.term, after.commitIndex)} else h.commits)
  }

  ghost function Next(w: World, a: Action): World
    requires Enabled(w, a)
  {
    var v := Actor(a);
    var before := w.nodes[v];
    var r := React(before, a);
    w.(nodes := w.nodes[v := Drain(r.node)], net := w.net + r.sent, h := Record(w, before, r.node, r.sent))
  }

  // ---- runs --------------------------------------------------------------------

  const BLANK_HARD_STATE := HardState(0, None, 0)

  ghost predicate Init(w: World) {
    && w.members != {}
    && w.nodes.Keys == w.members
    && w.net == {}
    && w.h == History(Book(map[], map[], {}), map[], {})
    && forall v :: v in w.nodes ==> w.nodes[v] == Recovered(v, w.members, w.nodes[v].maxBatch, BLANK_HARD_STATE, [])
  }

  ghost predicate Step(w: World, w': World) {
    exists a :: Enabled(w, a) && w' == Next(w, a)
  }

  /** A finite run from a fresh cluster; every prefix of an execution is one. */
  ghost predicate Run(ws: seq<World>) {
    && |ws| > 0
    && Init(ws[0])
    && forall i :: 0 <= i < |ws| - 1 ==> Step(ws[i], ws[i + 1])
  }
}
