/**
 The inductive invariant of the cluster. Each piece speaks of the history and only those fields
 of a node that it constrains, so an event that leaves the fields alone keeps the piece.
*/
module ClusterInv {
  import opened Types
  import opened RaftSpec
  import opened Cluster

  // ---- logs ------------------------------------------------------------------

  ghost predicate Sorted(log: seq<Entry>) {
    forall i, j :: 0 <= i <= j < |log| ==> log[i].term <= log[j].term
  }

  ghost predicate Indexed(log: seq<Entry>) {
    forall i :: 0 <= i < |log| ==> log[i].index == i + 1
  }

  /** Up to every entry, the log is what the leader of that entry's term built. */
  ghost predicate Grounded(termLog: map<nat, seq<Entry>>, log: seq<Entry>) {
    forall i {:trigger GroundedAt(termLog, log, i)} :: 0 <= i < |log| ==> GroundedAt(termLog, log, i)
  }

  ghost predicate GroundedAt(termLog: map<nat, seq<Entry>>, log: seq<Entry>, i: nat)
    requires i < |log|
  {
    log[i].term in termLog && Agree(log, termLog[log[i].term], i + 1)
  }

  ghost predicate LogOk(termLog: map<nat, seq<Entry>>, log: seq<Entry>, term: nat) {
    && Sorted(log) && Indexed(log) && Grounded(termLog, log)
    && forall i :: 0 <= i < |log| ==> log[i].term <= term
  }

  ghost predicate ClaimOk(log: seq<Entry>, durable: nat, durableTerm: nat) {
    durable <= |log| && forall i :: 0 <= i < durable ==> log[i].term <= durableTerm
  }

  // ---- acknowledgements --------------------------------------------------------

  /** The leader of `T` itself created the entry at index `i`. */
  ghost predicate OwnIndex(termLog: map<nat, seq<Entry>>, T: nat, i: nat) {
    T in termLog && 0 < i <= |termLog[T]| && termLog[T][i - 1].term == T
  }

  ghost predicate NoneReach(e: Election, T: nat, i: nat) {
    forall a :: a in e.frozen && a.term == T ==> a.index < i
  }

  /** A later leader was elected by nodes none of which can ever acknowledge index `i` to the leader of `T`. */
  ghost predicate Blocked(elections: map<nat, Election>, T: nat, i: nat) {
    exists T2 :: T2 in elections && T < T2 && NoneReach(elections[T2], T, i)
  }

  ghost predicate Gave(acks: set<Ack>, v: NodeId, T: nat, i: nat) {
    exists a :: a in acks && a.node == v && a.term == T && a.index >= i
  }

  ghost predicate Owes(batches: seq<Batch>, T: nat, i: nat) {
    exists b :: b in batches && OwesAck(b) && b.action.replyTerm == T && b.action.verified >= i
  }

  ghost predicate Safe(b: Book, T: nat, i: nat, log: seq<Entry>)
    requires T in b.termLog
  {
    Agree(b.termLog[T], log, i) || Blocked(b.elections, T, i)
  }

  /** What the node owes or gave, it still holds, unless no quorum can come of it any more. */
  ghost predicate AckOk(b: Book, id: NodeId, log: seq<Entry>, durable: nat, batches: seq<Batch>) {
    && (forall T: nat, i: nat :: OwnIndex(b.termLog, T, i) && Owes(batches, T, i) ==> Safe(b, T, i, log))
    && (forall T: nat, i: nat :: OwnIndex(b.termLog, T, i) && Gave(b.acks, id, T, i)
          ==> (i <= durable && Agree(b.termLog[T], log, i)) || Blocked(b.elections, T, i))
  }

  ghost predicate AckTermsOk(b: Book, id: NodeId, term: nat, durableTerm: nat, batches: seq<Batch>) {
    && (forall o :: o in batches && OwesAck(o) ==>
          o.action.replyTerm <= term && o.action.replyTerm in b.termLog
            && o.action.verified <= |b.termLog[o.action.replyTerm]|)
    && (forall a :: a in b.acks && a.node == id ==> a.term <= durableTerm)
  }

  /**
   A voter of `T2` is past every earlier term for good, and the election has what it still owes earlier
   leaders on file.
  */
  ghost predicate PromiseOk(elections: map<nat, Election>, id: NodeId, durableTerm: nat, batches: seq<Batch>) {
    forall T2 :: T2 in elections && id in elections[T2].voters ==>
      && T2 <= durableTerm
      && forall T: nat, i: nat :: T < T2 && Owes(batches, T, i) ==> !NoneReach(elections[T2], T, i)
  }

  // ---- hard state and votes ------------------------------------------------------

  /** `b` may follow `a` on one node: the term never falls, and a vote is never taken back. */
  ghost predicate Follows(a: HardState, b: HardState) {
    a.term < b.term || (a.term == b.term && (a.votedFor.None? || a.votedFor == b.votedFor))
  }

  ghost predicate HardOk(term: nat, votedFor: Option<NodeId>, stateSeq: nat, durableTerm: nat, durableHard: HardState,
                         batches: seq<Batch>)
  {
    && durableHard.term == durableTerm
    && durableHard.seqno < stateSeq
    && Follows(durableHard, HardState(term, votedFor, stateSeq))
    && (forall b :: b in batches && b.hard.Some? ==>
          && b.hard.value.seqno < stateSeq
          && Follows(b.hard.value, HardState(term, votedFor, stateSeq))
          && (b.hard.value.seqno <= durableHard.seqno ==> Follows(b.hard.value, durableHard))
          && (b.hard.value.seqno >= durableHard.seqno ==> Follows(durableHard, b.hard.value)))
    && (forall b, c ::
          b in batches && c in batches && b.hard.Some? && c.hard.Some? && b.hard.value.seqno <= c.hard.value.seqno
          ==> Follows(b.hard.value, c.hard.value))
  }

  ghost predicate BatchOk(id: NodeId, b: Batch) {
    && (b.action.Campaign? ==> b.hard.Some? && b.hard.value.term == b.action.term)
    && (b.action.VoteReply? && b.action.granted ==>
          b.hard.Some? && b.hard.value.term == b.action.term && b.hard.value.votedFor == Some(b.action.to))
    && (b.action.Reply? ==> b.action.msg.AppendEntriesResp? && !b.action.msg.success)
    && (b.action.VoteReply? || b.action.Reply? ==> b.action.to != id)
    && (OwesAck(b) ==> b.action.replyTo != Some(id))
  }

  ghost predicate BatchesOk(id: NodeId, batches: seq<Batch>) {
    forall b :: b in batches ==> BatchOk(id, b)
  }

  /** What the voter may have acknowledged in earlier terms, the candidate's log holds. */
  ghost predicate VoteSafe(b: Book, candLog: map<(nat, NodeId), seq<Entry>>, id: NodeId, batches: seq<Batch>, T: nat,
                           cand: NodeId)
  {
    && (T, cand) in candLog
    && forall T1: nat, i: nat ::
         OwnIndex(b.termLog, T1, i) && T1 < T && (Owes(batches, T1, i) || Gave(b.acks, id, T1, i))
         ==> Safe(b, T1, i, candLog[(T, cand)])
  }

  ghost predicate CastOk(b: Book, candLog: map<(nat, NodeId), seq<Entry>>, id: NodeId, batches: seq<Batch>, term: nat,
                         votedFor: Option<NodeId>)
  {
    votedFor.Some? && votedFor.value != id ==> VoteSafe(b, candLog, id, batches, term, votedFor.value)
  }

  ghost predicate VotesOk(b: Book, candLog: map<(nat, NodeId), seq<Entry>>, id: NodeId, term: nat,
                          votedFor: Option<NodeId>,
                          durableHard: HardState, batches: seq<Batch>)
  {
    && CastOk(b, candLog, id, batches, term, votedFor)
    && CastOk(b, candLog, id, batches, durableHard.term, durableHard.votedFor)
    && (forall w ::
          w in batches && w.hard.Some? ==> CastOk(b, candLog, id, batches, w.hard.value.term, w.hard.value.votedFor))
  }

  /** What a node said is covered by its durable state. */
  ghost predicate SaidOk(b: Book, candLog: map<(nat, NodeId), seq<Entry>>, id: NodeId, p: Packet, durableTerm: nat,
                         batches: seq<Batch>)
  {
    && p.msg.term <= durableTerm
    && (p.msg.RequestVoteResp? && p.msg.granted ==> VoteSafe(b, candLog, id, batches, p.msg.term, p.to))
  }

  ghost predicate SpeechOk(b: Book, candLog: map<(nat, NodeId), seq<Entry>>, id: NodeId, net: set<Packet>,
                           durableTerm: nat, batches: seq<Batch>)
  {
    forall p {:trigger SaidOk(b, candLog, id, p, durableTerm, batches)} ::
      p in net && p.from == id ==> SaidOk(b, candLog, id, p, durableTerm, batches)
  }

  /** `v` let it be known that its vote in `T` went to `c`: it said so, it led, or it asked for votes itself. */
  ghost predicate VotedFor(elections: map<nat, Election>, net: set<Packet>, v: NodeId, T: nat, c: NodeId) {
    || Packet(v, c, RequestVoteResp(T, true)) in net
    || (T in elections && elections[T].leader == v && c == v)
    || (c == v && Asked(net, v, T))
  }

  /** `v` asked for votes in `T`: it had voted for itself. */
  ghost predicate Asked(net: set<Packet>, v: NodeId, T: nat) {
    exists p :: p in net && p.from == v && p.msg.RequestVote? && p.msg.term == T
  }

  /** A vote a hard state names for `T` is the one that is known, if one is. */
  ghost predicate SameVote(elections: map<nat, Election>, net: set<Packet>, id: NodeId, T: nat, vote: Option<NodeId>) {
    vote.Some? ==> forall c :: VotedFor(elections, net, id, T, c) ==> c == vote.value
  }

  /** A known vote is durable and unique in its term, and every hard state agrees with it. */
  ghost predicate OnceOk(elections: map<nat, Election>, net: set<Packet>, id: NodeId, term: nat,
                         votedFor: Option<NodeId>,
                         durableHard: HardState, batches: seq<Batch>)
  {
    && (forall T, c :: VotedFor(elections, net, id, T, c) ==> Follows(HardState(T, Some(c), 0), durableHard))
    && (forall T, c, d :: VotedFor(elections, net, id, T, c) && VotedFor(elections, net, id, T, d) ==> c == d)
    && SameVote(elections, net, id, term, votedFor)
    && SameVote(elections, net, id, durableHard.term, durableHard.votedFor)
    && (forall b ::
          b in batches && b.hard.Some? ==> SameVote(elections, net, id, b.hard.value.term, b.hard.value.votedFor))
  }

  // ---- roles and commits -----------------------------------------------------------

  /** A candidate voted for itself, alone has its term's hard states, and its log is the one it stands with. */
  ghost predicate CandidateOk(elections: map<nat, Election>, candLog: map<(nat, NodeId), seq<Entry>>, net: set<Packet>,
                              n: Node)
  {
    n.role == Candidate ==>
      && n.votedFor == Some(n.id)
      && !(n.term in elections && elections[n.term].leader == n.id)
      && (forall u :: u in n.votes && u != n.id ==> Packet(u, n.id, RequestVoteResp(n.term, true)) in net)
      && ((n.term, n.id) in candLog ==> candLog[(n.term, n.id)] == n.log)
      && (n.durableHard.term == n.term ==> n.durableHard.votedFor == n.votedFor)
      && (forall b ::
            b in n.batches && b.hard.Some? && b.hard.value.term == n.term ==> b.hard.value.votedFor == n.votedFor)
  }

  /** A leader's log is its term's log, and it knows of every commit of its term. */
  ghost predicate LeaderOk(b: Book, commits: set<Commit>, n: Node) {
    n.role == Leader ==>
      && n.term in b.termLog && n.term in b.elections && b.elections[n.term].leader == n.id
      && n.log == b.termLog[n.term] && n.term <= n.durableTerm
      && (forall u :: u in n.matchIndex ==> n.matchIndex[u] == 0 || Gave(b.acks, u, n.term, n.matchIndex[u]))
      && (forall c :: c in commits && c.term == n.term ==> c.index <= n.commitIndex)
  }

  ghost predicate StoodOk(candLog: map<(nat, NodeId), seq<Entry>>, id: NodeId, durableTerm: nat) {
    forall T, c :: (T, c) in candLog && c == id ==> T <= durableTerm
  }

  /** The first `k` entries of `log` are committed, as a leader of `term` or earlier decided. */
  ghost predicate Decided(termLog: map<nat, seq<Entry>>, commits: set<Commit>, log: seq<Entry>, k: nat, term: nat) {
    k == 0 || exists c ::
                c in commits && c.term <= term && k <= c.index && c.term in termLog && Agree(log, termLog[c.term], k)
  }

  ghost predicate CommitOk(termLog: map<nat, seq<Entry>>, commits: set<Commit>, log: seq<Entry>, commit: nat,
                           applied: nat, term: nat)
  {
    applied <= commit <= |log| && Decided(termLog, commits, log, commit, term)
  }

  ghost predicate NodeOk(h: History, net: set<Packet>, n: Node) {
    && LogOk(h.book.termLog, n.log, n.term)
    && ClaimOk(n.log, n.durableIndex, n.durableTerm)
    && AckOk(h.book, n.id, n.log, n.durableIndex, n.batches)
    && AckTermsOk(h.book, n.id, n.term, n.durableTerm, n.batches)
    && PromiseOk(h.book.elections, n.id, n.durableTerm, n.batches)
    && HardOk(n.term, n.votedFor, n.stateSeq, n.durableTerm, n.durableHard, n.batches)
    && BatchesOk(n.id, n.batches)
    && VotesOk(h.book, h.candLog, n.id, n.term, n.votedFor, n.durableHard, n.batches)
    && SpeechOk(h.book, h.candLog, n.id, net, n.durableTerm, n.batches)
    && OnceOk(h.book.elections, net, n.id, n.term, n.votedFor, n.durableHard, n.batches)
    && CandidateOk(h.book.elections, h.candLog, net, n)
    && LeaderOk(h.book, h.commits, n)
    && StoodOk(h.candLog, n.id, n.durableTerm)
    && CommitOk(h.book.termLog, h.commits, n.log, n.commitIndex, n.lastApplied, n.term)
  }

  // ---- the network and the history -----------------------------------------------------

  ghost predicate PacketOk(h: History, p: Packet) {
    && p.from != p.to
    && match p.msg
       case RequestVote(T, cand, li, lt) =>
         cand == p.from && (T, cand) in h.candLog && li == |h.candLog[(T, cand)]|
           && lt == LastTerm(h.candLog[(T, cand)])
       case AppendEntries(T, leader, prev, prevTerm, entries, commit) =>
         && T in h.book.termLog && T in h.book.elections && h.book.elections[T].leader == p.from == leader
         && prev + |entries| <= |h.book.termLog[T]| && entries == h.book.termLog[T][prev..prev + |entries|]
         && TermAt(h.book.termLog[T], prev) == Some(prevTerm)
         && commit <= |h.book.termLog[T]| && Decided(h.book.termLog, h.commits, h.book.termLog[T], commit, T)
       case AppendEntriesResp(T, success, m, _) => success ==> Gave(h.book.acks, p.from, T, m)
       case _ => true
  }

  ghost predicate IsQuorum(members: set<NodeId>, q: set<NodeId>) {
    q <= members && |q| >= Quorum(members)
  }

  ghost predicate GaveAll(acks: set<Ack>, q: set<NodeId>, T: nat, i: nat) {
    forall v :: v in q ==> Gave(acks, v, T, i)
  }

  /** A quorum acknowledged index `i` to the leader of `T`. */
  ghost predicate Chosen(acks: set<Ack>, members: set<NodeId>, T: nat, i: nat) {
    exists q :: IsQuorum(members, q) && GaveAll(acks, q, T, i)
  }

  ghost predicate TermLogsOk(b: Book) {
    && b.termLog.Keys == b.elections.Keys
    && forall T {:trigger LogOk(b.termLog, b.termLog[T], T)} :: T in b.termLog ==> LogOk(b.termLog, b.termLog[T], T)
  }

  ghost predicate ElectionsOk(b: Book, members: set<NodeId>) {
    forall T :: T in b.elections ==>
      && IsQuorum(members, b.elections[T].voters)
      && forall a :: a in b.elections[T].frozen ==> a.term in b.termLog && a.index <= |b.termLog[a.term]|
  }

  ghost predicate AcksOk(b: Book) {
    forall a :: a in b.acks ==> a.term in b.termLog && a.index <= |b.termLog[a.term]|
  }

  /** An election has on file what its voters acknowledged in earlier terms. */
  ghost predicate AcksFrozen(b: Book) {
    forall T2, a :: T2 in b.elections && a in b.acks && a.term < T2 && a.node in b.elections[T2].voters
      ==> !NoneReach(b.elections[T2], a.term, a.index)
  }

  /** Every entry a leader created is in the log of every later leader, or can never be committed. */
  ghost predicate LeadersAgree(b: Book) {
    forall T1: nat, T2: nat, i: nat ::
      T2 in b.termLog && OwnIndex(b.termLog, T1, i) && T1 < T2 ==> Safe(b, T1, i, b.termLog[T2])
  }

  ghost predicate BookOk(b: Book, members: set<NodeId>) {
    TermLogsOk(b) && ElectionsOk(b, members) && AcksOk(b) && AcksFrozen(b) && LeadersAgree(b)
  }

  ghost predicate CommitsOk(b: Book, commits: set<Commit>, members: set<NodeId>) {
    forall c :: c in commits ==> OwnIndex(b.termLog, c.term, c.index) && Chosen(b.acks, members, c.term, c.index)
  }

  ghost predicate CandLogsOk(termLog: map<nat, seq<Entry>>, candLog: map<(nat, NodeId), seq<Entry>>) {
    forall k {:trigger LogOk(termLog, candLog[k], k.0)} :: k in candLog ==> LogOk(termLog, candLog[k], k.0)
  }

  ghost predicate HistoryOk(h: History, members: set<NodeId>) {
    && BookOk(h.book, members)
    && CommitsOk(h.book, h.commits, members)
    && CandLogsOk(h.book.termLog, h.candLog)
  }

  ghost predicate NetOk(h: History, net: set<Packet>) {
    forall p {:trigger PacketOk(h, p)} :: p in net ==> PacketOk(h, p)
  }

  /** Every voter of an election let it be known. */
  ghost predicate VotersVoted(elections: map<nat, Election>, net: set<Packet>) {
    forall T, v :: T in elections && v in elections[T].voters ==> VotedFor(elections, net, v, T, elections[T].leader)
  }

  ghost predicate MembersOk(w: World) {
    && w.nodes.Keys == w.members
    && (forall v :: v in w.nodes ==> w.nodes[v].id == v && w.nodes[v].members == w.members)
    && (forall p :: p in w.net ==> p.from in w.nodes)
  }

  ghost predicate NodesOk(w: World) {
    forall v {:trigger NodeOk(w.h, w.net, w.nodes[v])} :: v in w.nodes ==> NodeOk(w.h, w.net, w.nodes[v])
  }

  ghost predicate Inv(w: World) {
    && HistoryOk(w.h, w.members)
    && NetOk(w.h, w.net)
    && VotersVoted(w.h.book.elections, w.net)
    && MembersOk(w)
    && NodesOk(w)
  }

  /** `n` is a node of the cluster, and the invariant holds. */
  ghost predicate Of(w: World, n: Node) {
    Inv(w) && n.id in w.nodes && n == w.nodes[n.id]
  }
}
