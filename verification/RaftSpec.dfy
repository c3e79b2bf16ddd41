/**
 The protocol of one Raft node as functions on values: what every event does to the node's
 volatile and durable-claim state, and which messages leave it. `RaftNode` implements these
 with fields and loops; `Cluster` runs many of them over a lossy network.

 The log is the whole log (no compaction); an entry's index is its position plus one.
*/
module RaftSpec {
  import opened Types

  datatype Role = Follower | Candidate | Leader

  datatype Message =
    | RequestVote(term: nat, candidate: NodeId, lastIndex: nat, lastTerm: nat)
    | RequestVoteResp(term: nat, granted: bool)
    | AppendEntries(term: nat, leader: NodeId, prevIndex: nat, prevTerm: nat, entries: seq<Entry>, leaderCommit: nat)
    | AppendEntriesResp(term: nat, success: bool, matchIndex: nat, conflictIndex: nat)
    | ReadProbe(term: nat, leader: NodeId, seqno: nat)
    | ReadProbeResp(term: nat, seqno: nat)

  datatype Packet = Packet(from: NodeId, to: NodeId, msg: Message)

  /** What goes to a hard-state slot; `seqno` counts the slot writes. */
  datatype HardState = HardState(term: nat, votedFor: Option<NodeId>, seqno: nat)

  /** The follow-up of a batch, due when its sync completes. */
  datatype Persist =
    | Campaign(term: nat)
    | VoteReply(to: NodeId, term: nat, granted: bool)
    | LogDurable(from: nat, index: nat, verified: nat, replyTo: Option<NodeId>, replyTerm: nat)
    | Reply(to: NodeId, msg: Message)
    | Quiet

  datatype Batch = Batch(action: Persist, hard: Option<HardState>)

  datatype PendingRead = PendingRead(id: nat, readIndex: nat, seqno: nat, confirmed: bool)

  datatype Node = Node(
    id: NodeId, members: set<NodeId>, maxBatch: nat,
    role: Role, term: nat, votedFor: Option<NodeId>,
    log: seq<Entry>, commitIndex: nat, lastApplied: nat,
    votes: set<NodeId>, nextIndex: map<NodeId, nat>, matchIndex: map<NodeId, nat>,
    durableIndex: nat, parked: seq<(nat, nat)>,
    stateSeq: nat, durableTerm: nat, durableHard: HardState, batches: seq<Batch>,
    readSeq: nat, pendingReads: seq<PendingRead>, probeAcked: map<NodeId, nat>,
    failed: bool)

  /** The node after an event, and the packets it handed to the network. */
  datatype Reaction = Reaction(node: Node, sent: set<Packet>)

  /** `verified` of a write that answers nobody. */
  const UNBOUNDED: nat := 0xFFFF_FFFF_FFFF_FFFF

  const PARKED_LIMIT: nat := 4096

  // ---- the log -----------------------------------------------------------

  function TermAt(log: seq<Entry>, i: nat): Option<nat> {
    if i == NO_INDEX then Some(0) else if i <= |log| then Some(log[i - 1].term) else None
  }

  function LastTerm(log: seq<Entry>): nat {
    if |log| == 0 then 0 else log[|log| - 1].term
  }

  predicate UpToDate(log: seq<Entry>, candIndex: nat, candTerm: nat) {
    candTerm > LastTerm(log) || (candTerm == LastTerm(log) && candIndex >= |log|)
  }

  /** Position in `entries` of the first one the log lacks or holds with another term. */
  function FirstNew(log: seq<Entry>, prev: nat, entries: seq<Entry>): (k: nat)
    ensures k <= |entries| && (prev <= |log| ==> prev + k <= |log|)
    ensures forall j :: 0 <= j < k ==> prev + j < |log| && log[prev + j].term == entries[j].term
    ensures k < |entries| ==> prev + k >= |log| || log[prev + k].term != entries[k].term
    decreases |entries|
  {
    if |entries| == 0 || prev >= |log| || log[prev].term != entries[0].term then 0
    else
      var rest := FirstNew(log, prev + 1, entries[1..]);
      assert forall j :: 1 <= j < rest + 1 ==> entries[j] == entries[1..][j - 1];
      rest + 1
  }

  /** First index of the run of entries that share the term at `i`. */
  function RunStart(log: seq<Entry>, i: nat): (r: nat)
    requires i <= |log|
    ensures r <= i
    decreases i
  {
    if i > 1 && log[i - 2].term == log[i - 1].term then RunStart(log, i - 1) else i
  }

  function ConflictHint(log: seq<Entry>, prev: nat): nat {
    if |log| < prev then |log| + 1 else RunStart(log, prev)
  }

  /** How many entries at the front have terms of at most `term`. */
  function LastIndexAtMost(log: seq<Entry>, term: nat): (k: nat)
    ensures k <= |log|
    ensures forall i :: 0 <= i < k ==> log[i].term <= term
    ensures k < |log| ==> log[k].term > term
  {
    if |log| == 0 || log[0].term > term then 0
    else
      var rest := LastIndexAtMost(log[1..], term);
      assert forall i :: 1 <= i < |log| ==> log[i] == log[1..][i - 1];
      rest + 1
  }

  // ---- durable claims ----------------------------------------------------

  ghost predicate Covered(parked: seq<(nat, nat)>, i: nat) {
    exists r :: r in parked && r.0 <= i <= r.1
  }

  /** The greatest index reached from `at` through indices that are covered and at most `cap`. */
  ghost function Reach(at: nat, parked: seq<(nat, nat)>, cap: nat): (d: nat)
    ensures at <= d && (d <= at || d <= cap)
    ensures forall i :: at < i <= d ==> Covered(parked, i)
    ensures !(d < cap && Covered(parked, d + 1))
    decreases cap - at
  {
    if at < cap && Covered(parked, at + 1) then Reach(at + 1, parked, cap) else at
  }

  /** The ranges that end above `at`. */
  function Above(parked: seq<(nat, nat)>, at: nat): (kept: seq<(nat, nat)>)
    ensures forall r :: r in kept <==> r in parked && r.1 > at
  {
    if |parked| == 0 then []
    else if parked[0].1 > at then [parked[0]] + Above(parked[1..], at)
    else Above(parked[1..], at)
  }

  function LimitParked(parked: seq<(nat, nat)>): seq<(nat, nat)> {
    if |parked| > PARKED_LIMIT then [] else parked
  }

  ghost function AdvanceDurable(n: Node): Node {
    var cap := LastIndexAtMost(n.log, n.durableTerm);
    var d := Reach(n.durableIndex, n.parked, cap);
    n.(durableIndex := d, parked := LimitParked(Above(n.parked, d)))
  }

  function ClampRanges(parked: seq<(nat, nat)>, cap: nat): seq<(nat, nat)> {
    if |parked| == 0 then []
    else if parked[0].0 <= cap then [(parked[0].0, Min(parked[0].1, cap))] + ClampRanges(parked[1..], cap)
    else ClampRanges(parked[1..], cap)
  }

  function Min(a: nat, b: nat): nat { if a <= b then a else b }
  function Max(a: nat, b: nat): nat { if a >= b then a else b }

  function Clamp(a: Persist, cap: nat): Persist {
    if a.LogDurable? then a.(index := Min(a.index, cap)) else a
  }

  function ClampAll(batches: seq<Batch>, cap: nat): (r: seq<Batch>)
    ensures |r| == |batches|
    ensures forall k :: 0 <= k < |r| ==> r[k] == batches[k].(action := Clamp(batches[k].action, cap))
  {
    seq(|batches|, k requires 0 <= k < |batches| => batches[k].(action := Clamp(batches[k].action, cap)))
  }

  /** Cut the log before index `at`, and every claim that reached past it. */
  function Truncate(n: Node, at: nat): Node
    requires 0 < at <= |n.log|
  {
    n.(log := n.log[..at - 1],
       durableIndex := Min(n.durableIndex, at - 1),
       batches := ClampAll(n.batches, at - 1),
       parked := ClampRanges(n.parked, at - 1))
  }

  // ---- sending and persisting ---------------------------------------------

  /** A message of a term that is not durable yet is withheld. */
  function Send(n: Node, to: NodeId, msg: Message): set<Packet> {
    if msg.term > n.durableTerm then {} else {Packet(n.id, to, msg)}
  }

  function Peers(n: Node): set<NodeId> { n.members - {n.id} }

  function Broadcast(n: Node, msg: Message): set<Packet> {
    if msg.term > n.durableTerm then {} else set p | p in Peers(n) :: Packet(n.id, p, msg)
  }

  function Quorum(members: set<NodeId>): nat { |members| / 2 + 1 }

  function CurrentHard(n: Node): HardState { HardState(n.term, n.votedFor, n.stateSeq) }

  /** Start a batch that writes the hard state (and whatever the action stands for). */
  function StartHard(n: Node, action: Persist): Node {
    n.(batches := n.batches + [Batch(action, Some(CurrentHard(n)))], stateSeq := n.stateSeq + 1)
  }

  function StartPlain(n: Node, action: Persist): Node {
    n.(batches := n.batches + [Batch(action, None)])
  }

  // ---- elections -----------------------------------------------------------

  function StepDown(n: Node, term: nat): Node {
    n.(term := term, votedFor := None, role := Follower, votes := {})
  }

  function StepDownAndPersist(n: Node, term: nat): Node {
    StartHard(StepDown(n, term), Quiet)
  }

  function BecomeCandidate(n: Node): Node {
    StartHard(n.(term := n.term + 1, votedFor := Some(n.id), role := Candidate, votes := {n.id}),
              Campaign(n.term + 1))
  }

  /** `ignore`: a leader was heard from recently, so a higher term is neither adopted nor voted for. */
  function OnRequestVote(n: Node, from: NodeId, term: nat, candidate: NodeId,
                         lastIndex: nat, lastTerm: nat, ignore: bool): Reaction
  {
    if term < n.term then Reaction(n, Send(n, from, RequestVoteResp(n.term, false)))
    else if term > n.term && ignore then Reaction(n, {})
    else
      var m := if term > n.term then StepDown(n, term) else n;
      var free := m.votedFor.None? || m.votedFor == Some(candidate);
      var granted := free && UpToDate(m.log, lastIndex, lastTerm);
      var casts := granted && m.votedFor != Some(candidate);
      var voted := if casts then m.(votedFor := Some(candidate)) else m;
      if term > n.term || casts then
        Reaction(StartHard(voted, VoteReply(from, voted.term, granted)), {})
      else if granted && (n.durableHard.term != n.term || n.durableHard.votedFor != Some(candidate)) then
        Reaction(voted, {})
      else
        Reaction(voted, Send(voted, from, RequestVoteResp(voted.term, granted)))
  }

  function BecomeLeader(n: Node): Reaction {
    var next := |n.log| + 1;
    var led := n.(role := Leader,
                  nextIndex := map p | p in Peers(n) :: next,
                  matchIndex := map p | p in Peers(n) :: NO_INDEX,
                  probeAcked := map[],
                  log := n.log + [Entry(n.term, next, NOOP_COMMAND)]);
    var started := StartPlain(led, LogDurable(next, next, UNBOUNDED, None, 0));
    Reaction(started, BroadcastAppend(started))
  }

  function OnVoteResp(n: Node, from: NodeId, term: nat, granted: bool): Reaction {
    if term > n.term then Reaction(StepDownAndPersist(n, term), {})
    else if n.role != Candidate || term != n.term || !granted then Reaction(n, {})
    else
      var m := n.(votes := n.votes + {from});
      if |m.votes * m.members| >= Quorum(m.members) then BecomeLeader(m) else Reaction(m, {})
  }

  // ---- replication ---------------------------------------------------------

  function Slice(log: seq<Entry>, next: nat, limit: nat): seq<Entry>
    requires next > 0
  {
    if next > |log| then [] else log[next - 1 .. Min(next - 1 + limit, |log|)]
  }

  function SendAppend(n: Node, to: NodeId): set<Packet> {
    var next := Max(if to in n.nextIndex then n.nextIndex[to] else 1, 1);
    match TermAt(n.log, next - 1)
    case None => {}
    case Some(prevTerm) =>
      Send(n, to, AppendEntries(n.term, n.id, next - 1, prevTerm, Slice(n.log, next, n.maxBatch), n.commitIndex))
  }

  function BroadcastAppend(n: Node): set<Packet> {
    set p, q | p in Peers(n) && q in SendAppend(n, p) :: q
  }

  function MatchOf(n: Node, m: NodeId): nat {
    if m == n.id then n.durableIndex else if m in n.matchIndex then n.matchIndex[m] else NO_INDEX
  }

  /** The members that hold index `k`, as far as this leader knows. */
  function Holders(n: Node, k: nat): set<NodeId> {
    set m | m in n.members && MatchOf(n, m) >= k
  }

  /** `k` is the greatest index held by a quorum. */
  ghost predicate IsQuorumIndex(n: Node, k: nat) {
    |Holders(n, k)| >= Quorum(n.members) && |Holders(n, k + 1)| < Quorum(n.members)
  }

  ghost function QuorumIndex(n: Node): (k: nat)
    ensures (exists k': nat :: IsQuorumIndex(n, k')) ==> IsQuorumIndex(n, k)
  {
    if exists k': nat :: IsQuorumIndex(n, k') then (var k': nat :| IsQuorumIndex(n, k'); k') else 0
  }

  ghost function MaybeCommit(n: Node): Node {
    var k := QuorumIndex(n);
    if IsQuorumIndex(n, k) && k > n.commitIndex && TermAt(n.log, k) == Some(n.term) then n.(commitIndex := k) else n
  }

  function Concede(n: Node): Node {
    if n.role == Follower then n else n.(role := Follower, votes := {})
  }

  function FollowCommit(n: Node, leaderCommit: nat, lastNew: nat): Node {
    n.(commitIndex := Max(n.commitIndex, Min(Min(leaderCommit, lastNew), |n.log|)))
  }

  /** The log after taking in the new part of an append that starts at position `k` of `entries`. */
  function Adopt(n: Node, prev: nat, entries: seq<Entry>, k: nat): Node
    requires k < |entries|
    requires prev + k <= |n.log|
  {
    var cut := if prev + k < |n.log| then Truncate(n, prev + k + 1) else n;
    cut.(log := cut.log + entries[k..])
  }

  /** An append whose previous entry matches: the node is a follower of `term` already. */
  function Accept(n: Node, from: NodeId, prev: nat, entries: seq<Entry>, dirty: bool): Reaction
    requires prev <= |n.log|
  {
    var lastNew := prev + |entries|;
    var k := FirstNew(n.log, prev, entries);
    if k < |entries| then
      var m := Adopt(n, prev, entries, k);
      var action := LogDurable(prev + 1 + k, |m.log|, lastNew, Some(from), m.term);
      Reaction(if dirty then StartHard(m, action) else StartPlain(m, action), {})
    else if dirty then
      Reaction(StartHard(n, LogDurable(n.durableIndex + 1, n.durableIndex, lastNew, Some(from), n.term)), {})
    else
      Reaction(n, Send(n, from, AppendEntriesResp(n.term, true, Min(n.durableIndex, lastNew), NO_INDEX)))
  }

  function OnAppendEntries(n: Node, from: NodeId, term: nat, prev: nat, prevTerm: nat,
                           entries: seq<Entry>, leaderCommit: nat): Reaction
  {
    if term < n.term then
      Reaction(n, Send(n, from, AppendEntriesResp(n.term, false, NO_INDEX, NO_INDEX)))
    else
      var dirty := term > n.term;
      var m := Concede(if dirty then StepDown(n, term) else n);
      if TermAt(m.log, prev) != Some(prevTerm) then
        var reply := AppendEntriesResp(m.term, false, m.durableIndex, ConflictHint(m.log, prev));
        if dirty then Reaction(StartHard(m, Reply(from, reply)), {}) else Reaction(m, Send(m, from, reply))
      else
        var r := Accept(m, from, prev, entries, dirty);
        r.(node := FollowCommit(r.node, leaderCommit, prev + |entries|))
  }

  ghost function OnAppendResp(n: Node, from: NodeId, term: nat, success: bool, matchIndex: nat,
                              conflictIndex: nat): Reaction
  {
    if term > n.term then Reaction(StepDownAndPersist(n, term), {})
    else if n.role != Leader || term != n.term then Reaction(n, {})
    else if success then
      var best := Max(if from in n.matchIndex then n.matchIndex[from] else NO_INDEX, matchIndex);
      var m := MaybeCommit(n.(matchIndex := n.matchIndex[from := best], nextIndex := n.nextIndex[from := best + 1]));
      Reaction(m, if best < |m.log| then SendAppend(m, from) else {})
    else
      var cur := if from in n.nextIndex then n.nextIndex[from] else 1;
      var next := Max(Min(Max(conflictIndex, 1), if cur > 0 then cur - 1 else 0), 1);
      var m := n.(nextIndex := n.nextIndex[from := next]);
      Reaction(m, SendAppend(m, from))
  }

  function Propose(n: Node, cmd: Command): Reaction {
    if n.role != Leader || n.failed then Reaction(n, {})
    else
      var index := |n.log| + 1;
      var m := StartPlain(n.(log := n.log + [Entry(n.term, index, cmd)]), LogDurable(index, index, UNBOUNDED, None, 0));
      Reaction(m, BroadcastAppend(m))
  }

  // ---- completions ---------------------------------------------------------

  /** The hard state of a synced batch is durable now. */
  ghost function NoteHard(n: Node, hard: Option<HardState>): Node {
    match hard
    case None => n
    case Some(hs) =>
      var m := if hs.seqno >= n.durableHard.seqno then n.(durableHard := hs) else n;
      if hs.term > m.durableTerm then AdvanceDurable(m.(durableTerm := hs.term)) else m
  }

  ghost function OnLogDurable(n: Node, a: Persist): Reaction
    requires a.LogDurable?
  {
    var index := Min(a.index, |n.log|);
    var m := if index > n.durableIndex then AdvanceDurable(n.(parked := n.parked + [(a.from, index)])) else n;
    var sent := match a.replyTo
      case None => {}
      case Some(to) => Send(m, to, AppendEntriesResp(a.replyTerm, true, Min(m.durableIndex, a.verified), NO_INDEX));
    Reaction(if m.role == Leader then MaybeCommit(m) else m, sent)
  }

  ghost function OnDurable(n: Node, a: Persist): Reaction {
    match a
    case Campaign(term) =>
      if n.term == term && n.role == Candidate then
        var asked := Broadcast(n, RequestVote(term, n.id, |n.log|, LastTerm(n.log)));
        if |n.votes * n.members| >= Quorum(n.members) then
          var r := BecomeLeader(n);
          Reaction(r.node, asked + r.sent)
        else Reaction(n, asked)
      else Reaction(n, {})
    case VoteReply(to, term, granted) => Reaction(n, Send(n, to, RequestVoteResp(term, granted)))
    case LogDurable(_, _, _, _, _) => OnLogDurable(n, a)
    case Reply(to, msg) => Reaction(n, Send(n, to, msg))
    case Quiet => Reaction(n, {})
  }

  /** The sync of batch `k` completed. */
  ghost function OnSynced(n: Node, k: nat): Reaction
    requires k < |n.batches|
  {
    var b := n.batches[k];
    OnDurable(NoteHard(n.(batches := n.batches[..k] + n.batches[k + 1..]), b.hard), b.action)
  }

  /**
   A write or sync of batch `k` failed: its action is never taken and the node stops. Another write of
   the batch may still land, so the hard state it carries stays on record for the crash that follows.
  */
  function OnStorageFailure(n: Node, k: nat): Node
    requires k < |n.batches|
  {
    n.(batches := n.batches[k := Batch(Quiet, n.batches[k].hard)], failed := true)
  }

  // ---- ReadIndex -------------------------------------------------------------

  function BroadcastProbe(n: Node): set<Packet> {
    Broadcast(n, ReadProbe(n.term, n.id, n.readSeq))
  }

  predicate AcceptsRead(n: Node) {
    n.role == Leader && !n.failed && TermAt(n.log, n.commitIndex) == Some(n.term)
  }

  function RequestRead(n: Node, id: nat): Reaction {
    if !AcceptsRead(n) then Reaction(n, {})
    else
      var confirmed := |n.members| == 1;
      var m := n.(readSeq := n.readSeq + 1,
                  pendingReads := n.pendingReads + [PendingRead(id, n.commitIndex, n.readSeq + 1, confirmed)]);
      Reaction(m, if confirmed then {} else BroadcastProbe(m))
  }

  function OnReadProbe(n: Node, from: NodeId, term: nat, seqno: nat): Reaction {
    if term < n.term then Reaction(n, Send(n, from, ReadProbeResp(n.term, seqno)))
    else if term > n.term then Reaction(StepDownAndPersist(n, term), {})
    else if n.role == Leader then Reaction(n, {})
    else
      var m := Concede(n);
      Reaction(m, Send(m, from, ReadProbeResp(term, seqno)))
  }

  function Vouchers(n: Node, seqno: nat): set<NodeId> {
    set m | m in n.probeAcked && m in n.members && n.probeAcked[m] >= seqno
  }

  function Confirm(n: Node, r: PendingRead): PendingRead {
    var own := if n.id in n.members then 1 else 0;
    if !r.confirmed && own + |Vouchers(n, r.seqno)| >= Quorum(n.members) then r.(confirmed := true) else r
  }

  function OnReadProbeResp(n: Node, from: NodeId, term: nat, seqno: nat): Reaction {
    if term > n.term then Reaction(StepDownAndPersist(n, term), {})
    else if n.role != Leader || term != n.term then Reaction(n, {})
    else
      var acked := Max(if from in n.probeAcked then n.probeAcked[from] else 0, seqno);
      var m := n.(probeAcked := n.probeAcked[from := acked]);
      Reaction(m.(pendingReads :=
                  seq(|m.pendingReads|, i requires 0 <= i < |m.pendingReads| => Confirm(m, m.pendingReads[i]))), {})
  }

  predicate Ready(n: Node, r: PendingRead) { r.confirmed && n.lastApplied >= r.readIndex }

  function Unready(n: Node, pending: seq<PendingRead>): (kept: seq<PendingRead>)
    ensures forall r :: r in kept <==> r in pending && !Ready(n, r)
  {
    if |pending| == 0 then []
    else if Ready(n, pending[0]) then Unready(n, pending[1..])
    else [pending[0]] + Unready(n, pending[1..])
  }

  /** Everything committed is applied. */
  function ApplyCommitted(n: Node): Node {
    n.(lastApplied := Max(n.lastApplied, Min(n.commitIndex, |n.log|)))
  }

  /** The reads a drain answers: a leader's ready ones, after applying. */
  function Served(n: Node): set<PendingRead> {
    var m := ApplyCommitted(n);
    if m.role == Leader then set r | r in m.pendingReads && Ready(m, r) else {}
  }

  /** What the server does after every event: apply, answer ready reads, drop those of a lost leadership. */
  function Drain(n: Node): Node {
    var m := ApplyCommitted(n);
    m.(pendingReads := if m.role == Leader then Unready(m, m.pendingReads) else [])
  }

  // ---- events ----------------------------------------------------------------

  ghost function OnMessage(n: Node, from: NodeId, msg: Message, ignore: bool): Reaction {
    if n.failed then Reaction(n, {})
    else
      match msg
      case RequestVote(term, cand, li, lt) => OnRequestVote(n, from, term, cand, li, lt, ignore)
      case RequestVoteResp(term, granted) => OnVoteResp(n, from, term, granted)
      case AppendEntries(term, _, prev, prevTerm, entries, commit) =>
        OnAppendEntries(n, from, term, prev, prevTerm, entries, commit)
      case AppendEntriesResp(term, success, m, conflict) => OnAppendResp(n, from, term, success, m, conflict)
      case ReadProbe(term, _, seqno) => OnReadProbe(n, from, term, seqno)
      case ReadProbeResp(term, seqno) => OnReadProbeResp(n, from, term, seqno)
  }

  function OnElectionTimeout(n: Node): Reaction {
    if n.failed || n.role == Leader || n.id !in n.members then Reaction(n, {})
    else Reaction(BecomeCandidate(n), {})
  }

  /**
   A round of pre-votes begins: a candidate gives up, and nothing reaches the disk. A round that is won
   ends in `OnElectionTimeout`.
  */
  function OnPreVoteRound(n: Node): Reaction {
    if n.failed || n.role == Leader || n.id !in n.members then Reaction(n, {})
    else Reaction(n.(role := Follower, votes := {}), {})
  }

  /** A message that does nothing else names a newer term: an answer to a pre-vote, or one about a snapshot. */
  function OnNewerTerm(n: Node, term: nat): Reaction {
    if n.failed || term <= n.term then Reaction(n, {}) else Reaction(StepDownAndPersist(n, term), {})
  }

  function OnHeartbeat(n: Node): Reaction {
    if n.failed || n.role != Leader then Reaction(n, {})
    else
      var probes := if exists r :: r in n.pendingReads && !r.confirmed then BroadcastProbe(n) else {};
      Reaction(n, BroadcastAppend(n) + probes)
  }

  /** A node that starts from what its disk holds. */
  function Recovered(id: NodeId, members: set<NodeId>, maxBatch: nat, hs: HardState, log: seq<Entry>): Node {
    Node(id, members, maxBatch, Follower, hs.term, hs.votedFor, log, 0, 0, {}, map[], map[],
         |log|, [], hs.seqno + 1, hs.term, hs, [], 0, [], map[], false)
  }
}
