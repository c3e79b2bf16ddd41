/**
 The store as its clients see it. Clients ask leaders for commands and reads; a command is answered
 once some node has applied it, a read once its leader serves it, and either answer is what the state
 machine gives over the entries applied. Whatever the network loses, repeats or reorders and whoever
 crashes, every such history is linearizable if each read in it was truly vouched for by a quorum.

 Time is counted in steps: an operation invoked by step `i` has `invoked <= i`, and one answered out of
 the state after `t` steps has returned at `t` or later.
*/
module EndToEnd {
  import opened Types
  import opened RaftSpec
  import opened Cluster
  import opened ClusterTheorems
  import opened ReadIndex
  import opened Linearizability
  import opened Locality
  import opened StateMachine
  import opened ClientHistory
  import opened Provenance

  function Commands(log: seq<Entry>): (cs: seq<Command>)
    ensures |cs| == |log| && forall i :: 0 <= i < |cs| ==> cs[i] == log[i].cmd
  {
    seq(|log|, i requires 0 <= i < |log| => log[i].cmd)
  }

  /** What an operation of a client came from: a command, a read served, or nothing that was answered. */
  datatype Source = Asked(cmd: Command) | Read(v: NodeId, i: nat, j: nat, r: PendingRead) | Idle

  /**
   Node `u` has applied `cmd`, a retry perhaps, before any newer command of its client, and the answer is
   what the machine gave.
  */
  ghost predicate Told(rws: seq<ReadWorld>, o: Operation, cmd: Command, t: nat, u: NodeId, k: nat) {
    && t < |rws| && u in rws[t].w.nodes && t <= Returned(o)
    && var n := rws[t].w.nodes[u];
      && k < n.lastApplied <= |n.log| && n.log[k].cmd == cmd && !Internal(cmd)
      && NoneHigher(Commands(n.log[..k]), cmd.client, cmd.seqno)
      && o.outcome == Some(Apply(Replay(FRESH, Commands(n.log[..k])), cmd).1)
  }

  ghost predicate Unanswered(o: Operation) { o.outcome.None? && o.completed.None? }

  /** A client's number stands for one command, which no leader takes before the client asks. */
  ghost predicate CommandOp(rws: seq<ReadWorld>, acts: seq<Action>, o: Operation, cmd: Command) {
    && o.op == cmd.op
    && (forall i ::
          0 <= i < |acts| && acts[i].ClientCommand? && acts[i].cmd.client == cmd.client
            && acts[i].cmd.seqno == cmd.seqno
          ==> acts[i].cmd == cmd && o.invoked <= i)
    && (Unanswered(o) || exists t, u, k :: Told(rws, o, cmd, t, u, k))
  }

  /** A read is answered from what its leader has applied when it serves it. */
  ghost predicate ReadOp(rws: seq<ReadWorld>, acts: seq<Action>, o: Operation, v: NodeId, i: nat, j: nat,
                         r: PendingRead)
    requires |rws| == |acts| + 1
  {
    && o.op.Get? && i < j < |acts| && AcceptedAt(rws, acts, i, v) && v in rws[i].w.nodes
    && ServedAt(rws, acts, j, v, rws[i].w.nodes[v].term, rws[i].w.nodes[v].readSeq + 1, r)
    && o.invoked <= i && j + 1 <= Returned(o) && v in rws[j + 1].w.nodes
    && var n := rws[j + 1].w.nodes[v];
      n.lastApplied <= |n.log|
      && o.outcome == Some(Value(Lookup(Replay(FRESH, Commands(n.log[..n.lastApplied])).state, o.op.key)))
  }

  ghost predicate FromRun(rws: seq<ReadWorld>, acts: seq<Action>, o: Operation, s: Source)
    requires |rws| == |acts| + 1
  {
    match s
    case Asked(cmd) => CommandOp(rws, acts, o, cmd)
    case Read(v, i, j, r) => ReadOp(rws, acts, o, v, i, j, r)
    case Idle => Unanswered(o)
  }

  /** A quorum truly vouched for the read when it was served. */
  ghost predicate TrueRead(rws: seq<ReadWorld>, s: Source) {
    s.Read? ==>
      && s.i < |rws| && s.v in rws[s.i].w.nodes
      && GenuineAt(rws, s.j, s.v, rws[s.i].w.nodes[s.v].term, rws[s.i].w.nodes[s.v].readSeq + 1)
  }

  predicate SameNumber(a: Source, b: Source) {
    a.Asked? && b.Asked? && a.cmd.client == b.cmd.client && a.cmd.seqno == b.cmd.seqno
  }

  /** The history of all that clients asked for in a run. */
  ghost predicate HistoryOf(rws: seq<ReadWorld>, acts: seq<Action>, ops: seq<Operation>, from: seq<Source>)
    requires |rws| == |acts| + 1
  {
    && |from| == |ops|
    && (forall x :: 0 <= x < |ops| ==>
          KeyOf(ops[x].op).Some? && ops[x].invoked < END_OF_TIME && Returned(ops[x]) <= END_OF_TIME
            && FromRun(rws, acts, ops[x], from[x]))
    && (forall x, y :: 0 <= x < |from| && 0 <= y < |from| && SameNumber(from[x], from[y]) ==> x == y)
    && (forall i :: 0 <= i < |acts| && acts[i].ClientCommand? && !Internal(acts[i].cmd) ==> Asked(acts[i].cmd) in from)
  }

  // ---- one log for all ---------------------------------------------------------------------------

  /** `log` is the longest that any node ever applied, node `u0` after `t0` steps; every other is a beginning of it. */
  ghost predicate Longest(rws: seq<ReadWorld>, log: seq<Entry>, t0: nat, u0: NodeId) {
    && t0 < |rws| && u0 in rws[t0].w.nodes
    && (var n := rws[t0].w.nodes[u0]; n.lastApplied <= |n.log| && log == n.log[..n.lastApplied])
    && forall t, u :: 0 <= t < |rws| && u in rws[t].w.nodes ==> AppliedPrefix(rws[t].w.nodes[u], log)
  }

  ghost predicate AppliedPrefix(n: Node, log: seq<Entry>) {
    n.lastApplied <= n.commitIndex && n.lastApplied <= |n.log| && n.log[..n.lastApplied] <= log
  }

  lemma {:induction false} MostApplied(nodes: map<NodeId, Node>, vs: set<NodeId>) returns (u: NodeId)
    requires vs != {} && vs <= nodes.Keys
    ensures u in vs && forall v :: v in vs ==> nodes[v].lastApplied <= nodes[u].lastApplied
    decreases |vs|
  {
    var first :| first in vs;
    var rest := vs - {first};
    u := first;
    if rest != {} {
      var z := MostApplied(nodes, rest);
      if nodes[z].lastApplied > nodes[first].lastApplied { u := z; }
    }
    forall v | v in vs ensures nodes[v].lastApplied <= nodes[u].lastApplied { assert v == first || v in rest; }
  }

  lemma {:induction false} MostAppliedEver(rws: seq<ReadWorld>, n: nat) returns (t0: nat, u0: NodeId)
    requires 0 < n <= |rws| && forall t :: 0 <= t < n ==> rws[t].w.nodes.Keys != {}
    ensures t0 < n && u0 in rws[t0].w.nodes
    ensures forall t, u ::
      0 <= t < n && u in rws[t].w.nodes ==> rws[t].w.nodes[u].lastApplied <= rws[t0].w.nodes[u0].lastApplied
    decreases n
  {
    var nodes := rws[n - 1].w.nodes;
    var u := MostApplied(nodes, nodes.Keys);
    t0, u0 := n - 1, u;
    if n > 1 {
      var t1, u1 := MostAppliedEver(rws, n - 1);
      if rws[t1].w.nodes[u1].lastApplied > nodes[u].lastApplied { t0, u0 := t1, u1; }
    }
  }

  lemma RunHasNodes(rws: seq<ReadWorld>, acts: seq<Action>, t: nat)
    requires ReadRun(rws, acts) && t < |rws|
    ensures rws[t].w.nodes.Keys != {}
  {
    hide Cluster.Run, ReadNext, Enabled;
    WorldsRun(rws, acts);
    RunInv(Worlds(rws), t);
    RunGrows(Worlds(rws), 0, t);
    NodesThere(rws[0].w, rws[t].w);
  }

  lemma NodesThere(w0: World, w: World)
    requires Init(w0) && ClusterInv.Inv(w) && w.members == w0.members
    ensures w.nodes.Keys != {}
  {
  }

  lemma PrefixOfLonger(rws: seq<ReadWorld>, acts: seq<Action>, t: nat, u: NodeId, t0: nat, u0: NodeId)
    requires ReadRun(rws, acts) && t < |rws| && u in rws[t].w.nodes && t0 < |rws| && u0 in rws[t0].w.nodes
    requires rws[t].w.nodes[u].lastApplied <= rws[t0].w.nodes[u0].lastApplied
    ensures var n := rws[t0].w.nodes[u0];
      n.lastApplied <= |n.log| && AppliedPrefix(rws[t].w.nodes[u], n.log[..n.lastApplied])
  {
    hide Cluster.Run, ReadRun, ClusterInv.Decided;
    WorldsRun(rws, acts);
    var ws := Worlds(rws);
    DecidedLater(ws, t, t, u);
    DecidedLater(ws, t0, t0, u0);
    CommittedPrefixesAgree(ws, t, t0, u, u0);
    var m, n := rws[t].w.nodes[u], rws[t0].w.nodes[u0];
    var k := Min(m.commitIndex, n.commitIndex);
    PrefixAgrees(m.log, n.log, k, m.lastApplied);
    assert m.log[..m.lastApplied] == n.log[..n.lastApplied][..m.lastApplied];
  }

  lemma PrefixAgrees(a: seq<Entry>, b: seq<Entry>, k: nat, l: nat)
    requires Agree(a, b, k) && l <= k
    ensures a[..l] == b[..l]
  {
    assert a[..l] == a[..k][..l] && b[..l] == b[..k][..l];
  }

  lemma LongestLog(rws: seq<ReadWorld>, acts: seq<Action>) returns (log: seq<Entry>, t0: nat, u0: NodeId)
    requires ReadRun(rws, acts)
    ensures Longest(rws, log, t0, u0)
  {
    hide ReadRun, AppliedPrefix;
    RunLength(rws, acts);
    forall t | 0 <= t < |rws| ensures rws[t].w.nodes.Keys != {} { RunHasNodes(rws, acts, t); }
    t0, u0 := MostAppliedEver(rws, |rws|);
    PrefixOfLonger(rws, acts, t0, u0, t0, u0);
    log := rws[t0].w.nodes[u0].log[..rws[t0].w.nodes[u0].lastApplied];
    forall t, u | 0 <= t < |rws| && u in rws[t].w.nodes ensures AppliedPrefix(rws[t].w.nodes[u], log) {
      PrefixOfLonger(rws, acts, t, u, t0, u0);
    }
  }

  // ---- where operations take effect ----------------------------------------------------------------

  ghost predicate StandsAt(cs: seq<Command>, cmd: Command, p: nat) {
    p < |cs| && cs[p] == cmd && First(cs[..p], cmd)
  }

  lemma StandsOnce(cs: seq<Command>, cmd: Command, p: nat, q: nat)
    requires StandsAt(cs, cmd, p) && StandsAt(cs, cmd, q)
    ensures p == q
  {
    if p < q { NotFirstAgain(cs, cmd, p, q); }
    if q < p { NotFirstAgain(cs, cmd, q, p); }
  }

  lemma NotFirstAgain(cs: seq<Command>, cmd: Command, p: nat, q: nat)
    requires p < q <= |cs| && cs[p] == cmd
    ensures !First(cs[..q], cmd)
  {
    assert cs[..q][p] == cmd && cmd in cs[..q];
  }

  ghost function PlaceOf(rws: seq<ReadWorld>, cs: seq<Command>, s: Source): Place {
    match s
    case Asked(cmd) =>
      if exists p :: StandsAt(cs, cmd, p) then (var p :| StandsAt(cs, cmd, p); AtCommand(p)) else Nowhere
    case Read(v, _, j, _) =>
      if j + 1 < |rws| && v in rws[j + 1].w.nodes then AfterCommands(rws[j + 1].w.nodes[v].lastApplied) else Nowhere
    case Idle => Nowhere
  }

  ghost function Places(rws: seq<ReadWorld>, cs: seq<Command>, from: seq<Source>): (at: seq<Place>)
    ensures |at| == |from| && forall x :: 0 <= x < |at| ==> at[x] == PlaceOf(rws, cs, from[x])
  {
    seq(|from|, x requires 0 <= x < |from| => PlaceOf(rws, cs, from[x]))
  }

  lemma CommandsPrefix(a: seq<Entry>, b: seq<Entry>, k: nat)
    requires a <= b && k <= |a|
    ensures Commands(a[..k]) == Commands(b)[..k]
  {
  }

  /** What a node has applied after `t` steps, some client had asked for before. */
  lemma AskedBefore(rws: seq<ReadWorld>, acts: seq<Action>, t: nat, u: NodeId, k: nat) returns (i: nat)
    requires ReadRun(rws, acts) && t < |rws| && u in rws[t].w.nodes && k < |rws[t].w.nodes[u].log|
    requires !Internal(rws[t].w.nodes[u].log[k].cmd)
    ensures i < t <= |acts| && acts[i].ClientCommand? && acts[i].cmd == rws[t].w.nodes[u].log[k].cmd
  {
    hide Enabled, Next, RecordReads, Cluster.Run;
    RunLength(rws, acts);
    WorldsRun(rws, acts);
    var ws := Worlds(rws);
    forall s | 0 <= s < |acts| ensures Enabled(ws[s], acts[s]) && ws[s + 1] == Next(ws[s], acts[s]) {
      assert rws[s + 1] == ReadNext(rws[s], acts[s]);
    }
    RunKnown(ws, acts, t);
    var e := rws[t].w.nodes[u].log[k];
    assert Known(ws[t].nodes[u].log, AskedBy(acts, t));
    assert e in ws[t].nodes[u].log && e.cmd in AskedBy(acts, t);
    i :| 0 <= i < t && acts[i].ClientCommand? && acts[i].cmd == e.cmd;
  }

  /** The first of several occurrences of a command has the effect, and gives what the others are answered. */
  lemma {:induction false} FirstStands(cs: seq<Command>, cmd: Command, k: nat) returns (p: nat)
    requires k < |cs| && cs[k] == cmd && !Internal(cmd) && NoneHigher(cs[..k], cmd.client, cmd.seqno)
    requires forall j ::
      0 <= j < k && cs[j].client == cmd.client && cs[j].seqno == cmd.seqno && !Internal(cs[j]) ==> cs[j] == cmd
    ensures p <= k && StandsAt(cs, cmd, p)
    ensures Apply(Replay(FRESH, cs[..p]), cmd).1 == Apply(Replay(FRESH, cs[..k]), cmd).1
    decreases k
  {
    hide Apply, Replay;
    p := k;
    if !First(cs[..k], cmd) {
      var d :| d in cs[..k] && !Internal(d) && d.client == cmd.client && d.seqno >= cmd.seqno;
      var j :| 0 <= j < k && cs[j] == d;
      forall x | x in cs[..j] ensures x in cs[..k] {}
      p := FirstStands(cs, cmd, j);
      LaterAnswer(cs, cmd, p, k);
    }
  }

  lemma LaterAnswer(cs: seq<Command>, cmd: Command, p: nat, k: nat)
    requires p < k <= |cs| && StandsAt(cs, cmd, p) && NoneHigher(cs[..k], cmd.client, cmd.seqno)
    ensures Apply(Replay(FRESH, cs[..p]), cmd).1 == Apply(Replay(FRESH, cs[..k]), cmd).1
  {
    hide Apply, Replay, SessionsOf;
    var m := Replay(FRESH, cs[..p]);
    ReplaySessions(cs[..p]);
    SeenIsNotFirst(m, cs[..p], cmd);
    ReplayNext(cs, p);
    assert cs[..k] == cs[..p + 1] + cs[p + 1..k];
    ReplayConcat(FRESH, cs[..p + 1], cs[p + 1..k]);
    forall x | x in cs[p + 1..k] ensures x in cs[..k] {}
    RetryAnswered(m, cmd, cs[p + 1..k]);
  }

  /** A command told to a client stands in the longest log where it first was, or before. */
  lemma ToldStands(rws: seq<ReadWorld>, acts: seq<Action>, log: seq<Entry>, t0: nat, u0: NodeId, o: Operation,
                   cmd: Command,
                   t: nat, u: NodeId, k: nat)
    returns (p: nat)
    requires ReadRun(rws, acts) && Longest(rws, log, t0, u0) && CommandOp(rws, acts, o, cmd)
    requires Told(rws, o, cmd, t, u, k)
    ensures var cs := Commands(log);
      p <= k && StandsAt(cs, cmd, p) && o.outcome == Some(Apply(Replay(FRESH, cs[..p]), cs[p]).1)
  {
    hide First, Apply, Replay, ReadRun;
    var n := rws[t].w.nodes[u];
    assert AppliedPrefix(n, log);
    var mine := n.log[..n.lastApplied];
    assert mine[k] == n.log[k] && mine[..k] == n.log[..k];
    CommandsPrefix(mine, log, k);
    var cs := Commands(log);
    forall j | 0 <= j < k && cs[j].client == cmd.client && cs[j].seqno == cmd.seqno && !Internal(cs[j])
      ensures cs[j] == cmd
    {
      assert log[j] == mine[j] == n.log[j];
      var i := AskedBefore(rws, acts, t, u, j);
    }
    p := FirstStands(cs, cmd, k);
  }

  lemma CommandFits(rws: seq<ReadWorld>, acts: seq<Action>, log: seq<Entry>, t0: nat, u0: NodeId, o: Operation,
                    cmd: Command)
    requires ReadRun(rws, acts) && Longest(rws, log, t0, u0) && CommandOp(rws, acts, o, cmd)
    ensures Fits(Commands(log), o, PlaceOf(rws, Commands(log), Asked(cmd)))
  {
    hide Longest, Told, Apply, Replay, ReadRun;
    var cs := Commands(log);
    if !Unanswered(o) {
      var t, u, k :| Told(rws, o, cmd, t, u, k);
      var q := ToldStands(rws, acts, log, t0, u0, o, cmd, t, u, k);
      var p := PlaceOf(rws, cs, Asked(cmd)).pos;
      StandsOnce(cs, cmd, p, q);
    }
  }

  lemma ReadFits(rws: seq<ReadWorld>, acts: seq<Action>, log: seq<Entry>, t0: nat, u0: NodeId, o: Operation,
                 v: NodeId, i: nat, j: nat, r: PendingRead)
    requires |rws| == |acts| + 1 && Longest(rws, log, t0, u0) && ReadOp(rws, acts, o, v, i, j, r)
    ensures Fits(Commands(log), o, PlaceOf(rws, Commands(log), Read(v, i, j, r)))
  {
    hide ServedAt, AcceptedAt, Replay;
    var n := rws[j + 1].w.nodes[v];
    assert AppliedPrefix(n, log);
    CommandsPrefix(n.log[..n.lastApplied], log, n.lastApplied);
    assert n.log[..n.lastApplied][..n.lastApplied] == n.log[..n.lastApplied];
  }

  lemma AllPlaced(rws: seq<ReadWorld>, acts: seq<Action>, ops: seq<Operation>, from: seq<Source>, log: seq<Entry>,
                  t0: nat, u0: NodeId)
    requires ReadRun(rws, acts) && |rws| == |acts| + 1 && HistoryOf(rws, acts, ops, from) && Longest(rws, log, t0, u0)
    ensures AllFit(Commands(log), ops, Places(rws, Commands(log), from))
  {
    hide ReadRun, Longest, CommandOp, ReadOp, Fits, PlaceOf;
    var cs := Commands(log);
    forall x | 0 <= x < |ops| ensures Fits(cs, ops[x], PlaceOf(rws, cs, from[x])) {
      assert FromRun(rws, acts, ops[x], from[x]);
      match from[x] {
        case Asked(cmd) => CommandFits(rws, acts, log, t0, u0, ops[x], cmd);
        case Read(v, i, j, r) => ReadFits(rws, acts, log, t0, u0, ops[x], v, i, j, r);
        case Idle => IdleFits(rws, cs, ops[x]);
      }
    }
  }

  lemma IdleFits(rws: seq<ReadWorld>, cs: seq<Command>, o: Operation)
    requires Unanswered(o)
    ensures Fits(cs, o, PlaceOf(rws, cs, Idle))
  {
  }

  // ---- every effect was asked for --------------------------------------------------------------------

  lemma AllCovered(rws: seq<ReadWorld>, acts: seq<Action>, ops: seq<Operation>, from: seq<Source>, log: seq<Entry>,
                   t0: nat, u0: NodeId)
    requires ReadRun(rws, acts) && |rws| == |acts| + 1 && HistoryOf(rws, acts, ops, from) && Longest(rws, log, t0, u0)
    ensures ClientHistory.Covered(Commands(log), Places(rws, Commands(log), from))
  {
    hide ReadRun, FromRun;
    var cs := Commands(log);
    var at := Places(rws, cs, from);
    forall p | 0 <= p < |cs| && First(cs[..p], cs[p]) ensures exists x :: 0 <= x < |at| && at[x] == AtCommand(p) {
      var n := rws[t0].w.nodes[u0];
      assert log[p] == n.log[p];
      var i := AskedBefore(rws, acts, t0, u0, p);
      assert Asked(cs[p]) in from;
      var x :| 0 <= x < |from| && from[x] == Asked(cs[p]);
      assert StandsAt(cs, cs[p], p);
      assert at[x].AtCommand?;
      StandsOnce(cs, cs[p], at[x].pos, p);
    }
    forall x, y | 0 <= x < |at| && 0 <= y < |at| && at[x] == at[y] && at[x].AtCommand? ensures x == y {
      assert from[x].Asked? && from[y].Asked?;
      assert StandsAt(cs, from[x].cmd, at[x].pos) && StandsAt(cs, from[y].cmd, at[y].pos);
      assert SameNumber(from[x], from[y]);
    }
  }

  // ---- effects are in time -------------------------------------------------------------------------------

  /** A command some node has applied was invoked before. */
  lemma CommandPassed(rws: seq<ReadWorld>, acts: seq<Action>, log: seq<Entry>, t0: nat, u0: NodeId, o: Operation,
                      cmd: Command,
                      t: nat, u: NodeId)
    requires ReadRun(rws, acts) && Longest(rws, log, t0, u0) && CommandOp(rws, acts, o, cmd)
    requires PlaceOf(rws, Commands(log), Asked(cmd)).AtCommand? && t < |rws| && u in rws[t].w.nodes
    requires PlaceOf(rws, Commands(log), Asked(cmd)).pos < rws[t].w.nodes[u].lastApplied
    ensures o.invoked < t
  {
    hide ReadRun, Told, Unanswered;
    var p := PlaceOf(rws, Commands(log), Asked(cmd)).pos;
    var n := rws[t].w.nodes[u];
    assert AppliedPrefix(n, log);
    assert n.log[..n.lastApplied][p] == log[p] == n.log[p];
    assert StandsAt(Commands(log), cmd, p);
    var i := AskedBefore(rws, acts, t, u, p);
  }

  /** A read that misses what some node has applied was accepted before. */
  lemma ReadPassed(rws: seq<ReadWorld>, acts: seq<Action>, log: seq<Entry>, t0: nat, u0: NodeId, o: Operation,
                   v: NodeId, i: nat, j: nat, r: PendingRead, t: nat, u: NodeId)
    requires ReadRun(rws, acts) && |rws| == |acts| + 1 && Longest(rws, log, t0, u0)
    requires ReadOp(rws, acts, o, v, i, j, r) && TrueRead(rws, Read(v, i, j, r))
    requires t < |rws| && u in rws[t].w.nodes && rws[j + 1].w.nodes[v].lastApplied < rws[t].w.nodes[u].lastApplied
    ensures o.invoked < t
  {
    hide ReadRun, GenuineAt, ServedAt, AcceptedAt, Replay;
    assert AppliedPrefix(rws[t].w.nodes[u], log);
    if t <= i { ServedReadsAreFresh(rws, acts, t, i, j, v, r, u); }
  }

  ghost predicate Passes(rws: seq<ReadWorld>, p: Place, t: nat, u: NodeId) {
    t < |rws| && u in rws[t].w.nodes && !p.Nowhere? && Rank(p) < 2 * rws[t].w.nodes[u].lastApplied
  }

  lemma Passed(rws: seq<ReadWorld>, acts: seq<Action>, log: seq<Entry>, t0: nat, u0: NodeId, o: Operation, s: Source,
               t: nat, u: NodeId)
    requires ReadRun(rws, acts) && |rws| == |acts| + 1 && Longest(rws, log, t0, u0)
    requires FromRun(rws, acts, o, s) && TrueRead(rws, s)
    requires Passes(rws, PlaceOf(rws, Commands(log), s), t, u)
    ensures o.invoked < t
  {
    hide ReadRun, TrueRead, Longest, CommandOp, StandsAt;
    match s {
      case Asked(cmd) => CommandPassed(rws, acts, log, t0, u0, o, cmd, t, u);
      case Read(v, i, j, r) => ReadPassed(rws, acts, log, t0, u0, o, v, i, j, r, t, u);
      case Idle =>
    }
  }

  /** An answered operation returned when some node had applied all that takes effect before it. */
  lemma AnsweredAt(rws: seq<ReadWorld>, acts: seq<Action>, log: seq<Entry>, t0: nat, u0: NodeId, o: Operation,
                   s: Source)
    returns (t: nat, u: NodeId)
    requires ReadRun(rws, acts) && |rws| == |acts| + 1 && Longest(rws, log, t0, u0) && FromRun(rws, acts, o, s)
    requires !Unanswered(o)
    requires !PlaceOf(rws, Commands(log), s).Nowhere?
    ensures t < |rws| && u in rws[t].w.nodes && t <= Returned(o)
    ensures Rank(PlaceOf(rws, Commands(log), s)) <= 2 * rws[t].w.nodes[u].lastApplied
    ensures s.Asked? ==> Passes(rws, PlaceOf(rws, Commands(log), s), t, u)
  {
    hide ReadRun, Longest, ServedAt, AcceptedAt, Replay, Apply, First, Unanswered;
    match s {
      case Asked(cmd) =>
        var k;
        t, u, k :| Told(rws, o, cmd, t, u, k);
        var p := ToldStands(rws, acts, log, t0, u0, o, cmd, t, u, k);
        StandsOnce(Commands(log), cmd, PlaceOf(rws, Commands(log), s).pos, p);
      case Read(v, i, j, r) => t, u := j + 1, v;
      case Idle => t, u := t0, u0;
    }
  }

  lemma AllInTime(rws: seq<ReadWorld>, acts: seq<Action>, ops: seq<Operation>, from: seq<Source>, log: seq<Entry>,
                  t0: nat, u0: NodeId)
    requires ReadRun(rws, acts) && |rws| == |acts| + 1 && HistoryOf(rws, acts, ops, from)
    requires Longest(rws, log, t0, u0) && forall x :: 0 <= x < |from| ==> TrueRead(rws, from[x])
    ensures InTime(ops, Places(rws, Commands(log), from))
  {
    hide ReadRun, TrueRead, Longest, FromRun, PlaceOf;
    var cs := Commands(log);
    var at := Places(rws, cs, from);
    AllPlaced(rws, acts, ops, from, log, t0, u0);
    forall x, y | 0 <= x < |ops| && 0 <= y < |ops| && !at[x].Nowhere? && !at[y].Nowhere? && Rank(at[x]) < Rank(at[y])
      ensures ops[x].invoked < Returned(ops[y])
    {
      assert FromRun(rws, acts, ops[x], from[x]) && FromRun(rws, acts, ops[y], from[y]);
      if !Unanswered(ops[y]) {
        var t, u := AnsweredAt(rws, acts, log, t0, u0, ops[y], from[y]);
        Passed(rws, acts, log, t0, u0, ops[x], from[x], t, u);
      } else {
        assert ops[x].invoked < END_OF_TIME;
      }
    }
    forall x | 0 <= x < |ops| ensures ops[x].invoked < Returned(ops[x]) {
      assert FromRun(rws, acts, ops[x], from[x]);
      OwnWindow(rws, acts, ops[x], from[x], log, t0, u0);
    }
  }

  lemma OwnWindow(rws: seq<ReadWorld>, acts: seq<Action>, o: Operation, s: Source, log: seq<Entry>, t0: nat, u0: NodeId)
    requires ReadRun(rws, acts) && |rws| == |acts| + 1 && Longest(rws, log, t0, u0)
    requires FromRun(rws, acts, o, s) && TrueRead(rws, s)
    requires o.invoked < END_OF_TIME && Fits(Commands(log), o, PlaceOf(rws, Commands(log), s))
    ensures o.invoked < Returned(o)
  {
    hide ReadRun, TrueRead, Longest, CommandOp, PlaceOf, AcceptedAt, ServedAt, Replay, Apply, First;
    if !Unanswered(o) && !s.Read? {
      var t, u := AnsweredAt(rws, acts, log, t0, u0, o, s);
      Passed(rws, acts, log, t0, u0, o, s, t, u);
    }
  }

  /**
   The store is linearizable: the history of all that clients asked for in a run of the cluster,
   commands answered from any node's state and reads from their leader's, has one legal order over the
   map, if a quorum truly vouched for each read.
  */
  lemma HistoriesAreLinearizable(rws: seq<ReadWorld>, acts: seq<Action>, ops: seq<Operation>, from: seq<Source>)
    requires ReadRun(rws, acts) && HistoryOf(rws, acts, ops, from)
    requires forall x :: 0 <= x < |from| ==> TrueRead(rws, from[x])
    ensures MapLinearizable(ops)
  {
    hide ReadRun, TrueRead, HistoryOf, Longest, MapLinearizable, AllFit, ClientHistory.Covered, InTime;
    RunLength(rws, acts);
    var log, t0, u0 := LongestLog(rws, acts);
    AllPlaced(rws, acts, ops, from, log, t0, u0);
    AllCovered(rws, acts, ops, from, log, t0, u0);
    AllInTime(rws, acts, ops, from, log, t0, u0);
    PlacedIsLinearizable(Commands(log), ops, Places(rws, Commands(log), from));
  }

  /** So it is if every reply a leader counted for a read had been given in the leader's term. */
  lemma VouchedHistoriesAreLinearizable(rws: seq<ReadWorld>, acts: seq<Action>, ops: seq<Operation>, from: seq<Source>)
    requires ReadRun(rws, acts) && AllVouched(rws, acts) && HistoryOf(rws, acts, ops, from)
    ensures MapLinearizable(ops)
  {
    hide ReadRun, AllVouched, TrueRead, CommandOp, MapLinearizable;
    RunLength(rws, acts);
    forall x | 0 <= x < |from| ensures TrueRead(rws, from[x]) {
      assert FromRun(rws, acts, ops[x], from[x]);
      ReadIsTrue(rws, acts, ops[x], from[x]);
    }
    HistoriesAreLinearizable(rws, acts, ops, from);
  }

  lemma ReadIsTrue(rws: seq<ReadWorld>, acts: seq<Action>, o: Operation, s: Source)
    requires ReadRun(rws, acts) && AllVouched(rws, acts) && |rws| == |acts| + 1 && FromRun(rws, acts, o, s)
    ensures TrueRead(rws, s)
  {
    hide ReadRun, AllVouched, ServedAt, AcceptedAt, GenuineAt, CommandOp, Replay;
    match s {
      case Read(v, i, j, r) =>
        AllVouchedGenuine(rws, acts, j, v, rws[i].w.nodes[v].term, rws[i].w.nodes[v].readSeq + 1, r);
      case _ =>
    }
  }
}
