/**
 Byte for byte, what is written: which numbers, in which order, and how wide. And what is read: every
 message that decodes was written so, but for what stands for truth, which may be any byte but 0, and for
 the command inside a request, whose client and number are taken from the request itself.
*/
module Layout {
  import opened Types
  import opened Codec
  import opened EntryCodec
  import opened LogFile
  import opened Wire
  import opened Linearizability
  import RaftSpec
  import opened Disk
  import opened HardSlots
  import opened Snapshots

  // ---- numbers -----------------------------------------------------------------------

  /** Byte `i` of a number is its `i`-th digit to the base 256, the lowest first. */
  lemma {:induction false} DigitAt(v: nat, n: nat, i: nat)
    requires i < n
    ensures LE(v, n)[i] == (v / Pow256(i)) % 256
  {
    if i > 0 {
      DigitAt(v / 256, n - 1, i - 1);
      DivTwice(v, Pow256(i - 1));
    }
  }

  lemma DivTwice(v: nat, p: nat)
    requires p > 0
    ensures v / 256 / p == v / (256 * p)
  {
    var q, r := v / 256, v % 256;
    var a, b := q / p, q % p;
    assert q == p * a + b;
    assert v == (256 * p) * a + (256 * b + r) by { assert 256 * (p * a) == (256 * p) * a; }
    assert 256 * b + r < 256 * p;
    DivIs(v, 256 * p, a, 256 * b + r);
  }

  lemma DivIs(v: nat, m: nat, q: nat, r: nat)
    requires m > 0 && r < m && v == m * q + r
    ensures v / m == q
  {
    UniqueMod(v, m, q, r);
    var k := v / m;
    assert v == m * k + r;
    if k < q { MulMonotone(m, k, q); } else if q < k { MulMonotone(m, q, k); }
  }

  /** A number and its width in bytes. */
  datatype Field = F(value: nat, width: nat)

  function Fields(fs: seq<Field>): seq<byte> {
    if |fs| == 0 then [] else LE(fs[0].value, fs[0].width) + Fields(fs[1..])
  }

  function WidthOf(fs: seq<Field>): nat {
    if |fs| == 0 then 0 else fs[0].width + WidthOf(fs[1..])
  }

  /** Each number stands behind those before it. */
  lemma {:induction false} FieldAt(fs: seq<Field>, i: nat, rest: seq<byte>)
    requires i < |fs|
    ensures var at := WidthOf(fs[..i]); var s := Fields(fs) + rest;
      at + fs[i].width <= |s| && s[at..at + fs[i].width] == LE(fs[i].value, fs[i].width)
  {
    hide LE;
    var a := LE(fs[0].value, fs[0].width);
    assert Fields(fs) + rest == a + (Fields(fs[1..]) + rest);
    LESize(fs[0].value, fs[0].width);
    if i > 0 {
      FieldAt(fs[1..], i - 1, rest);
      assert fs[..i][0] == fs[0] && fs[..i][1..] == fs[1..][..i - 1];
      var at, w, s := WidthOf(fs[1..][..i - 1]), fs[i].width, Fields(fs[1..]) + rest;
      assert (a + s)[|a| + at..|a| + at + w] == s[at..at + w];
    } else {
      assert fs[..0] == [];
    }
  }

  lemma LESize(v: nat, n: nat)
    ensures |LE(v, n)| == n
  {
  }

  lemma OneByte(b: byte)
    ensures LE(b, 1) == [b]
  {
  }

  /** Six numbers or less, written out. */
  lemma FieldsAre(fs: seq<Field>)
    ensures |fs| == 1 ==> Fields(fs) == Int(fs[0])
    ensures |fs| == 2 ==> Fields(fs) == Int(fs[0]) + Int(fs[1])
    ensures |fs| == 3 ==> Fields(fs) == Int(fs[0]) + (Int(fs[1]) + Int(fs[2]))
    ensures |fs| == 4 ==> Fields(fs) == Int(fs[0]) + (Int(fs[1]) + (Int(fs[2]) + Int(fs[3])))
    ensures |fs| == 5 ==> Fields(fs) == Int(fs[0]) + (Int(fs[1]) + (Int(fs[2]) + (Int(fs[3]) + Int(fs[4]))))
    decreases |fs|
  {
    hide Int;
    if |fs| > 0 {
      FieldsFirst(fs);
      FieldsAre(fs[1..]);
      if |fs| == 1 { assert Fields(fs[1..]) == []; }
    }
  }

  function Int(f: Field): seq<byte> { LE(f.value, f.width) }

  lemma FieldsFirst(fs: seq<Field>)
    requires |fs| > 0
    ensures Fields(fs) == Int(fs[0]) + Fields(fs[1..])
  {
  }

  function Truth(b: bool): Field { F(if b then 1 else 0, 1) }

  // ---- messages between servers --------------------------------------------------------------

  /** What each message between servers is written as: its number, its fields, and what follows them. */
  function Written(m: RaftMsg): seq<byte> {
    match m
    case RequestVote(term, candidate, lastIndex, lastTerm) =>
      [1] + Fields([F(term, 8), F(candidate, 4), F(lastIndex, 8), F(lastTerm, 8)])
    case RequestVoteResp(term, granted) => [2] + Fields([F(term, 8), Truth(granted)])
    case AppendEntries(term, leader, prevIndex, prevTerm, entries, leaderCommit) =>
      [3] + Fields([F(term, 8), F(leader, 4), F(prevIndex, 8), F(prevTerm, 8), F(leaderCommit, 8)])
        + Int(F(|entries|, 4)) + EncEntries(entries)
    case AppendEntriesResp(term, success, matchIndex, conflictIndex) =>
      [4] + Fields([F(term, 8), Truth(success), F(matchIndex, 8), F(conflictIndex, 8)])
    case InstallSnapshot(term, leader, index, indexTerm, data) =>
      [5] + Fields([F(term, 8), F(leader, 4), F(index, 8), F(indexTerm, 8), F(|data|, 4)]) + data
    case InstallSnapshotResp(term, index) => [6] + Fields([F(term, 8), F(index, 8)])
    case ReadProbe(term, leader, seqno) => [7] + Fields([F(term, 8), F(leader, 4), F(seqno, 8)])
    case ReadProbeResp(term, seqno) => [8] + Fields([F(term, 8), F(seqno, 8)])
    case PreVote(term, candidate, lastIndex, lastTerm) =>
      [9] + Fields([F(term, 8), F(candidate, 4), F(lastIndex, 8), F(lastTerm, 8)])
    case PreVoteResp(term, round, granted) => [10] + Fields([F(term, 8), F(round, 8), Truth(granted)])
  }

  lemma RaftLayout(m: RaftMsg)
    ensures EncRaft(m) == Written(m)
  {
    hide EncRaft, Written;
    match m {
      case AppendEntries(_, _, _, _, _, _) => LongLayout(m);
      case InstallSnapshot(_, _, _, _, _) => LongLayout(m);
      case RequestVote(_, _, _, _) => VoteLayout(m);
      case PreVote(_, _, _, _) => VoteLayout(m);
      case InstallSnapshotResp(_, _) => NumbersLayout(m);
      case ReadProbe(_, _, _) => NumbersLayout(m);
      case ReadProbeResp(_, _) => NumbersLayout(m);
      case _ => TruthLayout(m);
    }
  }

  lemma LongLayout(m: RaftMsg)
    requires m.AppendEntries? || m.InstallSnapshot?
    ensures EncRaft(m) == Written(m)
  {
    hide LE, Fields;
    if m.AppendEntries? {
      FieldsAre([F(m.term, 8), F(m.leader, 4), F(m.prevIndex, 8), F(m.prevTerm, 8), F(m.leaderCommit, 8)]);
    } else {
      FieldsAre([F(m.term, 8), F(m.leader, 4), F(m.index, 8), F(m.indexTerm, 8), F(|m.data|, 4)]);
    }
  }

  lemma VoteLayout(m: RaftMsg)
    requires m.RequestVote? || m.PreVote?
    ensures EncRaft(m) == Written(m)
  {
    hide LE, Fields;
    FieldsAre([F(m.term, 8), F(m.candidate, 4), F(m.lastIndex, 8), F(m.lastTerm, 8)]);
  }

  lemma NumbersLayout(m: RaftMsg)
    requires m.InstallSnapshotResp? || m.ReadProbe? || m.ReadProbeResp?
    ensures EncRaft(m) == Written(m)
  {
    hide LE, Fields;
    if m.InstallSnapshotResp? { FieldsAre([F(m.term, 8), F(m.index, 8)]); }
    if m.ReadProbe? { FieldsAre([F(m.term, 8), F(m.leader, 4), F(m.seqno, 8)]); }
    if m.ReadProbeResp? { FieldsAre([F(m.term, 8), F(m.seqno, 8)]); }
  }

  lemma TruthLayout(m: RaftMsg)
    requires m.RequestVoteResp? || m.AppendEntriesResp? || m.PreVoteResp?
    ensures EncRaft(m) == Written(m)
  {
    hide LE, Fields;
    OneByte(0);
    OneByte(1);
    if m.RequestVoteResp? { FieldsAre([F(m.term, 8), Truth(m.granted)]); }
    if m.AppendEntriesResp? {
      FieldsAre([F(m.term, 8), Truth(m.success), F(m.matchIndex, 8), F(m.conflictIndex, 8)]);
    }
    if m.PreVoteResp? { FieldsAre([F(m.term, 8), F(m.round, 8), Truth(m.granted)]); }
  }

  // ---- client messages, operations and entries ---------------------------------------------------

  /** A length, and as many bytes. */
  function Sized(b: seq<byte>): seq<byte> { Int(F(|b|, 4)) + b }

  function Optional(b: Option<Text>): seq<byte> {
    if b.Some? then [1] + Sized(b.value) else [0]
  }

  function Numbers(ids: seq<NodeId>): seq<Field> {
    seq(|ids|, k requires 0 <= k < |ids| => F(ids[k], 4))
  }

  lemma {:induction false} IdsLayout(ids: seq<NodeId>)
    ensures EncIds(ids) == Fields(Numbers(ids))
  {
    hide LE;
    if |ids| > 0 {
      IdsLayout(ids[1..]);
      assert Numbers(ids)[1..] == Numbers(ids[1..]);
    }
  }

  lemma OpLayout(op: Op)
    ensures EncOp(op) ==
      match op
      case Noop => [0]
      case Get(key) => [1] + Sized(key)
      case Put(key, value) => [2] + Sized(key) + Sized(value)
      case Delete(key) => [3] + Sized(key)
      case Cas(key, expected, value) => [4] + Sized(key) + Optional(expected) + Sized(value)
      case SetMembers(members) => [5] + Fields([F(|members|, 4)] + Numbers(members))
  {
    hide LE;
    if op.SetMembers? {
      IdsLayout(op.members);
      FieldsFirst([F(|op.members|, 4)] + Numbers(op.members));
    }
  }

  lemma EntryLayout(e: Entry)
    ensures EncEntry(e)
        == Fields([F(e.term, 8), F(e.index, 8), F(e.cmd.client, 4), F(e.cmd.seqno, 8)]) + EncOp(e.cmd.op)
  {
    hide LE, EncOp, Fields;
    FieldsAre([F(e.term, 8), F(e.index, 8), F(e.cmd.client, 4), F(e.cmd.seqno, 8)]);
  }

  lemma OutcomeLayout(o: Outcome)
    ensures EncOutcome(o) ==
      match o
      case Value(v) => [0] + Optional(v)
      case Written => [1]
      case CasDone(matched) => [2, if matched then 1 else 0]
      case NotLeader(hint) => [3] + Int(F(if hint.Some? then hint.value else 0xFFFF_FFFF, 4))
      case Dropped => [4]
  {
    hide LE;
  }

  lemma ClientLayout(m: ClientMsg)
    ensures EncClient(m) ==
      match m
      case Request(reqId, client, seqno, op) =>
        [1] + Fields([F(reqId, 8), F(client, 4), F(seqno, 8)]) + Fields([F(client, 4), F(seqno, 8)]) + EncOp(op)
      case Reply(reqId, outcome) => [2] + Int(F(reqId, 8)) + EncOutcome(outcome)
  {
    hide LE, EncOp, EncOutcome, Fields;
    if m.Request? {
      FieldsAre([F(m.reqId, 8), F(m.client, 4), F(m.seqno, 8)]);
      FieldsAre([F(m.client, 4), F(m.seqno, 8)]);
    }
  }

  /** A frame is the checksum of the payload, and the payload: 1 and a server's message, or 2 and a client's. */
  lemma MessageLayout(m: Message)
    ensures var payload := if m.Raft? then [1] + EncRaft(m.raft) else [2] + EncClient(m.client);
      Encode(m) == Int(F(Checksum(payload), 4)) + payload
  {
    hide LE, EncRaft, EncClient, Checksum;
  }

  /** What is too long: a field, a record, a list of members or of entries, a snapshot. */
  lemma LimitsAre()
    ensures MAX_FIELD == 1024 * 1024 == MAX_RECORD && MAX_MEMBERS == 256 && MAX_ENTRIES == 4096
    ensures MAX_SNAPSHOT == 64 * 1024 * 1024 && NO_HINT == NO_VOTE == 256 * 256 * 256 * 256 - 1
  {
  }

  // ---- files ---------------------------------------------------------------------------------------

  /** A record is the length and the checksum of its entry, and the entry. */
  lemma RecordLayout(e: Entry)
    ensures Record(e) == Fields([F(|EncEntry(e)|, 4), F(Checksum(EncEntry(e)), 4)]) + EncEntry(e)
  {
    hide LE, EncEntry, Checksum, Fields;
    FieldsAre([F(|EncEntry(e)|, 4), F(Checksum(EncEntry(e)), 4)]);
  }

  /** A slot is number, term and vote, the checksum of these 20 bytes, and zeros up to 64. */
  lemma SlotLayout(hs: RaftSpec.HardState)
    ensures var body :=
        Fields([F(hs.seqno, 8), F(hs.term, 8), F(if hs.votedFor.Some? then hs.votedFor.value else 0xFFFF_FFFF, 4)]);
      && SlotOf(hs) == body + Int(F(Checksum(body), 4)) + Zeros(40) && |SlotOf(hs)| == 64
      && SlotOffset(hs.seqno) == 64 * (hs.seqno % 2)
  {
    hide LE, Fields, Checksum, Zeros;
    FieldsAre([F(hs.seqno, 8), F(hs.term, 8), F(if hs.votedFor.Some? then hs.votedFor.value else 0xFFFF_FFFF, 4)]);
    LESize(Checksum(Body(hs)), 4);
    var body :=
      Fields([F(hs.seqno, 8), F(hs.term, 8), F(if hs.votedFor.Some? then hs.votedFor.value else 0xFFFF_FFFF, 4)]);
    assert Body(hs) == body;
    assert SlotOf(hs) == body + Int(F(Checksum(body), 4)) + Zeros(40);
  }

  /** A snapshot file is the length and checksum of what follows: number, index, term and data. */
  lemma SnapLayout(s: Snap)
    ensures var p := Fields([F(s.seqno, 8), F(s.index, 8), F(s.term, 8), F(|s.data|, 4)]) + s.data;
      EncSnap(s) == Fields([F(|p|, 4), F(Checksum(p), 4)]) + p
  {
    hide LE, Fields, Checksum;
    var p := Payload(s);
    FieldsAre([F(s.seqno, 8), F(s.index, 8), F(s.term, 8), F(|s.data|, 4)]);
    FieldsAre([F(|p|, 4), F(Checksum(p), 4)]);
    assert p == Fields([F(s.seqno, 8), F(s.index, 8), F(s.term, 8), F(|s.data|, 4)]) + s.data;
  }
}
