/**
 The messages on the wire. A frame is a checksum and a payload: any frame changed in exactly one
 byte is refused. Decoding undoes encoding on exactly the messages within the format's limits.
*/
module Wire {
  import opened Types
  import opened Crc32
  import opened Codec
  import opened EntryCodec
  import opened LogFile
  import opened Linearizability

  datatype RaftMsg =
    | RequestVote(term: nat, candidate: NodeId, lastIndex: nat, lastTerm: nat)
    | RequestVoteResp(term: nat, granted: bool)
    | AppendEntries(term: nat, leader: NodeId, prevIndex: nat, prevTerm: nat, entries: seq<Entry>, leaderCommit: nat)
    | AppendEntriesResp(term: nat, success: bool, matchIndex: nat, conflictIndex: nat)
    | InstallSnapshot(term: nat, leader: NodeId, index: nat, indexTerm: nat, data: seq<byte>)
    | InstallSnapshotResp(term: nat, index: nat)
    | ReadProbe(term: nat, leader: NodeId, seqno: nat)
    | ReadProbeResp(term: nat, seqno: nat)
    | PreVote(term: nat, candidate: NodeId, lastIndex: nat, lastTerm: nat)
    | PreVoteResp(term: nat, round: nat, granted: bool)

  datatype ClientMsg =
    | Request(reqId: nat, client: nat, seqno: nat, op: Op)
    | Reply(reqId: nat, outcome: Outcome)

  datatype Message = Raft(raft: RaftMsg) | Client(client: ClientMsg)

  const MAX_ENTRIES: nat := 4096
  const NO_HINT: nat := 0xFFFF_FFFF

  // ---- frames ------------------------------------------------------------------------

  function Frame(payload: seq<byte>): seq<byte> { LE(Checksum(payload), 4) + payload }

  function Unframe(bytes: seq<byte>): Result<seq<byte>, DecodeError> {
    if |bytes| < 4 then Err(Truncated)
    else if Checksum(bytes[4..]) != FromLE(bytes[..4]) then Err(BadChecksum)
    else Ok(bytes[4..])
  }

  lemma FrameReads(payload: seq<byte>)
    ensures Unframe(Frame(payload)) == Ok(payload)
  {
    hide Checksum, LE, FromLE;
    Widths();
    ChecksumFits(payload);
    FromLEOfLE(Checksum(payload), 4);
    assert Frame(payload)[..4] == LE(Checksum(payload), 4) && Frame(payload)[4..] == payload;
  }

  /** A frame changed in exactly one byte, in its checksum or its payload and whatever its length, is refused. */
  lemma OneByteIsRefused(payload: seq<byte>, bytes: seq<byte>, k: nat)
    requires DifferOnlyAt(Frame(payload), bytes, k)
    ensures Unframe(bytes) == Err(BadChecksum)
  {
    hide Checksum, LE, FromLE;
    var f := Frame(payload);
    FrameReads(payload);
    assert f[4..] == payload && f[..4] == LE(Checksum(payload), 4);
    Widths();
    ChecksumFits(payload);
    FromLEOfLE(Checksum(payload), 4);
    if k < 4 {
      assert bytes[4..] == payload;
      assert bytes[..4][k] != f[..4][k];
      LEOfFromLE(bytes[..4]);
      LEOfFromLE(f[..4]);
    } else {
      assert bytes[..4] == f[..4];
      assert DifferOnlyAt(payload, bytes[4..], k - 4);
      OneByteChangesChecksum(payload, bytes[4..], k - 4);
    }
  }

  // ---- what is written ------------------------------------------------------------------

  function EncBool(b: bool): seq<byte> { [if b then 1 else 0] }

  function EncEntries(es: seq<Entry>): seq<byte> {
    if |es| == 0 then [] else EncEntry(es[0]) + EncEntries(es[1..])
  }

  function EncRaft(m: RaftMsg): seq<byte> {
    match m
    case RequestVote(term, candidate, lastIndex, lastTerm) =>
      [1] + (LE(term, 8) + (LE(candidate, 4) + (LE(lastIndex, 8) + LE(lastTerm, 8))))
    case RequestVoteResp(term, granted) => [2] + (LE(term, 8) + EncBool(granted))
    case AppendEntries(term, leader, prevIndex, prevTerm, entries, leaderCommit) =>
      [3]
        + (LE(term, 8)
           + (LE(leader, 4)
              + (LE(prevIndex, 8)
                 + (LE(prevTerm, 8) + (LE(leaderCommit, 8) + (LE(|entries|, 4) + EncEntries(entries)))))))
    case AppendEntriesResp(term, success, matchIndex, conflictIndex) =>
      [4] + (LE(term, 8) + (EncBool(success) + (LE(matchIndex, 8) + LE(conflictIndex, 8))))
    case InstallSnapshot(term, leader, index, indexTerm, data) =>
      [5] + (LE(term, 8) + (LE(leader, 4) + (LE(index, 8) + (LE(indexTerm, 8) + EncBytes(data)))))
    case InstallSnapshotResp(term, index) => [6] + (LE(term, 8) + LE(index, 8))
    case ReadProbe(term, leader, seqno) => [7] + (LE(term, 8) + (LE(leader, 4) + LE(seqno, 8)))
    case ReadProbeResp(term, seqno) => [8] + (LE(term, 8) + LE(seqno, 8))
    case PreVote(term, candidate, lastIndex, lastTerm) =>
      [9] + (LE(term, 8) + (LE(candidate, 4) + (LE(lastIndex, 8) + LE(lastTerm, 8))))
    case PreVoteResp(term, round, granted) => [10] + (LE(term, 8) + (LE(round, 8) + EncBool(granted)))
  }

  function EncOutcome(o: Outcome): seq<byte> {
    match o
    case Value(v) => [0] + EncOptStr(v)
    case Written => [1]
    case CasDone(matched) => [2] + EncBool(matched)
    case NotLeader(hint) => [3] + LE(if hint.Some? then hint.value else NO_HINT, 4)
    case Dropped => [4]
  }

  function EncClient(m: ClientMsg): seq<byte> {
    match m
    case Request(reqId, client, seqno, op) =>
      [1] + (LE(reqId, 8) + (LE(client, 4) + (LE(seqno, 8) + EncCommand(Command(client, seqno, op)))))
    case Reply(reqId, outcome) => [2] + (LE(reqId, 8) + EncOutcome(outcome))
  }

  function Encode(m: Message): seq<byte> {
    match m
    case Raft(r) => Frame([1] + EncRaft(r))
    case Client(c) => Frame([2] + EncClient(c))
  }

  // ---- what is read ----------------------------------------------------------------------

  function ParseBool(s: seq<byte>): Parsed<bool> {
    var (b, s1) :- ParseU8(s);
    Ok((b != 0, s1))
  }

  function ParseEntries(s: seq<byte>, n: nat): Parsed<seq<Entry>>
    decreases n
  {
    if n == 0 then Ok(([], s))
    else
      var (e, s1) :- ParseEntry(s);
      var (es, s2) :- ParseEntries(s1, n - 1);
      Ok(([e] + es, s2))
  }

  function ParseVote(s: seq<byte>): Parsed<(nat, NodeId, nat, nat)> {
    var (term, s1) :- ParseU64(s);
    var (candidate, s2) :- ParseU32(s1);
    var (lastIndex, s3) :- ParseU64(s2);
    var (lastTerm, s4) :- ParseU64(s3);
    Ok(((term, candidate, lastIndex, lastTerm), s4))
  }

  function ParseAppend(s: seq<byte>): Parsed<RaftMsg> {
    var ((term, leader, prevIndex, prevTerm), s1) :- ParseVote(s);
    var (leaderCommit, s2) :- ParseU64(s1);
    var (count, s3) :- ParseU32(s2);
    if count > MAX_ENTRIES then Err(TooLong)
    else
      var (entries, s4) :- ParseEntries(s3, count);
      Ok((AppendEntries(term, leader, prevIndex, prevTerm, entries, leaderCommit), s4))
  }

  function ParseRaft(s: seq<byte>): Parsed<RaftMsg> {
    var (t, s1) :- ParseU8(s);
    match t
    case 1 =>
      var (v, s2) :- ParseVote(s1);
      Ok((RequestVote(v.0, v.1, v.2, v.3), s2))
    case 2 =>
      var (term, s2) :- ParseU64(s1);
      var (granted, s3) :- ParseBool(s2);
      Ok((RequestVoteResp(term, granted), s3))
    case 3 => ParseAppend(s1)
    case 4 =>
      var (term, s2) :- ParseU64(s1);
      var (success, s3) :- ParseBool(s2);
      var (matchIndex, s4) :- ParseU64(s3);
      var (conflictIndex, s5) :- ParseU64(s4);
      Ok((AppendEntriesResp(term, success, matchIndex, conflictIndex), s5))
    case 5 =>
      var (v, s2) :- ParseVote(s1);
      var (data, s3) :- ParseBytes(s2);
      Ok((InstallSnapshot(v.0, v.1, v.2, v.3, data), s3))
    case 6 =>
      var (term, s2) :- ParseU64(s1);
      var (index, s3) :- ParseU64(s2);
      Ok((InstallSnapshotResp(term, index), s3))
    case 7 =>
      var (term, s2) :- ParseU64(s1);
      var (leader, s3) :- ParseU32(s2);
      var (seqno, s4) :- ParseU64(s3);
      Ok((ReadProbe(term, leader, seqno), s4))
    case 8 =>
      var (term, s2) :- ParseU64(s1);
      var (seqno, s3) :- ParseU64(s2);
      Ok((ReadProbeResp(term, seqno), s3))
    case 9 =>
      var (v, s2) :- ParseVote(s1);
      Ok((PreVote(v.0, v.1, v.2, v.3), s2))
    case 10 =>
      var (term, s2) :- ParseU64(s1);
      var (round, s3) :- ParseU64(s2);
      var (granted, s4) :- ParseBool(s3);
      Ok((PreVoteResp(term, round, granted), s4))
    case _ => Err(BadTag(t))
  }

  function ParseOutcome(s: seq<byte>): Parsed<Outcome> {
    var (t, s1) :- ParseU8(s);
    match t
    case 0 =>
      var (v, s2) :- ParseOptStr(s1);
      Ok((Value(v), s2))
    case 1 => Ok((Written, s1))
    case 2 =>
      var (matched, s2) :- ParseBool(s1);
      Ok((CasDone(matched), s2))
    case 3 =>
      var (n, s2) :- ParseU32(s1);
      Ok((NotLeader(if n == NO_HINT then None else Some(n)), s2))
    case 4 => Ok((Dropped, s1))
    case _ => Err(BadTag(t))
  }

  function ParseClient(s: seq<byte>): Parsed<ClientMsg> {
    var (t, s1) :- ParseU8(s);
    match t
    case 1 =>
      var (reqId, s2) :- ParseU64(s1);
      var (client, s3) :- ParseU32(s2);
      var (seqno, s4) :- ParseU64(s3);
      var (cmd, s5) :- ParseCommand(s4);
      Ok((Request(reqId, client, seqno, cmd.op), s5))
    case 2 =>
      var (reqId, s2) :- ParseU64(s1);
      var (outcome, s3) :- ParseOutcome(s2);
      Ok((Reply(reqId, outcome), s3))
    case _ => Err(BadTag(t))
  }

  /** Nothing may follow the message. */
  function Whole<T>(p: Parsed<T>): Result<T, DecodeError> {
    match p
    case Err(e) => Err(e)
    case Ok((v, rest)) => if rest == [] then Ok(v) else Err(TrailingBytes)
  }

  function Decode(bytes: seq<byte>): Result<Message, DecodeError> {
    var payload :- Unframe(bytes);
    var (t, s) :- ParseU8(payload);
    match t
    case 1 => (var m :- Whole(ParseRaft(s)); Ok(Raft(m)))
    case 2 => (var m :- Whole(ParseClient(s)); Ok(Client(m)))
    case _ => Err(BadTag(t))
  }

  // ---- what the fields' types allow, and what the format allows ------------------------------

  predicate EntriesTyped(es: seq<Entry>) { forall k :: 0 <= k < |es| ==> EntryTyped(es[k]) }

  predicate EntriesFit(es: seq<Entry>) { forall k :: 0 <= k < |es| ==> OpFits(es[k].cmd.op) }

  predicate RaftTyped(m: RaftMsg) {
    m.term < U64
    && match m
       case RequestVote(_, candidate, lastIndex, lastTerm) => candidate < U32 && lastIndex < U64 && lastTerm < U64
       case AppendEntries(_, leader, prevIndex, prevTerm, entries, leaderCommit) =>
         leader < U32 && prevIndex < U64 && prevTerm < U64 && leaderCommit < U64 && EntriesTyped(entries)
       case AppendEntriesResp(_, _, matchIndex, conflictIndex) => matchIndex < U64 && conflictIndex < U64
       case InstallSnapshot(_, leader, index, indexTerm, _) => leader < U32 && index < U64 && indexTerm < U64
       case InstallSnapshotResp(_, index) => index < U64
       case ReadProbe(_, leader, seqno) => leader < U32 && seqno < U64
       case ReadProbeResp(_, seqno) => seqno < U64
       case PreVote(_, candidate, lastIndex, lastTerm) => candidate < U32 && lastIndex < U64 && lastTerm < U64
       case PreVoteResp(_, round, _) => round < U64
       case _ => true
  }

  predicate RaftFits(m: RaftMsg) {
    match m
    case AppendEntries(_, _, _, _, entries, _) => |entries| <= MAX_ENTRIES && EntriesFit(entries)
    case InstallSnapshot(_, _, _, _, data) => |data| <= MAX_FIELD
    case _ => true
  }

  predicate OutcomeTyped(o: Outcome) {
    match o
    case Value(v) => OptUtf8(v)
    case NotLeader(hint) => hint.Some? ==> hint.value < U32
    case _ => true
  }

  predicate OutcomeFits(o: Outcome) {
    match o
    case Value(v) => OptStrFits(v)
    case NotLeader(hint) => hint != Some(NO_HINT)
    case _ => true
  }

  predicate ClientTyped(m: ClientMsg) {
    m.reqId < U64
    && match m
       case Request(_, client, seqno, op) => CommandTyped(Command(client, seqno, op))
       case Reply(_, outcome) => OutcomeTyped(outcome)
  }

  predicate ClientFits(m: ClientMsg) {
    match m
    case Request(_, _, _, op) => OpFits(op)
    case Reply(_, outcome) => OutcomeFits(outcome)
  }

  predicate MessageTyped(m: Message) {
    match m case Raft(r) => RaftTyped(r) case Client(c) => ClientTyped(c)
  }

  predicate MessageFits(m: Message) {
    match m case Raft(r) => RaftFits(r) case Client(c) => ClientFits(c)
  }

  // ---- reading undoes writing ------------------------------------------------------------------

  lemma BoolReads(b: bool, rest: seq<byte>)
    ensures ParseBool(EncBool(b) + rest) == Ok((b, rest))
  {
    assert (EncBool(b) + rest)[1..] == rest;
  }

  lemma VoteReads(term: nat, candidate: NodeId, index: nat, indexTerm: nat, rest: seq<byte>)
    requires term < U64 && candidate < U32 && index < U64 && indexTerm < U64
    ensures ParseVote(LE(term, 8) + (LE(candidate, 4) + (LE(index, 8) + (LE(indexTerm, 8) + rest)))) ==
      Ok(((term, candidate, index, indexTerm), rest))
  {
    hide LE, ParseU32, ParseU64;
    U64Reads(term, LE(candidate, 4) + (LE(index, 8) + (LE(indexTerm, 8) + rest)));
    U32Reads(candidate, LE(index, 8) + (LE(indexTerm, 8) + rest));
    U64Reads(index, LE(indexTerm, 8) + rest);
    U64Reads(indexTerm, rest);
  }

  lemma {:induction false} EntriesRead(es: seq<Entry>, rest: seq<byte>)
    requires EntriesTyped(es)
    ensures ParseEntries(EncEntries(es) + rest, |es|) == Ok((es, rest)) <==> EntriesFit(es)
  {
    hide ParseEntry, EncEntry, EntryTyped, OpFits;
    if |es| == 0 {
      assert EncEntries(es) + rest == rest;
    } else {
      var s1 := EncEntries(es[1..]) + rest;
      assert EncEntries(es) + rest == EncEntry(es[0]) + s1;
      EntryReads(es[0], s1);
      if ParseEntry(EncEntry(es[0]) + s1).Ok? { EntryFrom(EncEntry(es[0]) + s1); }
      EntriesRead(es[1..], rest);
      assert es == [es[0]] + es[1..];
      assert EntriesFit(es) <==> OpFits(es[0].cmd.op) && EntriesFit(es[1..]) by {
        if OpFits(es[0].cmd.op) && EntriesFit(es[1..]) {
          forall k | 0 <= k < |es| ensures OpFits(es[k].cmd.op) { if k > 0 { assert es[k] == es[1..][k - 1]; } }
        }
      }
      if ParseEntries(s1, |es| - 1).Ok? {
        var (e, ds) := (es[0], ParseEntries(s1, |es| - 1).value.0);
        assert ([e] + ds)[1..] == ds;
      }
    }
  }

  lemma {:induction false} EntriesCount(s: seq<byte>, n: nat)
    ensures ParseEntries(s, n).Ok? ==> |ParseEntries(s, n).value.0| == n
    decreases n
  {
    hide ParseEntry;
    if n > 0 && ParseEntry(s).Ok? { EntriesCount(ParseEntry(s).value.1, n - 1); }
  }

  lemma CountReads(n: nat, rest: seq<byte>)
    ensures ParseU32(LE(n, 4) + rest) == Ok((n % U32, rest))
  {
    Widths();
    FromLEOfLE(n, 4);
    assert (LE(n, 4) + rest)[..4] == LE(n, 4) && (LE(n, 4) + rest)[4..] == rest;
  }

  lemma AppendReads(m: RaftMsg)
    requires m.AppendEntries? && RaftTyped(m)
    ensures ParseRaft(EncRaft(m)) == Ok((m, [])) <==> RaftFits(m)
  {
    hide LE, ParseU32, ParseU64, ParseVote, ParseEntries, EncEntries, EntriesTyped, EntriesFit;
    var es := m.entries;
    var s3 := EncEntries(es);
    var s2 := LE(|es|, 4) + s3;
    var s1 := LE(m.leaderCommit, 8) + s2;
    VoteReads(m.term, m.leader, m.prevIndex, m.prevTerm, s1);
    U64Reads(m.leaderCommit, s2);
    CountReads(|es|, s3);
    EntriesRead(es, []);
    assert s3 + [] == s3;
    EntriesCount(s3, |es| % U32);
    assert EncRaft(m)[1..] == LE(m.term, 8) + (LE(m.leader, 4) + (LE(m.prevIndex, 8) + (LE(m.prevTerm, 8) + s1)));
    AppendParts(EncRaft(m)[1..], m, s1, s2, s3);
  }

  /** An append whose header fields read as given reads its entries next. */
  lemma AppendParts(s: seq<byte>, m: RaftMsg, s1: seq<byte>, s2: seq<byte>, s3: seq<byte>)
    requires m.AppendEntries?
    requires ParseVote(s) == Ok(((m.term, m.leader, m.prevIndex, m.prevTerm), s1))
    requires ParseU64(s1) == Ok((m.leaderCommit, s2))
    requires ParseU32(s2) == Ok((|m.entries| % U32, s3))
    requires ParseEntries(s3, |m.entries| % U32).Ok? ==>
      |ParseEntries(s3, |m.entries| % U32).value.0| == |m.entries| % U32
    requires ParseEntries(s3, |m.entries|) == Ok((m.entries, [])) <==> EntriesFit(m.entries)
    ensures ParseAppend(s) == Ok((m, [])) <==> |m.entries| <= MAX_ENTRIES && EntriesFit(m.entries)
  {
    hide ParseVote, ParseU64, ParseU32, ParseEntries, EntriesFit;
    var count := |m.entries| % U32;
    if |m.entries| <= MAX_ENTRIES {
      assert count == |m.entries|;
      if ParseEntries(s3, count).Ok? {
        var (es, rest) := ParseEntries(s3, count).value;
        assert ParseAppend(s) ==
          Ok((AppendEntries(m.term, m.leader, m.prevIndex, m.prevTerm, es, m.leaderCommit), rest));
      }
    } else if count <= MAX_ENTRIES && ParseEntries(s3, count).Ok? {
      var (es, rest) := ParseEntries(s3, count).value;
      assert |es| != |m.entries|;
      assert ParseAppend(s) == Ok((AppendEntries(m.term, m.leader, m.prevIndex, m.prevTerm, es, m.leaderCommit), rest));
    }
  }

  lemma SnapshotReads(m: RaftMsg)
    requires m.InstallSnapshot? && RaftTyped(m)
    ensures ParseRaft(EncRaft(m)) == Ok((m, [])) <==> RaftFits(m)
  {
    hide LE, ParseU32, ParseU64, ParseVote, EncBytes, ParseBytes;
    var s1 := EncBytes(m.data);
    VoteReads(m.term, m.leader, m.index, m.indexTerm, s1);
    BytesRead(m.data, []);
    assert s1 + [] == s1;
    BytesShort(s1);
    assert EncRaft(m)[1..] == LE(m.term, 8) + (LE(m.leader, 4) + (LE(m.index, 8) + (LE(m.indexTerm, 8) + s1)));
  }

  lemma BytesShort(s: seq<byte>)
    ensures ParseBytes(s).Ok? ==> |ParseBytes(s).value.0| <= MAX_FIELD
  {
  }

  lemma VoteMsgReads(m: RaftMsg)
    requires (m.RequestVote? || m.PreVote?) && RaftTyped(m)
    ensures ParseRaft(EncRaft(m)) == Ok((m, []))
  {
    hide LE, ParseU32, ParseU64, ParseVote;
    VoteReads(m.term, m.candidate, m.lastIndex, m.lastTerm, []);
    assert LE(m.lastTerm, 8) + [] == LE(m.lastTerm, 8);
    assert EncRaft(m)[1..] == LE(m.term, 8) + (LE(m.candidate, 4) + (LE(m.lastIndex, 8) + LE(m.lastTerm, 8)));
  }

  lemma LastInt(v: nat)
    ensures v < U64 ==> ParseU64(LE(v, 8)) == Ok((v, []))
  {
    if v < U64 { U64Reads(v, []); }
    assert LE(v, 8) + [] == LE(v, 8);
  }

  lemma LastBool(b: bool)
    ensures ParseBool(EncBool(b)) == Ok((b, []))
  {
    BoolReads(b, []);
    assert EncBool(b) + [] == EncBool(b);
  }

  lemma ShortMsgReads(m: RaftMsg)
    requires RaftTyped(m)
      && (m.RequestVoteResp? || m.AppendEntriesResp? || m.InstallSnapshotResp? || m.ReadProbe? || m.ReadProbeResp?
          || m.PreVoteResp?)
    ensures ParseRaft(EncRaft(m)) == Ok((m, []))
  {
    hide LE, ParseU32, ParseU64, ParseBool, EncBool;
    match m {
      case RequestVoteResp(term, granted) =>
        U64Reads(term, EncBool(granted));
        LastBool(granted);
        assert EncRaft(m)[1..] == LE(term, 8) + EncBool(granted);
      case AppendEntriesResp(term, success, matchIndex, conflictIndex) =>
        U64Reads(term, EncBool(success) + (LE(matchIndex, 8) + LE(conflictIndex, 8)));
        BoolReads(success, LE(matchIndex, 8) + LE(conflictIndex, 8));
        U64Reads(matchIndex, LE(conflictIndex, 8));
        LastInt(conflictIndex);
        assert EncRaft(m)[1..] == LE(term, 8) + (EncBool(success) + (LE(matchIndex, 8) + LE(conflictIndex, 8)));
      case InstallSnapshotResp(term, index) =>
        U64Reads(term, LE(index, 8));
        LastInt(index);
        assert EncRaft(m)[1..] == LE(term, 8) + LE(index, 8);
      case ReadProbe(term, leader, seqno) =>
        U64Reads(term, LE(leader, 4) + LE(seqno, 8));
        U32Reads(leader, LE(seqno, 8));
        LastInt(seqno);
        assert EncRaft(m)[1..] == LE(term, 8) + (LE(leader, 4) + LE(seqno, 8));
      case ReadProbeResp(term, seqno) =>
        U64Reads(term, LE(seqno, 8));
        LastInt(seqno);
        assert EncRaft(m)[1..] == LE(term, 8) + LE(seqno, 8);
      case PreVoteResp(term, round, granted) =>
        U64Reads(term, LE(round, 8) + EncBool(granted));
        U64Reads(round, EncBool(granted));
        LastBool(granted);
        assert EncRaft(m)[1..] == LE(term, 8) + (LE(round, 8) + EncBool(granted));
    }
  }

  lemma RaftReads(m: RaftMsg)
    requires RaftTyped(m)
    ensures ParseRaft(EncRaft(m)) == Ok((m, [])) <==> RaftFits(m)
  {
    hide ParseRaft, EncRaft, RaftTyped;
    match m {
      case AppendEntries(_, _, _, _, _, _) => AppendReads(m);
      case InstallSnapshot(_, _, _, _, _) => SnapshotReads(m);
      case RequestVote(_, _, _, _) => VoteMsgReads(m);
      case PreVote(_, _, _, _) => VoteMsgReads(m);
      case _ => ShortMsgReads(m);
    }
  }

  lemma OutcomeReads(o: Outcome)
    requires OutcomeTyped(o)
    ensures ParseOutcome(EncOutcome(o)) == Ok((o, [])) <==> OutcomeFits(o)
  {
    hide LE, ParseU32, EncOptStr, ParseOptStr, OptUtf8, OptStrFits, EncBool, ParseBool;
    match o {
      case Value(v) =>
        OptStrReads(v, []);
        assert EncOptStr(v) + [] == EncOptStr(v);
        assert EncOutcome(o)[1..] == EncOptStr(v);
        OptStrShort(EncOptStr(v));
      case CasDone(matched) =>
        LastBool(matched);
        assert EncOutcome(o)[1..] == EncBool(matched);
      case NotLeader(hint) =>
        var n := if hint.Some? then hint.value else NO_HINT;
        U32Reads(n, []);
        assert LE(n, 4) + [] == LE(n, 4);
        assert EncOutcome(o)[1..] == LE(n, 4);
      case _ => assert EncOutcome(o)[1..] == [];
    }
  }

  lemma ClientReads(m: ClientMsg)
    requires ClientTyped(m)
    ensures ParseClient(EncClient(m)) == Ok((m, [])) <==> ClientFits(m)
  {
    hide LE, ParseU32, ParseU64, ParseCommand, EncCommand, ParseOutcome, EncOutcome, OutcomeTyped, OutcomeFits, OpFits,
         OpTyped;
    match m {
      case Request(reqId, client, seqno, op) =>
        var c := Command(client, seqno, op);
        U64Reads(reqId, LE(client, 4) + (LE(seqno, 8) + EncCommand(c)));
        U32Reads(client, LE(seqno, 8) + EncCommand(c));
        U64Reads(seqno, EncCommand(c));
        CommandReads(c, []);
        assert EncCommand(c) + [] == EncCommand(c);
        assert EncClient(m)[1..] == LE(reqId, 8) + (LE(client, 4) + (LE(seqno, 8) + EncCommand(c)));
        if ParseCommand(EncCommand(c)).Ok? { CommandFrom(EncCommand(c)); }
      case Reply(reqId, outcome) =>
        U64Reads(reqId, EncOutcome(outcome));
        OutcomeReads(outcome);
        assert EncClient(m)[1..] == LE(reqId, 8) + EncOutcome(outcome);
        OutcomeOf(EncOutcome(outcome));
    }
  }

  /** A pair is what its parts are. */
  lemma OutcomeOf(s: seq<byte>)
    ensures ParseOutcome(s).Ok? ==> ParseOutcome(s).value == (ParseOutcome(s).value.0, ParseOutcome(s).value.1)
  {
    hide ParseOutcome;
  }

  /** A message comes back from its encoding exactly when it is within the limits of the format. */
  lemma MessageComesBack(m: Message)
    requires MessageTyped(m)
    ensures Decode(Encode(m)) == Ok(m) <==> MessageFits(m)
  {
    hide ParseRaft, EncRaft, RaftTyped, RaftFits, ParseClient, EncClient, ClientTyped, ClientFits, Frame, Unframe;
    match m {
      case Raft(r) =>
        FrameReads([1] + EncRaft(r));
        assert ([1] + EncRaft(r))[1..] == EncRaft(r);
        RaftReads(r);
      case Client(c) =>
        FrameReads([2] + EncClient(c));
        assert ([2] + EncClient(c))[1..] == EncClient(c);
        ClientReads(c);
    }
  }

  /** A corrupted message is refused, whatever single byte of it the network changed. */
  lemma CorruptedIsRefused(m: Message, bytes: seq<byte>, k: nat)
    requires DifferOnlyAt(Encode(m), bytes, k)
    ensures Decode(bytes) == Err(BadChecksum)
  {
    hide EncRaft, EncClient, Frame, Unframe;
    match m {
      case Raft(r) => OneByteIsRefused([1] + EncRaft(r), bytes, k);
      case Client(c) => OneByteIsRefused([2] + EncClient(c), bytes, k);
    }
  }
}
