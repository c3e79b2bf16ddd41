/**
 Only messages decode. Whatever bytes a message is read from are those it would be written as, but for
 what stands for truth, which may be any byte but 0, and for the command inside a request, whose client
 and number are not looked at; and it is within the limits of the format.
*/
module Decoding {
  import opened Types
  import opened Codec
  import opened EntryCodec
  import opened Linearizability
  import opened Wire

  /** The same bytes, but that a 1 may be any byte other than 0. */
  ghost predicate Alike(s: seq<byte>, t: seq<byte>) {
    |s| == |t| && forall k :: 0 <= k < |s| ==> s[k] == t[k] || (s[k] != 0 && t[k] == 1)
  }

  lemma AlikeSame(s: seq<byte>)
    ensures Alike(s, s)
  {
  }

  lemma AlikeBehind(a: seq<byte>, s: seq<byte>, t: seq<byte>)
    requires Alike(s, t)
    ensures Alike(a + s, a + t)
  {
  }

  // ---- fields -------------------------------------------------------------------------

  lemma TagFrom(s: seq<byte>)
    requires ParseU8(s).Ok?
    ensures s == [ParseU8(s).value.0] + ParseU8(s).value.1
  {
  }

  lemma U64From(s: seq<byte>)
    requires ParseU64(s).Ok?
    ensures var (v, rest) := ParseU64(s).value; s == LE(v, 8) + rest && v < U64
  {
    hide LE, FromLE;
    IntFrom(s, 8);
    Widths();
  }

  lemma U32From(s: seq<byte>)
    requires ParseU32(s).Ok?
    ensures var (v, rest) := ParseU32(s).value; s == LE(v, 4) + rest && v < U32
  {
    hide LE, FromLE;
    IntFrom(s, 4);
    Widths();
  }

  lemma BoolFrom(s: seq<byte>)
    requires ParseBool(s).Ok?
    ensures var (b, rest) := ParseBool(s).value; Alike(s, EncBool(b) + rest)
  {
  }

  lemma VoteFrom(s: seq<byte>)
    requires ParseVote(s).Ok?
    ensures var ((a, b, c, d), rest) := ParseVote(s).value;
      && s == LE(a, 8) + (LE(b, 4) + (LE(c, 8) + (LE(d, 8) + rest)))
      && a < U64 && b < U32 && c < U64 && d < U64
  {
    hide LE, ParseU64, ParseU32;
    U64From(s);
    var s1 := ParseU64(s).value.1;
    U32From(s1);
    var s2 := ParseU32(s1).value.1;
    U64From(s2);
    U64From(ParseU64(s2).value.1);
  }

  lemma {:induction false} EntriesFrom(s: seq<byte>, n: nat)
    requires ParseEntries(s, n).Ok?
    ensures var (es, rest) := ParseEntries(s, n).value;
      |es| == n && s == EncEntries(es) + rest && EntriesTyped(es) && EntriesFit(es)
    decreases n
  {
    hide ParseEntry, EncEntry, EntryTyped, OpFits;
    if n > 0 {
      EntryFrom(s);
      var (e, s1) := ParseEntry(s).value;
      EntriesFrom(s1, n - 1);
      var (es, rest) := ParseEntries(s1, n - 1).value;
      assert ([e] + es)[1..] == es;
      assert s == EncEntry(e) + (EncEntries(es) + rest) == EncEntries([e] + es) + rest;
    }
  }

  /**
   How a field is refused: what ends too early is truncated; a length above the limit is refused before its
   bytes are looked for; a string must be UTF-8, and the tag of an optional one 0 or 1.
  */
  lemma FieldRefused(s: seq<byte>)
    ensures |s| < 4 ==> ParseBytes(s) == Err(Truncated)
    ensures |s| >= 4 ==>
      var n := FromLE(s[..4]);
      && (n > 1024 * 1024 ==> ParseBytes(s) == Err(TooLong))
      && (n <= 1024 * 1024 && |s| - 4 < n ==> ParseBytes(s) == Err(Truncated))
      && (n <= 1024 * 1024 && |s| - 4 >= n ==> ParseBytes(s) == Ok((s[4..4 + n], s[4 + n..])))
    ensures ParseBytes(s).Err? ==> ParseStr(s) == Err(ParseBytes(s).error)
    ensures ParseBytes(s).Ok? && !Utf8(ParseBytes(s).value.0) ==> ParseStr(s) == Err(BadUtf8)
    ensures |s| == 0 ==> ParseOptStr(s) == Err(Truncated)
    ensures |s| > 0 && s[0] > 1 ==> ParseOptStr(s) == Err(BadTag(s[0]))
    ensures |s| > 0 && s[0] == 1 && ParseStr(s[1..]).Err? ==> ParseOptStr(s) == Err(ParseStr(s[1..]).error)
  {
    hide Utf8, FromLE;
    if |s| >= 4 {
      var n := FromLE(s[..4]);
      if n <= |s| - 4 { assert s[4..][..n] == s[4..4 + n] && s[4..][n..] == s[4 + n..]; }
    }
  }

  // ---- messages between servers -----------------------------------------------------------

  /** What a message was read from. */
  ghost predicate RaftFrom(s: seq<byte>, m: RaftMsg, rest: seq<byte>) {
    RaftTyped(m) && RaftFits(m) && Alike(s, EncRaft(m) + rest)
  }

  lemma Chain1(t: seq<byte>, a: seq<byte>, r: seq<byte>)
    ensures t + a + r == t + (a + r)
  {
  }

  lemma Chain2(t: seq<byte>, a: seq<byte>, b: seq<byte>, r: seq<byte>)
    ensures t + (a + b) + r == t + (a + (b + r))
  {
    Chain1(t, a + b, r);
    Chain1(a, b, r);
  }

  lemma Chain3(t: seq<byte>, a: seq<byte>, b: seq<byte>, c: seq<byte>, r: seq<byte>)
    ensures t + (a + (b + c)) + r == t + (a + (b + (c + r)))
  {
    Chain1(t, a + (b + c), r);
    Chain2(a, b, c, r);
  }

  lemma Chain4(t: seq<byte>, a: seq<byte>, b: seq<byte>, c: seq<byte>, d: seq<byte>, r: seq<byte>)
    ensures t + (a + (b + (c + d))) + r == t + (a + (b + (c + (d + r))))
  {
    Chain1(t, a + (b + (c + d)), r);
    Chain3(a, b, c, d, r);
  }

  lemma VoteMsgFrom(s: seq<byte>)
    requires ParseRaft(s).Ok? && (ParseRaft(s).value.0.RequestVote? || ParseRaft(s).value.0.PreVote?)
    ensures RaftFrom(s, ParseRaft(s).value.0, ParseRaft(s).value.1)
  {
    hide LE, ParseU64, ParseU32, ParseVote, ParseEntries, ParseBytes, ParseBool, Alike, EncEntries, EntriesTyped,
         EntriesFit, EncBytes, EncBool;
    TagFrom(s);
    VoteFrom(s[1..]);
    var (m, rest) := ParseRaft(s).value;
    Chain4([s[0]], LE(m.term, 8), LE(m.candidate, 4), LE(m.lastIndex, 8), LE(m.lastTerm, 8), rest);
    AlikeSame(s);
  }

  lemma AppendFrom(s: seq<byte>)
    requires ParseRaft(s).Ok? && ParseRaft(s).value.0.AppendEntries?
    ensures RaftFrom(s, ParseRaft(s).value.0, ParseRaft(s).value.1)
  {
    hide LE, ParseU64, ParseU32, ParseVote, ParseEntries, ParseBytes, ParseBool, Alike, EncEntries, EntriesTyped,
         EntriesFit, EncBytes, EncBool;
    TagFrom(s);
    VoteFrom(s[1..]);
    var s1 := ParseVote(s[1..]).value.1;
    U64From(s1);
    var s2 := ParseU64(s1).value.1;
    U32From(s2);
    var (n, s3) := ParseU32(s2).value;
    EntriesFrom(s3, n);
    var (m, rest) := ParseRaft(s).value;
    var count, es := LE(n, 4), EncEntries(m.entries);
    var tail := LE(m.leaderCommit, 8) + (count + es);
    Chain4([s[0]], LE(m.term, 8), LE(m.leader, 4), LE(m.prevIndex, 8), LE(m.prevTerm, 8) + tail, rest);
    Chain1(LE(m.prevTerm, 8), tail, rest);
    Chain2(LE(m.leaderCommit, 8), count, es, rest);
    AlikeSame(s);
  }

  lemma SnapshotFrom(s: seq<byte>)
    requires ParseRaft(s).Ok? && ParseRaft(s).value.0.InstallSnapshot?
    ensures RaftFrom(s, ParseRaft(s).value.0, ParseRaft(s).value.1)
  {
    hide LE, ParseU64, ParseU32, ParseVote, ParseEntries, ParseBytes, ParseBool, Alike, EncEntries, EntriesTyped,
         EntriesFit, EncBytes, EncBool;
    TagFrom(s);
    VoteFrom(s[1..]);
    BytesFrom(ParseVote(s[1..]).value.1);
    var (m, rest) := ParseRaft(s).value;
    var data := EncBytes(m.data);
    Chain4([s[0]], LE(m.term, 8), LE(m.leader, 4), LE(m.index, 8), LE(m.indexTerm, 8) + data, rest);
    Chain1(LE(m.indexTerm, 8), data, rest);
    AlikeSame(s);
  }

  lemma TwoNumbersFrom(s: seq<byte>)
    requires ParseRaft(s).Ok? && (ParseRaft(s).value.0.InstallSnapshotResp? || ParseRaft(s).value.0.ReadProbeResp?)
    ensures RaftFrom(s, ParseRaft(s).value.0, ParseRaft(s).value.1)
  {
    hide LE, ParseU64, ParseU32, ParseVote, ParseEntries, ParseBytes, ParseBool, Alike, EncEntries, EncBytes, EncBool;
    TagFrom(s);
    var (m, rest) := ParseRaft(s).value;
    U64From(s[1..]);
    U64From(ParseU64(s[1..]).value.1);
    Chain2([s[0]], LE(m.term, 8), LE(if m.InstallSnapshotResp? then m.index else m.seqno, 8), rest);
    AlikeSame(s);
  }

  lemma ProbeFrom(s: seq<byte>)
    requires ParseRaft(s).Ok? && ParseRaft(s).value.0.ReadProbe?
    ensures RaftFrom(s, ParseRaft(s).value.0, ParseRaft(s).value.1)
  {
    hide LE, ParseU64, ParseU32, ParseVote, ParseEntries, ParseBytes, ParseBool, Alike, EncEntries, EncBytes, EncBool;
    TagFrom(s);
    var (m, rest) := ParseRaft(s).value;
    U64From(s[1..]);
    var s2 := ParseU64(s[1..]).value.1;
    U32From(s2);
    U64From(ParseU32(s2).value.1);
    Chain3([s[0]], LE(m.term, 8), LE(m.leader, 4), LE(m.seqno, 8), rest);
    AlikeSame(s);
  }

  lemma VoteRespFrom(s: seq<byte>)
    requires ParseRaft(s).Ok? && ParseRaft(s).value.0.RequestVoteResp?
    ensures RaftFrom(s, ParseRaft(s).value.0, ParseRaft(s).value.1)
  {
    hide LE, ParseU64, ParseU32, ParseVote, ParseEntries, ParseBytes, ParseBool, Alike, EncEntries, EncBytes, EncBool;
    TagFrom(s);
    var (m, rest) := ParseRaft(s).value;
    U64From(s[1..]);
    var s2 := ParseU64(s[1..]).value.1;
    BoolFrom(s2);
    var said := EncBool(m.granted) + rest;
    Chain2([s[0]], LE(m.term, 8), EncBool(m.granted), rest);
    AlikeBehind(LE(m.term, 8), s2, said);
    AlikeBehind([s[0]], LE(m.term, 8) + s2, LE(m.term, 8) + said);
  }

  lemma PreVoteRespFrom(s: seq<byte>)
    requires ParseRaft(s).Ok? && ParseRaft(s).value.0.PreVoteResp?
    ensures RaftFrom(s, ParseRaft(s).value.0, ParseRaft(s).value.1)
  {
    hide LE, ParseU64, ParseU32, ParseVote, ParseEntries, ParseBytes, ParseBool, Alike, EncEntries, EncBytes, EncBool;
    TagFrom(s);
    var (m, rest) := ParseRaft(s).value;
    U64From(s[1..]);
    var s2 := ParseU64(s[1..]).value.1;
    U64From(s2);
    var s3 := ParseU64(s2).value.1;
    BoolFrom(s3);
    var said := EncBool(m.granted) + rest;
    Chain3([s[0]], LE(m.term, 8), LE(m.round, 8), EncBool(m.granted), rest);
    AlikeBehind(LE(m.round, 8), s3, said);
    AlikeBehind(LE(m.term, 8), s2, LE(m.round, 8) + said);
    AlikeBehind([s[0]], LE(m.term, 8) + s2, LE(m.term, 8) + (LE(m.round, 8) + said));
  }

  lemma AckFrom(s: seq<byte>)
    requires ParseRaft(s).Ok? && ParseRaft(s).value.0.AppendEntriesResp?
    ensures RaftFrom(s, ParseRaft(s).value.0, ParseRaft(s).value.1)
  {
    hide LE, ParseU64, ParseU32, ParseVote, ParseEntries, ParseBytes, ParseBool, Alike, EncEntries, EncBytes, EncBool;
    TagFrom(s);
    var (m, rest) := ParseRaft(s).value;
    U64From(s[1..]);
    var s2 := ParseU64(s[1..]).value.1;
    BoolFrom(s2);
    var s3 := ParseBool(s2).value.1;
    U64From(s3);
    U64From(ParseU64(s3).value.1);
    var said := EncBool(m.success) + s3;
    Chain4([s[0]], LE(m.term, 8), EncBool(m.success), LE(m.matchIndex, 8), LE(m.conflictIndex, 8), rest);
    AlikeBehind(LE(m.term, 8), s2, said);
    AlikeBehind([s[0]], LE(m.term, 8) + s2, LE(m.term, 8) + said);
  }

  lemma RaftParsed(s: seq<byte>)
    requires ParseRaft(s).Ok?
    ensures RaftFrom(s, ParseRaft(s).value.0, ParseRaft(s).value.1)
  {
    hide ParseRaft, RaftFrom;
    var m := ParseRaft(s).value.0;
    match m {
      case RequestVote(_, _, _, _) => VoteMsgFrom(s);
      case PreVote(_, _, _, _) => VoteMsgFrom(s);
      case AppendEntries(_, _, _, _, _, _) => AppendFrom(s);
      case InstallSnapshot(_, _, _, _, _) => SnapshotFrom(s);
      case RequestVoteResp(_, _) => VoteRespFrom(s);
      case PreVoteResp(_, _, _) => PreVoteRespFrom(s);
      case AppendEntriesResp(_, _, _, _) => AckFrom(s);
      case ReadProbe(_, _, _) => ProbeFrom(s);
      case _ => TwoNumbersFrom(s);
    }
  }

  // ---- client messages --------------------------------------------------------------------------

  lemma OutcomeFrom(s: seq<byte>)
    requires ParseOutcome(s).Ok?
    ensures var (o, rest) := ParseOutcome(s).value;
      OutcomeTyped(o) && OutcomeFits(o) && Alike(s, EncOutcome(o) + rest)
  {
    hide LE, ParseU32, ParseOptStr, ParseBool, EncBool, EncOptStr, OptUtf8, OptStrFits, Alike;
    TagFrom(s);
    var (o, rest) := ParseOutcome(s).value;
    match o {
      case Value(v) => OptStrFrom(s[1..]);
      case CasDone(matched) =>
        BoolFrom(s[1..]);
        assert EncOutcome(o) + rest == [2] + (EncBool(matched) + rest);
        AlikeBehind([2], s[1..], EncBool(matched) + rest);
      case NotLeader(hint) => U32From(s[1..]);
      case _ =>
    }
    if !o.CasDone? {
      assert s == EncOutcome(o) + rest;
      AlikeSame(s);
    }
  }

  /** A request, whose command may name another client and number, or a reply. */
  ghost predicate ClientFrom(s: seq<byte>, m: ClientMsg, rest: seq<byte>) {
    && ClientTyped(m) && ClientFits(m)
    && match m
       case Reply(_, _) => Alike(s, EncClient(m) + rest)
       case Request(reqId, client, seqno, op) =>
         exists c: Command :: c.op == op && c.client < U32 && c.seqno < U64
           && s == [1] + (LE(reqId, 8) + (LE(client, 4) + (LE(seqno, 8) + EncCommand(c)))) + rest
  }

  lemma ReplyFrom(s: seq<byte>)
    requires ParseClient(s).Ok? && ParseClient(s).value.0.Reply?
    ensures ClientFrom(s, ParseClient(s).value.0, ParseClient(s).value.1)
  {
    hide LE, ParseU64, ParseU32, ParseCommand, EncCommand, ParseOutcome, EncOutcome, OutcomeTyped, OutcomeFits, Alike;
    TagFrom(s);
    var (m, rest) := ParseClient(s).value;
    U64From(s[1..]);
    var s2 := ParseU64(s[1..]).value.1;
    OutcomeFrom(s2);
    var front := [2] + LE(m.reqId, 8);
    Chain1([2], LE(m.reqId, 8), s2);
    Chain2([2], LE(m.reqId, 8), EncOutcome(m.outcome), rest);
    Chain1([2], LE(m.reqId, 8), EncOutcome(m.outcome) + rest);
    AlikeBehind(front, s2, EncOutcome(m.outcome) + rest);
  }

  lemma RequestFrom(s: seq<byte>)
    requires ParseClient(s).Ok? && ParseClient(s).value.0.Request?
    ensures ClientFrom(s, ParseClient(s).value.0, ParseClient(s).value.1)
  {
    hide LE, ParseU64, ParseU32, ParseCommand, EncCommand, ParseOutcome, EncOutcome, EncClient, Alike, OpTyped, OpFits;
    TagFrom(s);
    var (m, rest) := ParseClient(s).value;
    U64From(s[1..]);
    var s2 := ParseU64(s[1..]).value.1;
    U32From(s2);
    var s3 := ParseU32(s2).value.1;
    U64From(s3);
    var s4 := ParseU64(s3).value.1;
    CommandFrom(s4);
    var c := ParseCommand(s4).value.0;
    Chain4([1], LE(m.reqId, 8), LE(m.client, 4), LE(m.seqno, 8), EncCommand(c), rest);
  }

  lemma ClientParsed(s: seq<byte>)
    requires ParseClient(s).Ok?
    ensures ClientFrom(s, ParseClient(s).value.0, ParseClient(s).value.1)
  {
    hide ParseClient, ClientFrom;
    if ParseClient(s).value.0.Reply? { ReplyFrom(s); } else { RequestFrom(s); }
  }

  /** Whatever decodes is a message within the limits, in a frame whose checksum is right, with nothing behind it. */
  lemma DecodedIsMessage(bytes: seq<byte>)
    requires Decode(bytes).Ok?
    ensures var m := Decode(bytes).value;
      && Unframe(bytes).Ok? && MessageTyped(m) && MessageFits(m)
      && var p := Unframe(bytes).value;
        match m
        case Raft(r) => Alike(p, [1] + EncRaft(r))
        case Client(c) => |p| > 0 && p[0] == 2 && ClientFrom(p[1..], c, [])
  {
    hide Unframe, ParseRaft, ParseClient, RaftTyped, RaftFits, ClientTyped, ClientFits, EncRaft, Alike;
    var p := Unframe(bytes).value;
    TagFrom(p);
    if p[0] == 1 {
      RaftParsed(p[1..]);
      var r := ParseRaft(p[1..]).value.0;
      assert EncRaft(r) + [] == EncRaft(r);
      AlikeBehind([1], p[1..], EncRaft(r));
    } else {
      ClientParsed(p[1..]);
    }
  }
}
