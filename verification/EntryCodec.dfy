/** The byte form of operations, commands and log entries. Reading undoes writing exactly within the format's limits. */
module EntryCodec {
  import opened Types
  import opened Codec

  const MAX_MEMBERS: nat := 256

  // ---- what is written ------------------------------------------------------------------

  function EncIds(ids: seq<NodeId>): seq<byte> {
    if |ids| == 0 then [] else LE(ids[0], 4) + EncIds(ids[1..])
  }

  function EncOp(op: Op): seq<byte> {
    match op
    case Noop => [0]
    case Get(key) => [1] + EncBytes(key)
    case Put(key, value) => [2] + EncBytes(key) + EncBytes(value)
    case Delete(key) => [3] + EncBytes(key)
    case Cas(key, expected, value) => [4] + EncBytes(key) + EncOptStr(expected) + EncBytes(value)
    case SetMembers(members) => [5] + LE(|members|, 4) + EncIds(members)
  }

  function EncCommand(c: Command): seq<byte> {
    LE(c.client, 4) + LE(c.seqno, 8) + EncOp(c.op)
  }

  function EncEntry(e: Entry): seq<byte> {
    LE(e.term, 8) + LE(e.index, 8) + EncCommand(e.cmd)
  }

  // ---- what is read ----------------------------------------------------------------------

  function ParseIds(s: seq<byte>, n: nat): Parsed<seq<NodeId>> {
    if n == 0 then Ok(([], s))
    else
      var (id, s1) :- ParseU32(s);
      var (ids, s2) :- ParseIds(s1, n - 1);
      Ok(([id] + ids, s2))
  }

  function ParseOp(s: seq<byte>): Parsed<Op> {
    var (t, s1) :- ParseU8(s);
    match t
    case 0 => Ok((Noop, s1))
    case 1 =>
      var (key, s2) :- ParseStr(s1);
      Ok((Get(key), s2))
    case 2 =>
      var (key, s2) :- ParseStr(s1);
      var (value, s3) :- ParseStr(s2);
      Ok((Put(key, value), s3))
    case 3 =>
      var (key, s2) :- ParseStr(s1);
      Ok((Delete(key), s2))
    case 4 =>
      var (key, s2) :- ParseStr(s1);
      var (expected, s3) :- ParseOptStr(s2);
      var (value, s4) :- ParseStr(s3);
      Ok((Cas(key, expected, value), s4))
    case 5 =>
      var (n, s2) :- ParseU32(s1);
      if n == 0 || n > MAX_MEMBERS then Err(TooLong)
      else
        var (members, s3) :- ParseIds(s2, n);
        Ok((SetMembers(members), s3))
    case _ => Err(BadTag(t))
  }

  function ParseCommand(s: seq<byte>): Parsed<Command> {
    var (client, s1) :- ParseU32(s);
    var (seqno, s2) :- ParseU64(s1);
    var (op, s3) :- ParseOp(s2);
    Ok((Command(client, seqno, op), s3))
  }

  function ParseEntry(s: seq<byte>): Parsed<Entry> {
    var (term, s1) :- ParseU64(s);
    var (index, s2) :- ParseU64(s1);
    var (cmd, s3) :- ParseCommand(s2);
    Ok((Entry(term, index, cmd), s3))
  }

  // ---- what the fields' types allow, and what the format allows ------------------------------

  predicate IdsTyped(ids: seq<NodeId>) { forall k :: 0 <= k < |ids| ==> ids[k] < U32 }

  /** Strings are UTF-8 and numbers fit their machine integers. */
  predicate OpTyped(op: Op) {
    match op
    case Noop => true
    case Get(key) => Utf8(key)
    case Put(key, value) => Utf8(key) && Utf8(value)
    case Delete(key) => Utf8(key)
    case Cas(key, expected, value) => Utf8(key) && OptUtf8(expected) && Utf8(value)
    case SetMembers(members) => IdsTyped(members)
  }

  predicate CommandTyped(c: Command) { c.client < U32 && c.seqno < U64 && OpTyped(c.op) }

  predicate EntryTyped(e: Entry) { e.term < U64 && e.index < U64 && CommandTyped(e.cmd) }

  predicate OpFits(op: Op) {
    match op
    case Noop => true
    case Get(key) => StrFits(key)
    case Put(key, value) => StrFits(key) && StrFits(value)
    case Delete(key) => StrFits(key)
    case Cas(key, expected, value) => StrFits(key) && OptStrFits(expected) && StrFits(value)
    case SetMembers(members) => 0 < |members| <= MAX_MEMBERS
  }

  // ---- reading undoes writing ------------------------------------------------------------------

  lemma {:induction false} IdsRead(ids: seq<NodeId>, rest: seq<byte>)
    requires IdsTyped(ids)
    ensures ParseIds(EncIds(ids) + rest, |ids|) == Ok((ids, rest))
  {
    if |ids| == 0 {
      assert EncIds(ids) + rest == rest;
    } else {
      IdsRead(ids[1..], rest);
      U32Reads(ids[0], EncIds(ids[1..]) + rest);
      assert EncIds(ids) + rest == LE(ids[0], 4) + (EncIds(ids[1..]) + rest);
      assert ids == [ids[0]] + ids[1..];
    }
  }

  lemma MembersRead(members: seq<NodeId>, rest: seq<byte>)
    requires IdsTyped(members)
    ensures ParseOp(EncOp(SetMembers(members)) + rest) == Ok((SetMembers(members), rest))
      <==> 0 < |members| <= MAX_MEMBERS
  {
    var s := EncOp(SetMembers(members)) + rest;
    var s1 := LE(|members|, 4) + (EncIds(members) + rest);
    assert s[1..] == s1;
    if |members| <= MAX_MEMBERS {
      U32Reads(|members|, EncIds(members) + rest);
      IdsRead(members, rest);
    } else if ParseOp(s).Ok? {
      IdsCount(ParseU32(s1).value.1, ParseU32(s1).value.0);
    }
  }

  lemma {:induction false} IdsCount(s: seq<byte>, n: nat)
    ensures ParseIds(s, n).Ok? ==> |ParseIds(s, n).value.0| == n
  {
    if n > 0 && ParseU32(s).Ok? { IdsCount(ParseU32(s).value.1, n - 1); }
  }

  lemma StrShort(s: seq<byte>)
    ensures ParseStr(s).Ok? ==> StrFits(ParseStr(s).value.0)
  {
  }

  lemma PutRead(key: Text, value: Text, rest: seq<byte>)
    requires Utf8(key) && Utf8(value)
    ensures ParseOp(EncOp(Put(key, value)) + rest) == Ok((Put(key, value), rest)) <==> StrFits(key) && StrFits(value)
  {
    hide Utf8, EncBytes, ParseStr;
    var s := EncOp(Put(key, value)) + rest;
    assert s[1..] == EncBytes(key) + (EncBytes(value) + rest);
    StrReads(key, EncBytes(value) + rest);
    StrReads(value, rest);
    StrShort(s[1..]);
    StrShort(EncBytes(value) + rest);
  }

  lemma CasRead(key: Text, expected: Option<Text>, value: Text, rest: seq<byte>)
    requires Utf8(key) && OptUtf8(expected) && Utf8(value)
    ensures ParseOp(EncOp(Cas(key, expected, value)) + rest) == Ok((Cas(key, expected, value), rest))
        <==> StrFits(key) && OptStrFits(expected) && StrFits(value)
  {
    hide Utf8, OptUtf8, EncBytes, EncOptStr, ParseStr, ParseOptStr;
    var s := EncOp(Cas(key, expected, value)) + rest;
    assert s[1..] == EncBytes(key) + (EncOptStr(expected) + (EncBytes(value) + rest));
    StrReads(key, EncOptStr(expected) + (EncBytes(value) + rest));
    OptStrReads(expected, EncBytes(value) + rest);
    StrReads(value, rest);
    StrShort(s[1..]);
    OptStrShort(EncOptStr(expected) + (EncBytes(value) + rest));
    StrShort(EncBytes(value) + rest);
  }

  lemma OptStrShort(s: seq<byte>)
    ensures ParseOptStr(s).Ok? ==> OptStrFits(ParseOptStr(s).value.0)
  {
    if |s| > 0 && s[0] == 1 { StrShort(s[1..]); }
  }

  lemma KeyRead(key: Text, rest: seq<byte>, tag: byte)
    requires Utf8(key)
    ensures ([tag] + EncBytes(key) + rest)[1..] == EncBytes(key) + rest
    ensures ParseStr(EncBytes(key) + rest) == Ok((key, rest)) <==> StrFits(key)
    ensures ParseStr(EncBytes(key) + rest).Ok? ==> StrFits(ParseStr(EncBytes(key) + rest).value.0)
  {
    StrReads(key, rest);
    StrShort(EncBytes(key) + rest);
  }

  /** An operation reads back exactly when it is within the limits of the format. */
  lemma OpReads(op: Op, rest: seq<byte>)
    requires OpTyped(op)
    ensures ParseOp(EncOp(op) + rest) == Ok((op, rest)) <==> OpFits(op)
  {
    hide Utf8, ParseStr, EncBytes;
    match op {
      case Noop => assert (EncOp(op) + rest)[1..] == rest;
      case Get(key) => KeyRead(key, rest, 1);
      case Put(key, value) => PutRead(key, value, rest);
      case Delete(key) => KeyRead(key, rest, 3);
      case Cas(key, expected, value) => CasRead(key, expected, value, rest);
      case SetMembers(members) => MembersRead(members, rest);
    }
  }

  lemma CommandReads(c: Command, rest: seq<byte>)
    requires CommandTyped(c)
    ensures ParseCommand(EncCommand(c) + rest) == Ok((c, rest)) <==> OpFits(c.op)
  {
    hide ParseOp, EncOp, LE, ParseInt, ParseU32, ParseU64, OpFits, OpTyped;
    assert EncCommand(c) + rest == LE(c.client, 4) + (LE(c.seqno, 8) + (EncOp(c.op) + rest));
    U32Reads(c.client, LE(c.seqno, 8) + (EncOp(c.op) + rest));
    U64Reads(c.seqno, EncOp(c.op) + rest);
    OpReads(c.op, rest);
    if ParseOp(EncOp(c.op) + rest).Ok? { OpFrom(EncOp(c.op) + rest); }
  }

  /** An entry reads back exactly when its operation is within the limits of the format. */
  lemma EntryReads(e: Entry, rest: seq<byte>)
    requires EntryTyped(e)
    ensures ParseEntry(EncEntry(e) + rest) == Ok((e, rest)) <==> OpFits(e.cmd.op)
  {
    hide ParseCommand, EncCommand, LE, ParseInt, ParseU64, OpFits, CommandTyped;
    assert EncEntry(e) + rest == LE(e.term, 8) + (LE(e.index, 8) + (EncCommand(e.cmd) + rest));
    U64Reads(e.term, LE(e.index, 8) + (EncCommand(e.cmd) + rest));
    U64Reads(e.index, EncCommand(e.cmd) + rest);
    CommandReads(e.cmd, rest);
    if ParseCommand(EncCommand(e.cmd) + rest).Ok? { CommandFrom(EncCommand(e.cmd) + rest); }
  }

  // ---- what was read is what would be written ------------------------------------------------------

  lemma {:induction false} IdsFrom(s: seq<byte>, n: nat)
    requires ParseIds(s, n).Ok?
    ensures var (ids, rest) := ParseIds(s, n).value; s == EncIds(ids) + rest && |ids| == n && IdsTyped(ids)
  {
    if n > 0 {
      IntFrom(s, 4);
      Widths();
      var (id, s1) := ParseU32(s).value;
      IdsFrom(s1, n - 1);
      var (ids, s2) := ParseIds(s1, n - 1).value;
      assert ([id] + ids)[1..] == ids;
    }
  }

  lemma StrFrom(s: seq<byte>)
    requires ParseStr(s).Ok?
    ensures var (v, rest) := ParseStr(s).value; s == EncBytes(v) + rest && StrFits(v) && Utf8(v)
  {
    BytesFrom(s);
  }

  lemma OpFrom(s: seq<byte>)
    requires ParseOp(s).Ok?
    ensures var (op, rest) := ParseOp(s).value; s == EncOp(op) + rest && OpFits(op) && OpTyped(op)
  {
    hide ParseStr, ParseOptStr, EncBytes, EncOptStr, Utf8, OptUtf8, StrFits, OptStrFits, ParseU32, ParseIds, EncIds, LE,
         IdsTyped;
    assert s == [s[0]] + s[1..];
    if s[0] == 5 { MembersFrom(s[1..]); }
    else if s[0] == 4 { CasFrom(s[1..]); }
    else if s[0] != 0 {
      StrFrom(s[1..]);
      if s[0] == 2 { StrFrom(ParseStr(s[1..]).value.1); }
    }
  }

  /** The fields of a compare-and-set, as far as they parse, are what would be written. */
  ghost predicate CasFields(s: seq<byte>)
    requires ParseStr(s).Ok?
  {
    var (key, s1) := ParseStr(s).value;
    StrFits(key) && Utf8(key) && s == EncBytes(key) + s1
    && (ParseOptStr(s1).Ok? ==>
          var (expected, s2) := ParseOptStr(s1).value;
          OptStrFits(expected) && OptUtf8(expected) && s1 == EncOptStr(expected) + s2
          && (ParseStr(s2).Ok? ==>
                var (value, s3) := ParseStr(s2).value;
                StrFits(value) && Utf8(value) && s == EncBytes(key) + EncOptStr(expected) + EncBytes(value) + s3))
  }

  lemma CasFrom(s: seq<byte>)
    requires ParseStr(s).Ok?
    ensures CasFields(s)
  {
    hide ParseStr, ParseOptStr, EncBytes, EncOptStr, Utf8, OptUtf8, StrFits, OptStrFits;
    StrFrom(s);
    var (key, s1) := ParseStr(s).value;
    if ParseOptStr(s1).Ok? {
      OptStrFrom(s1);
      var (expected, s2) := ParseOptStr(s1).value;
      if ParseStr(s2).Ok? { StrFrom(s2); }
    }
  }

  lemma MembersFrom(s: seq<byte>)
    requires ParseU32(s).Ok? && ParseIds(ParseU32(s).value.1, ParseU32(s).value.0).Ok?
    ensures var (members, rest) := ParseIds(ParseU32(s).value.1, ParseU32(s).value.0).value;
      s == LE(|members|, 4) + EncIds(members) + rest && |members| == ParseU32(s).value.0 && IdsTyped(members)
  {
    IntFrom(s, 4);
    IdsFrom(ParseU32(s).value.1, ParseU32(s).value.0);
  }

  lemma CommandFrom(s: seq<byte>)
    requires ParseCommand(s).Ok?
    ensures var (c, rest) := ParseCommand(s).value; s == EncCommand(c) + rest && OpFits(c.op) && CommandTyped(c)
  {
    hide ParseOp, EncOp, LE, ParseInt, OpFits, OpTyped;
    Widths();
    IntFrom(s, 4);
    var (client, s1) := ParseU32(s).value;
    IntFrom(s1, 8);
    OpFrom(ParseU64(s1).value.1);
  }

  /** The bytes an entry was read from are the bytes it is written as. */
  lemma EntryFrom(s: seq<byte>)
    requires ParseEntry(s).Ok?
    ensures var (e, rest) := ParseEntry(s).value; s == EncEntry(e) + rest && OpFits(e.cmd.op) && EntryTyped(e)
  {
    hide ParseCommand, EncCommand, LE, ParseInt, OpFits, CommandTyped;
    Widths();
    IntFrom(s, 8);
    var (term, s1) := ParseU64(s).value;
    IntFrom(s1, 8);
    CommandFrom(ParseU64(s1).value.1);
  }

  // ---- the encoder and the decoder -------------------------------------------------------------------

  method PutOp(e: Enc, op: Op)
    modifies e
    ensures e.buf == old(e.buf) + EncOp(op)
  {
    hide LE, EncBytes, EncOptStr, EncIds;
    match op {
      case Noop => e.PutU8(0);
      case Get(key) => PutKey(e, 1, key);
      case Put(key, value) => { PutKey(e, 2, key); e.PutBytes(value); }
      case Delete(key) => PutKey(e, 3, key);
      case Cas(key, expected, value) => { PutKey(e, 4, key); e.PutOptStr(expected); e.PutBytes(value); }
      case SetMembers(members) => { e.PutU8(5); e.PutInt(|members|, 4); PutIds(e, members); }
    }
  }

  method PutKey(e: Enc, tag: byte, key: Text)
    modifies e
    ensures e.buf == old(e.buf) + ([tag] + EncBytes(key))
  {
    e.PutU8(tag);
    e.PutBytes(key);
  }

  method PutIds(e: Enc, ids: seq<NodeId>)
    modifies e
    ensures e.buf == old(e.buf) + EncIds(ids)
  {
    for k := 0 to |ids|
      invariant e.buf + EncIds(ids[k..]) == old(e.buf) + EncIds(ids)
    {
      assert ids[k..][1..] == ids[k + 1..];
      e.PutInt(ids[k], 4);
    }
    assert ids[|ids|..] == [];
  }

  method PutCommand(e: Enc, c: Command)
    modifies e
    ensures e.buf == old(e.buf) + EncCommand(c)
  {
    hide LE, EncOp;
    e.PutInt(c.client, 4);
    e.PutInt(c.seqno, 8);
    PutOp(e, c.op);
  }

  method PutEntry(e: Enc, entry: Entry)
    modifies e
    ensures e.buf == old(e.buf) + EncEntry(entry)
  {
    hide LE, EncCommand;
    e.PutInt(entry.term, 8);
    e.PutInt(entry.index, 8);
    PutCommand(e, entry.cmd);
  }

  method GetOp(d: Dec) returns (r: Result<Op, DecodeError>)
    requires d.Valid()
    modifies d
    ensures d.Valid() && d.Did(r, ParseOp(old(d.Rest())))
  {
    hide ParseStr, ParseOptStr, ParseInt;
    var t :- d.GetU8();
    match t {
      case 0 => return Ok(Noop);
      case 1 =>
        var key :- d.GetStr();
        return Ok(Get(key));
      case 2 =>
        var key :- d.GetStr();
        var value :- d.GetStr();
        return Ok(Put(key, value));
      case 3 =>
        var key :- d.GetStr();
        return Ok(Delete(key));
      case 4 =>
        var key :- d.GetStr();
        var expected :- d.GetOptStr();
        var value :- d.GetStr();
        return Ok(Cas(key, expected, value));
      case 5 =>
        var n :- d.GetInt(4);
        if n == 0 || n > MAX_MEMBERS { return Err(TooLong); }
        r := GetMembers(d, n);
      case _ => return Err(BadTag(t));
    }
  }

  /** With `members` read already, the rest of the ids parse as `p`. */
  ghost predicate IdsSoFar(start: seq<byte>, n: nat, members: seq<NodeId>, p: Parsed<seq<NodeId>>) {
    match p
    case Ok(v) => ParseIds(start, n) == Ok((members + v.0, v.1))
    case Err(e) => ParseIds(start, n) == Err(e)
  }

  lemma IdsStart(start: seq<byte>, n: nat)
    ensures IdsSoFar(start, n, [], ParseIds(start, n))
  {
    if ParseIds(start, n).Ok? { assert [] + ParseIds(start, n).value.0 == ParseIds(start, n).value.0; }
  }

  lemma IdsNext(start: seq<byte>, n: nat, members: seq<NodeId>, s: seq<byte>, left: nat, id: NodeId, rest: seq<byte>)
    requires left > 0 && IdsSoFar(start, n, members, ParseIds(s, left)) && ParseU32(s) == Ok((id, rest))
    ensures IdsSoFar(start, n, members + [id], ParseIds(rest, left - 1))
  {
    if ParseIds(rest, left - 1).Ok? {
      var ids := ParseIds(rest, left - 1).value.0;
      assert members + ([id] + ids) == members + [id] + ids;
    }
  }

  method GetMembers(d: Dec, n: nat) returns (r: Result<Op, DecodeError>)
    requires d.Valid()
    modifies d
    ensures d.Valid() && match ParseIds(old(d.Rest()), n)
                         case Ok(v) => r == Ok(SetMembers(v.0)) && d.Rest() == v.1
                         case Err(e) => r == Err(e)
  {
    var members: seq<NodeId> := [];
    ghost var start := d.Rest();
    IdsStart(start, n);
    for k := 0 to n
      invariant d.Valid() && IdsSoFar(start, n, members, ParseIds(d.Rest(), n - k))
    {
      ghost var s, was := d.Rest(), members;
      var id :- d.GetInt(4);
      members := members + [id];
      IdsNext(start, n, was, s, n - k, id, d.Rest());
    }
    assert members + [] == members;
    r := Ok(SetMembers(members));
  }

  method GetEntry(d: Dec) returns (r: Result<Entry, DecodeError>)
    requires d.Valid()
    modifies d
    ensures d.Valid() && d.Did(r, ParseEntry(old(d.Rest())))
  {
    hide ParseOp, ParseInt;
    var term :- d.GetInt(8);
    var index :- d.GetInt(8);
    var client :- d.GetInt(4);
    var seqno :- d.GetInt(8);
    var op :- GetOp(d);
    r := Ok(Entry(term, index, Command(client, seqno, op)));
  }
}
