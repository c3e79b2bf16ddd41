/**
 The log file: a sequence of self-describing records, and the recovery that ends at the first bad
 one. Whatever follows them, whole records come back; a torn record never does.
*/
module LogFile {
  import opened Types
  import opened Crc32
  import opened Codec
  import opened EntryCodec

  /** The longest payload recovery accepts in a record. */
  const MAX_RECORD: nat := 0x10_0000

  function Checksum(s: seq<byte>): (c: nat)
    ensures c < U32
  {
    Power2Of32();
    NumberOf(Crc(s), 32)
  }

  lemma OneByteChangesChecksum(s: seq<byte>, t: seq<byte>, k: nat)
    requires DifferOnlyAt(s, t, k)
    ensures Checksum(s) != Checksum(t)
  {
    hide Crc, NumberOf;
    OneByteChangesCrc(s, t, k);
    NumbersDiffer(Crc(s), Crc(t));
  }

  function Record(e: Entry): seq<byte> {
    var p := EncEntry(e);
    LE(|p|, 4) + LE(Checksum(p), 4) + p
  }

  function Records(es: seq<Entry>): seq<byte> {
    if |es| == 0 then [] else Record(es[0]) + Records(es[1..])
  }

  /** The entry of the record at the front of `s`, and the record's size. */
  function ReadRecord(s: seq<byte>): (r: Option<(Entry, nat)>)
    ensures r.Some? ==> 8 < r.value.1 <= |s|
  {
    if |s| < 8 then None
    else
      var len := FromLE(s[..4]);
      if len == 0 || len > MAX_RECORD || 8 + len > |s| then None
      else
        var p := s[8..8 + len];
        if Checksum(p) != FromLE(s[4..8]) then None
        else
          match ParseEntry(p)
          case Err(_) => None
          case Ok((e, rest)) => if rest == [] then Some((e, 8 + len)) else None
  }

  /** The entries recovery keeps: records in a row, with the next index and a term that does not fall. */
  function Recover(s: seq<byte>, next: nat, term: nat): seq<Entry>
    decreases |s|
  {
    match ReadRecord(s)
    case None => []
    case Some((e, n)) =>
      if e.index != next || e.term < term then [] else [e] + Recover(s[n..], next + 1, e.term)
  }

  datatype RecoveredLog = RecoveredLog(entries: seq<Entry>, offsets: seq<nat>, validBytes: nat, damaged: bool)

  /** What the loop below returns, said at once. */
  ghost predicate IsRecovery(bytes: seq<byte>, first: nat, r: RecoveredLog) {
    && r.entries == Recover(bytes, first, 0)
    && |r.offsets| == |r.entries| && (forall k :: 0 <= k < |r.offsets| ==> r.offsets[k] == |Records(r.entries[..k])|)
    && r.validBytes == |Records(r.entries)| <= |bytes|
    && (r.damaged <==> r.validBytes < |bytes|)
  }

  // ---- records read back ------------------------------------------------------------------

  lemma RecordParts(e: Entry, rest: seq<byte>)
    ensures var p := EncEntry(e); var s := Record(e) + rest;
      |Record(e)| == 8 + |p| && s[..4] == LE(|p|, 4) && s[4..8] == LE(Checksum(p), 4) && s[8..] == p + rest
  {
    hide EncEntry, Checksum, LE;
    var p := EncEntry(e);
    ThreeParts(LE(|p|, 4), LE(Checksum(p), 4), p, rest);
  }

  lemma ThreeParts(a: seq<byte>, b: seq<byte>, p: seq<byte>, rest: seq<byte>)
    requires |a| == 4 == |b|
    ensures var s := a + b + p + rest; s[..4] == a && s[4..8] == b && s[8..] == p + rest
  {
  }

  lemma EntrySize(e: Entry)
    ensures |EncEntry(e)| >= 16
  {
  }

  /** What the payload of a record in front parses as. */
  function ReadPayload(p: seq<byte>): Option<(Entry, nat)> {
    match ParseEntry(p)
    case Err(_) => None
    case Ok((e, rest)) => if rest == [] then Some((e, 8 + |p|)) else None
  }

  lemma ReadsPayload(e: Entry, rest: seq<byte>)
    requires |EncEntry(e)| <= MAX_RECORD
    ensures ReadRecord(Record(e) + rest) == ReadPayload(EncEntry(e)) && |Record(e)| == 8 + |EncEntry(e)|
  {
    hide EncEntry, ParseEntry, Checksum, LE, FromLE, Record;
    var p, s := EncEntry(e), Record(e) + rest;
    RecordParts(e, rest);
    EntrySize(e);
    Widths();
    FromLEOfLE(|p|, 4);
    FromLEOfLE(Checksum(p), 4);
    ChecksumFits(p);
    assert s[8..8 + |p|] == p by { assert s[8..][..|p|] == p; }
  }

  lemma ChecksumFits(p: seq<byte>)
    ensures Checksum(p) < U32
  {
  }

  lemma LongRecord(e: Entry, rest: seq<byte>)
    requires |EncEntry(e)| > MAX_RECORD
    ensures ReadRecord(Record(e) + rest).Some? ==> ReadRecord(Record(e) + rest).value.1 < |Record(e)|
  {
    hide EncEntry, ParseEntry, Checksum, LE, FromLE;
  }

  /** A record reads back exactly when its operation is within the format's limits and it is not too long. */
  lemma RecordReads(e: Entry, rest: seq<byte>)
    requires EntryTyped(e)
    ensures ReadRecord(Record(e) + rest) == Some((e, |Record(e)|)) <==> OpFits(e.cmd.op) && |EncEntry(e)| <= MAX_RECORD
  {
    hide EncEntry, ParseEntry, EntryTyped, OpFits, ReadRecord, Record;
    if |EncEntry(e)| <= MAX_RECORD {
      ReadsPayload(e, rest);
      EntryReads(e, []);
      assert EncEntry(e) + [] == EncEntry(e);
    } else {
      LongRecord(e, rest);
    }
  }

  /** No proper prefix of a record reads as one. */
  lemma TornRecord(e: Entry, cut: nat)
    requires cut < |Record(e)| && |EncEntry(e)| <= MAX_RECORD
    ensures ReadRecord(Record(e)[..cut]) == None
  {
    hide EncEntry, ParseEntry, Checksum, LE;
    var p, s := EncEntry(e), Record(e)[..cut];
    if cut >= 8 {
      assert s[..4] == LE(|p|, 4);
      Widths();
      FromLEOfLE(|p|, 4);
    }
  }

  /** What reads as a record is the record of its entry. */
  lemma RecordFrom(s: seq<byte>)
    requires ReadRecord(s).Some?
    ensures var (e, n) := ReadRecord(s).value;
      s == Record(e) + s[n..] && n == |Record(e)| && EntryTyped(e) && OpFits(e.cmd.op) && |EncEntry(e)| <= MAX_RECORD
  {
    hide EncEntry, ParseEntry, EntryTyped, OpFits, Checksum, LE;
    var (e, n) := ReadRecord(s).value;
    var p := s[8..n];
    EntryFrom(p);
    assert EncEntry(e) + [] == EncEntry(e);
    LEOfFromLE(s[..4]);
    LEOfFromLE(s[4..8]);
    assert s == s[..4] + s[4..8] + s[8..n] + s[n..];
  }

  // ---- recovery of records --------------------------------------------------------------------

  /**
   Entries that may stand in a file: consecutive indices from `next`, terms not falling below `term`,
   each storable.
  */
  ghost predicate Chain(es: seq<Entry>, next: nat, term: nat) {
    |es| == 0 || (es[0].index == next && es[0].term >= term && Storable(es[0]) && Chain(es[1..], next + 1, es[0].term))
  }

  predicate Storable(e: Entry) { EntryTyped(e) && OpFits(e.cmd.op) && |EncEntry(e)| <= MAX_RECORD }

  /** How many of the records lie wholly within the first `cut` bytes. */
  function Whole(es: seq<Entry>, cut: nat): (k: nat)
    ensures k <= |es|
  {
    if |es| == 0 || cut < |Record(es[0])| then 0 else 1 + Whole(es[1..], cut - |Record(es[0])|)
  }

  lemma ReadsFront(e: Entry, rest: seq<byte>)
    requires Storable(e)
    ensures ReadRecord(Record(e) + rest) == Some((e, |Record(e)|)) && (Record(e) + rest)[|Record(e)|..] == rest
  {
    hide ReadRecord, Record;
    RecordReads(e, rest);
  }

  /** Whole records come back whatever follows them. */
  lemma {:induction false} RecoverKeepsPrefix(es: seq<Entry>, junk: seq<byte>, next: nat, term: nat)
    requires Chain(es, next, term)
    ensures es <= Recover(Records(es) + junk, next, term)
  {
    hide Storable, Record, ReadRecord;
    if |es| > 0 {
      ReadsFront(es[0], Records(es[1..]) + junk);
      assert Records(es) + junk == Record(es[0]) + (Records(es[1..]) + junk);
      RecoverKeepsPrefix(es[1..], junk, next + 1, es[0].term);
      assert es == [es[0]] + es[1..];
    }
  }

  /**
   On any byte prefix of a file of records, recovery returns exactly the entries wholly inside it,
   and the bytes it trusts end at the last record boundary.
  */
  lemma {:induction false} RecoverOfPrefix(es: seq<Entry>, cut: nat, next: nat, term: nat)
    requires Chain(es, next, term) && cut <= |Records(es)|
    ensures Recover(Records(es)[..cut], next, term) == es[..Whole(es, cut)]
    ensures |Records(es[..Whole(es, cut)])| <= cut
    ensures Whole(es, cut) < |es| ==> cut < |Records(es[..Whole(es, cut) + 1])|
  {
    hide Storable, Record, ReadRecord;
    var s := Records(es)[..cut];
    if |es| == 0 {
      NothingThere();
      assert s == [];
    } else if cut < |Record(es[0])| {
      assert s == Record(es[0])[..cut];
      Torn(es[0], cut);
      assert es[..1] == [es[0]];
      OneRecord(es[0]);
    } else {
      var cut' := cut - |Record(es[0])|;
      var k := Whole(es[1..], cut');
      RecoverOfPrefix(es[1..], cut', next + 1, es[0].term);
      assert s == Record(es[0]) + Records(es[1..])[..cut'];
      ReadsFront(es[0], Records(es[1..])[..cut']);
      assert es[..k + 1] == [es[0]] + es[1..][..k];
      assert es[..k + 1][0] == es[0] && es[..k + 1][1..] == es[1..][..k];
      if k < |es| - 1 { assert es[..k + 2][0] == es[0] && es[..k + 2][1..] == es[1..][..k + 1]; }
    }
  }

  lemma NothingThere()
    ensures ReadRecord([]) == None
  {
  }

  lemma OneRecord(e: Entry)
    ensures |Records([e])| == |Record(e)|
  {
    assert [e][1..] == [];
    assert Records([e][1..]) == [];
  }

  lemma Torn(e: Entry, cut: nat)
    requires Storable(e) && cut < |Record(e)|
    ensures ReadRecord(Record(e)[..cut]) == None
  {
    TornRecord(e, cut);
  }

  /** Every byte recovery trusts is a byte of the records of what it returns. */
  lemma {:induction false} RecoverFrom(s: seq<byte>, next: nat, term: nat)
    ensures Records(Recover(s, next, term)) <= s && Chain(Recover(s, next, term), next, term)
    decreases |s|
  {
    hide Storable, Record, ReadRecord;
    ReadSize(s);
    if ReadRecord(s).Some? {
      var (e, n) := ReadRecord(s).value;
      if e.index == next && e.term >= term {
        ReadStorable(s);
        RecoverFrom(s[n..], next + 1, e.term);
        var rest := Recover(s[n..], next + 1, e.term);
        assert ([e] + rest)[1..] == rest;
      }
    }
  }

  lemma ReadSize(s: seq<byte>)
    ensures ReadRecord(s).Some? ==> 8 < ReadRecord(s).value.1 <= |s|
  {
  }

  lemma ReadStorable(s: seq<byte>)
    requires ReadRecord(s).Some?
    ensures var (e, n) := ReadRecord(s).value; n <= |s| && s == Record(e) + s[n..] && n == |Record(e)| && Storable(e)
  {
    RecordFrom(s);
  }

  // ---- the recovery loop -------------------------------------------------------------------------

  method ReadEntry(payload: seq<byte>) returns (r: Option<Entry>)
    ensures r ==
      match ParseEntry(payload) case Err(_) => None case Ok((e, rest)) => if rest == [] then Some(e) else None
  {
    hide ParseEntry;
    var d := new Dec(payload);
    var got := GetEntry(d);
    match got {
      case Err(_) => return None;
      case Ok(e) =>
        var done := d.Finish();
        r := if done.Ok? then Some(e) else None;
    }
  }

  function LastTermOf(es: seq<Entry>): nat { if |es| == 0 then 0 else es[|es| - 1].term }

  function NextIndex(es: seq<Entry>, first: nat): nat { if |es| == 0 then first else es[|es| - 1].index + 1 }

  /** `es` and `offsets` have been read from the first `pos` bytes, and the rest is to be recovered from there. */
  ghost predicate ReadSoFar(bytes: seq<byte>, first: nat, es: seq<Entry>, offsets: seq<nat>, pos: nat) {
    && pos <= |bytes| && pos == |Records(es)|
    && Recover(bytes, first, 0) == es + Recover(bytes[pos..], NextIndex(es, first), LastTermOf(es))
    && |offsets| == |es| && (forall k :: 0 <= k < |offsets| ==> offsets[k] == |Records(es[..k])|)
  }

  lemma {:induction false} RecordsAppend(es: seq<Entry>, e: Entry)
    ensures Records(es + [e]) == Records(es) + Record(e)
  {
    hide Record;
    if |es| == 0 {
      OneRecordIs(e);
    } else {
      RecordsAppend(es[1..], e);
      assert (es + [e])[1..] == es[1..] + [e];
    }
  }

  lemma OneRecordIs(e: Entry)
    ensures Records([] + [e]) == Record(e)
  {
    assert [] + [e] == [e] && [e][1..] == [];
    assert Records([e][1..]) == [];
  }

  lemma ReadOneMore(bytes: seq<byte>, first: nat, es: seq<Entry>, offsets: seq<nat>, pos: nat, e: Entry, n: nat)
    requires ReadSoFar(bytes, first, es, offsets, pos) && ReadRecord(bytes[pos..]) == Some((e, n))
    requires e.index == NextIndex(es, first) && e.term >= LastTermOf(es)
    ensures ReadSoFar(bytes, first, es + [e], offsets + [pos], pos + n)
  {
    hide Record, ReadRecord, Storable;
    ReadSize(bytes[pos..]);
    ReadStorable(bytes[pos..]);
    RecordsAppend(es, e);
    assert bytes[pos..][n..] == bytes[pos + n..];
    forall k | 0 <= k < |es| + 1
      ensures (offsets + [pos])[k] == |Records((es + [e])[..k])| { assert (es + [e])[..k] == es[..k]; }
  }

  lemma ReadStops(bytes: seq<byte>, first: nat, es: seq<Entry>, offsets: seq<nat>, pos: nat)
    requires ReadSoFar(bytes, first, es, offsets, pos)
    requires Recover(bytes[pos..], NextIndex(es, first), LastTermOf(es)) == []
    ensures IsRecovery(bytes, first, RecoveredLog(es, offsets, pos, pos < |bytes|))
  {
    hide Recover;
  }

  /** Recovery as a loop; the first bad record ends it. */
  method RecoverLogFrom(bytes: seq<byte>, first: nat) returns (r: RecoveredLog)
    ensures IsRecovery(bytes, first, r)
  {
    hide ReadSoFar, ParseEntry, Crc, NumberOf, FromLE, IsRecovery, Records;
    var entries: seq<Entry>, offsets: seq<nat>, pos, damaged := [], [], 0, false;
    ReadStarts(bytes, first);
    while true
      invariant pos <= |bytes| && ReadSoFar(bytes, first, entries, offsets, pos) && !damaged
      decreases |bytes| - pos
    {
      if pos == |bytes| { break; }
      if pos + 8 > |bytes| {
        damaged := true;
        break;
      }
      assert bytes[pos..][..4] == bytes[pos..pos + 4] && bytes[pos..][4..8] == bytes[pos + 4..pos + 8];
      var len := FromLE(bytes[pos..pos + 4]);
      var crc := FromLE(bytes[pos + 4..pos + 8]);
      if len == 0 || len > MAX_RECORD || pos + 8 + len > |bytes| {
        damaged := true;
        break;
      }
      var payload := bytes[pos + 8..pos + 8 + len];
      assert bytes[pos..][8..8 + len] == payload;
      var sum := ComputeCrc(payload);
      if NumberOf(sum, 32) != crc {
        damaged := true;
        break;
      }
      var got := ReadEntry(payload);
      if got.None? {
        damaged := true;
        break;
      }
      var entry := got.value;
      var expected := if |entries| == 0 then first else entries[|entries| - 1].index + 1;
      if entry.index != expected || entry.term < (if |entries| == 0 then 0 else entries[|entries| - 1].term) {
        damaged := true;
        break;
      }
      ReadOneMore(bytes, first, entries, offsets, pos, entry, 8 + len);
      ReadSizes(bytes, first, entries + [entry], offsets + [pos], pos + 8 + len);
      entries, offsets := entries + [entry], offsets + [pos];
      pos := pos + 8 + len;
    }
    r := RecoveredLog(entries, offsets, pos, damaged);
    ReadStops(bytes, first, entries, offsets, pos);
  }

  lemma ReadStarts(bytes: seq<byte>, first: nat)
    ensures ReadSoFar(bytes, first, [], [], 0)
  {
    assert bytes[0..] == bytes;
  }

  lemma ReadSizes(bytes: seq<byte>, first: nat, es: seq<Entry>, offsets: seq<nat>, pos: nat)
    requires ReadSoFar(bytes, first, es, offsets, pos)
    ensures pos <= |bytes|
  {
  }

  // ---- what recovery promises -------------------------------------------------------------------------

  /**
   Recovering a file cut anywhere keeps the entries wholly inside it, and reports damage exactly when
   the cut is off a boundary.
  */
  lemma CutFileRecovery(es: seq<Entry>, cut: nat, r: RecoveredLog)
    requires Chain(es, 1, 0) && cut <= |Records(es)| && IsRecovery(Records(es)[..cut], 1, r)
    ensures r.entries == es[..Whole(es, cut)]
    ensures r.damaged <==> !exists k :: 0 <= k <= |es| && |Records(es[..k])| == cut
  {
    RecoverOfPrefix(es, cut, 1, 0);
    var w := Whole(es, cut);
    if !r.damaged { assert |Records(es[..w])| == cut; }
    if k :| 0 <= k <= |es| && |Records(es[..k])| == cut {
      if w < k { RecordsLonger(es, w + 1, k); }
      if k < w { RecordsLonger(es, k, w); }
    }
  }

  lemma {:induction false} RecordsLonger(es: seq<Entry>, i: nat, j: nat)
    requires i <= j <= |es|
    ensures |Records(es[..i])| <= |Records(es[..j])| && (i < j ==> |Records(es[..i])| < |Records(es[..j])|)
    decreases j - i
  {
    hide Record, Records;
    if i < j {
      RecordsLonger(es, i, j - 1);
      assert es[..j] == es[..j - 1] + [es[j - 1]];
      RecordsAppend(es[..j - 1], es[j - 1]);
      RecordSize(es[j - 1]);
    }
  }

  lemma RecordSize(e: Entry)
    ensures |Record(e)| >= 8
  {
  }

  /**
   Whatever the bytes are, recovery's entries are the records of the bytes it trusts, in index order
   and term order.
  */
  lemma TrustedBytesAreRecords(bytes: seq<byte>, first: nat, r: RecoveredLog)
    requires IsRecovery(bytes, first, r)
    ensures bytes[..r.validBytes] == Records(r.entries) && Chain(r.entries, first, 0)
  {
    RecoverFrom(bytes, first, 0);
  }
}
