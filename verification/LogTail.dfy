/**
 What a crash leaves of the end of the log file. A cut that is lost under a rewrite that lands can
 bring back a record the node had cut. While the node only appends, what comes back is a prefix of
 its log, unless a record whose end is a hole reads as another record.
*/
module LogTail {
  import opened Types
  import opened RaftSpec
  import opened Codec
  import opened EntryCodec
  import opened LogFile
  import opened Disk
  import opened Durability

  // ---- a stale tail ----------------------------------------------------------------------

  /** Records that follow a slot region of the right size. */
  lemma RegionOf(slots: seq<byte>, bytes: seq<byte>)
    requires |slots| == LOG_REGION && |bytes| > 0
    ensures LogRegion(slots + bytes) == bytes
  {
  }

  lemma TailKept(slots: seq<byte>, a: seq<byte>, x: seq<byte>, x': seq<byte>, y: seq<byte>)
    requires |x| == |x'|
    ensures Applied(slots + (a + (x + y)), Data(|slots| + |a|, x')) == slots + (a + (x' + y))
  {
    var buf := slots + (a + (x + y));
    assert buf[..|slots| + |a|] == slots + a;
    assert buf[|slots| + |a| + |x|..] == y;
  }

  lemma RecordsOfTwo(a: seq<Entry>, x: Entry, y: Entry)
    ensures Records(a + [x, y]) == Records(a) + (Record(x) + Record(y))
  {
    hide Record;
    RecordsConcat(a, [x, y]);
    RecordsAppend([x], y);
    OneRecordIs(x);
    assert [x] + [y] == [x, y] && [] + [x] == [x];
  }

  function LastOr(es: seq<Entry>, term: nat): nat { if |es| == 0 then term else es[|es| - 1].term }

  lemma {:induction false} ChainSplit(a: seq<Entry>, b: seq<Entry>, next: nat, term: nat)
    ensures Chain(a + b, next, term) <==> Chain(a, next, term) && Chain(b, next + |a|, LastOr(a, term))
  {
    hide Storable;
    if |a| == 0 {
      assert a + b == b;
    } else {
      ChainSplit(a[1..], b, next + 1, a[0].term);
      assert (a + b)[1..] == a[1..] + b;
    }
  }

  lemma RecoverOne(e: Entry, rest: seq<byte>, next: nat, term: nat)
    requires Storable(e) && e.index == next && e.term >= term
    ensures Recover(Record(e) + rest, next, term) == [e] + Recover(rest, next + 1, e.term)
  {
    hide Storable, Record, ReadRecord;
    ReadsFront(e, rest);
  }

  /** Whole records come back, and recovery goes on behind them. */
  lemma {:induction false} RecoverAfter(es: seq<Entry>, rest: seq<byte>, next: nat, term: nat)
    requires Chain(es, next, term)
    ensures Recover(Records(es) + rest, next, term) == es + Recover(rest, next + |es|, LastOr(es, term))
  {
    hide Storable, Record, Recover;
    if |es| == 0 {
      assert Records(es) + rest == rest;
    } else {
      RecoverOne(es[0], Records(es[1..]) + rest, next, term);
      assert Records(es) + rest == Record(es[0]) + (Records(es[1..]) + rest);
      RecoverAfter(es[1..], rest, next + 1, es[0].term);
      assert es == [es[0]] + es[1..];
    }
  }

  /**
   A lost truncation under a landed rewrite: the record after the rewritten one is still there, and
   comes back with the log, though the node had cut it, exactly when its term is not below the new
   record's.
  */
  lemma StaleTailComesBack(f: File, slots: seq<byte>, a: seq<Entry>, x: Entry, x': Entry, y: Entry)
    returns (img: seq<byte>)
    requires |slots| == LOG_REGION && f.durable == slots + Records(a + [x, y])
    requires |Record(x')| == |Record(x)| && Chain(a + [x, y], 1, 0) && Chain(a + [x'], 1, 0)
    requires f.pending == [SetLen(LOG_REGION + |Records(a)|), Data(LOG_REGION + |Records(a)|, Record(x'))]
    ensures CrashImage(f, img) && img == Resolve(f.durable, f.pending, [Lost, Landed])
    ensures Recover(LogRegion(img), 1, 0) == if x'.term <= y.term then a + [x', y] else a + [x']
  {
    hide Record, Recover, Applied, Chain;
    var fates := [Lost, Landed];
    img := Resolve(f.durable, f.pending, fates);
    assert f.pending[..1] == [f.pending[0]] && fates[..1] == [Lost];
    assert f.pending[..1][..0] == [] && fates[..1][..0] == [];
    assert Resolve(f.durable, f.pending[..1], fates[..1]) == f.durable;
    RecordsOfTwo(a, x, y);
    RecordsOfTwo(a, x', y);
    TailKept(slots, Records(a), Record(x), Record(x'), Record(y));
    RecordSize(x');
    RegionOf(slots, Records(a + [x', y]));
    assert img == slots + Records(a + [x', y]);
    AfterRewrite(a, x, x', y);
  }

  lemma AfterRewrite(a: seq<Entry>, x: Entry, x': Entry, y: Entry)
    requires Chain(a + [x, y], 1, 0) && Chain(a + [x'], 1, 0)
    ensures Recover(Records(a + [x', y]), 1, 0) == if x'.term <= y.term then a + [x', y] else a + [x']
  {
    hide Record, ReadRecord, Storable, Records;
    assert a + [x, y] == (a + [x]) + [y];
    ChainSplit(a + [x], [y], 1, 0);
    RecordsAppend(a + [x'], y);
    assert (a + [x']) + [y] == a + [x', y];
    RecoverAfter(a + [x'], Record(y), 1, 0);
    ReadsFront(y, []);
    assert Record(y) + [] == Record(y);
    NothingThere();
  }

  // ---- appends only ------------------------------------------------------------------------

  /** The entries of one write, and how many of its bytes are in the file. */
  datatype Seg = Seg(es: seq<Entry>, keep: nat)

  function Flat(segs: seq<Seg>): seq<Entry> {
    if |segs| == 0 then [] else segs[0].es + Flat(segs[1..])
  }

  /** Where the write of segment `i` begins. */
  function At(segs: seq<Seg>, i: nat): nat
    requires i <= |segs|
  {
    if i == 0 then 0 else |Records(segs[0].es)| + At(segs[1..], i - 1)
  }

  predicate Full(s: Seg) { s.keep >= |Records(s.es)| }

  /** The first bytes of a segment, the rest a hole. */
  function Holed(bytes: seq<byte>, keep: nat): (r: seq<byte>)
    ensures |r| == |bytes|
  {
    var k := Min(keep, |bytes|);
    bytes[..k] + Zeros(|bytes| - k)
  }

  /** The log region with so much of each segment in it; the file ends with the last byte written. */
  function Laid(segs: seq<Seg>): seq<byte> {
    if |segs| == 0 then []
    else
      var bytes, tail := Records(segs[0].es), Laid(segs[1..]);
      if tail == [] then bytes[..Min(segs[0].keep, |bytes|)] else Holed(bytes, segs[0].keep) + tail
  }

  function Kept(segs: seq<Seg>, i: nat, k: nat): (r: seq<Seg>)
    requires i < |segs|
    ensures |r| == |segs| && forall j :: 0 <= j < |segs| ==> r[j].es == segs[j].es
  {
    segs[i := segs[i].(keep := Max(segs[i].keep, k))]
  }

  /** A write behind the end of `front` does not touch it. */
  lemma AppliedBehind(front: seq<byte>, tail: seq<byte>, at: nat, bytes: seq<byte>)
    ensures Applied(front + tail, Data(|front| + at, bytes)) == front + Applied(tail, Data(at, bytes))
  {
    hide Resized;
    var end := at + |bytes|;
    if |tail| < end { ResizedBehind(front, tail, end); }
    var room := if |tail| < end then Resized(tail, end) else tail;
    var all := if |front + tail| < |front| + end then Resized(front + tail, |front| + end) else front + tail;
    assert all == front + room;
    assert (front + room)[..|front| + at] == front + room[..at];
    assert (front + room)[|front| + end..] == room[end..];
  }

  lemma ResizedBehind(front: seq<byte>, tail: seq<byte>, n: nat)
    requires |tail| < n
    ensures Resized(front + tail, |front| + n) == front + Resized(tail, n)
  {
  }

  lemma AppliedOverHole(front: seq<byte>, n: nat, at: nat, bytes: seq<byte>)
    requires |front| <= n && |bytes| > 0
    ensures Applied(front, Data(n + at, bytes)) == front + Zeros(n - |front|) + Applied([], Data(at, bytes))
  {
  }

  lemma AppliedToFront(bytes: seq<byte>, m: nat, tail: seq<byte>, k: nat)
    requires 0 < k <= |bytes|
    ensures Applied(bytes[..Min(m, |bytes|)], Data(0, bytes[..k])) == bytes[..Min(Max(m, k), |bytes|)]
    ensures Applied(Holed(bytes, m) + tail, Data(0, bytes[..k])) == Holed(bytes, Max(m, k)) + tail
  {
    hide Applied, Holed;
    FrontWritten(Holed(bytes, m), tail, bytes[..k]);
    FilledHole(bytes, m, k);
    FilledFront(bytes, Min(m, |bytes|), k);
  }

  lemma FrontWritten(front: seq<byte>, tail: seq<byte>, part: seq<byte>)
    requires |part| <= |front|
    ensures Applied(front + tail, Data(0, part)) == part + front[|part|..] + tail
  {
    assert (front + tail)[|part|..] == front[|part|..] + tail;
  }

  lemma FilledHole(bytes: seq<byte>, m: nat, k: nat)
    requires k <= |bytes|
    ensures bytes[..k] + Holed(bytes, m)[k..] == Holed(bytes, Max(m, k))
  {
  }

  lemma FilledFront(bytes: seq<byte>, m: nat, k: nat)
    requires 0 < k <= |bytes| && m <= |bytes|
    ensures Applied(bytes[..m], Data(0, bytes[..k])) == bytes[..Max(m, k)]
  {
    hide Applied;
    if m < k {
      WrittenOver(bytes[..m], bytes[..k]);
    } else {
      FrontWritten(bytes[..m], [], bytes[..k]);
      assert bytes[..m] + [] == bytes[..m];
      assert bytes[..k] + bytes[..m][k..] + [] == bytes[..m];
    }
  }

  lemma WrittenOver(buf: seq<byte>, bytes: seq<byte>)
    requires |buf| < |bytes|
    ensures Applied(buf, Data(0, bytes)) == bytes
  {
    assert Resized(buf, |bytes|)[|bytes|..] == [];
  }

  /** Writing the first bytes of a segment at its place keeps the file laid out. */
  lemma {:induction false} LaidWrite(segs: seq<Seg>, i: nat, k: nat)
    requires i < |segs| && 0 < k <= |Records(segs[i].es)|
    ensures Applied(Laid(segs), Data(At(segs, i), Records(segs[i].es)[..k])) == Laid(Kept(segs, i, k)) != []
    decreases i
  {
    hide Records, Applied, Holed;
    var bytes, tail := Records(segs[0].es), Laid(segs[1..]);
    var segs' := Kept(segs, i, k);
    if i == 0 {
      assert segs'[1..] == segs[1..];
      AppliedToFront(bytes, segs[0].keep, tail, k);
    } else {
      LaidWrite(segs[1..], i - 1, k);
      assert segs'[1..] == Kept(segs[1..], i - 1, k);
      var part := Records(segs[i].es)[..k];
      if tail == [] {
        HoledIs(bytes, segs[0].keep);
        AppliedOverHole(bytes[..Min(segs[0].keep, |bytes|)], |bytes|, At(segs[1..], i - 1), part);
      } else {
        AppliedBehind(Holed(bytes, segs[0].keep), tail, At(segs[1..], i - 1), part);
      }
    }
  }

  lemma HoledIs(bytes: seq<byte>, m: nat)
    ensures var k := Min(m, |bytes|); Holed(bytes, m) == bytes[..k] + Zeros(|bytes| - k) && |bytes[..k]| == k
  {
  }

  // ---- the file of a node that only appends ---------------------------------------------------

  predicate SlotWrite(p: WriteKind) { p.Data? && p.offset + |p.bytes| <= LOG_REGION }

  /** The write of segment `i`. */
  function SegWrite(segs: seq<Seg>, i: nat): WriteKind
    requires i < |segs|
  {
    Data(LOG_REGION + At(segs, i), Records(segs[i].es))
  }

  ghost predicate Pending(f: File, segs: seq<Seg>, i: nat)
    requires i < |segs|
  {
    SegWrite(segs, i) in f.pending
  }

  /** Each segment is durable, on its way, or was refused by the disk; nothing else is in the file or on its way. */
  ghost predicate AppendedFile(f: File, segs: seq<Seg>) {
    && LogRegion(f.durable) == Laid(segs)
    && (forall s :: s in segs ==> s.es != [] && (s.keep == 0 || Full(s)))
    && (forall p :: p in f.pending ==> SlotWrite(p) || exists i :: 0 <= i < |segs| && p == SegWrite(segs, i))
  }

  lemma RegionOfSlot(buf: seq<byte>, p: WriteKind)
    requires SlotWrite(p)
    ensures LogRegion(Applied(buf, p)) == LogRegion(buf)
  {
    var r := Applied(buf, p);
    if |buf| > LOG_REGION {
      assert |r| == |buf|;
      forall k | LOG_REGION <= k < |buf| ensures r[k] == buf[k] {}
      assert r[LOG_REGION..] == buf[LOG_REGION..];
    }
  }

  lemma RegionOfData(buf: seq<byte>, at: nat, bytes: seq<byte>)
    requires |bytes| > 0
    ensures LogRegion(Applied(buf, Data(LOG_REGION + at, bytes))) == Applied(LogRegion(buf), Data(at, bytes))
  {
    var r := Applied(buf, Data(LOG_REGION + at, bytes));
    if |buf| > LOG_REGION {
      assert buf == buf[..LOG_REGION] + buf[LOG_REGION..];
      AppliedBehind(buf[..LOG_REGION], buf[LOG_REGION..], at, bytes);
    } else {
      AppliedOverHole(buf, LOG_REGION, at, bytes);
    }
  }

  lemma {:induction false} SegSize(segs: seq<Seg>, i: nat)
    requires i < |segs| && segs[i].es != []
    ensures |Records(segs[i].es)| > 0
  {
    RecordSize(segs[i].es[0]);
  }

  function SetOf(ws: seq<WriteKind>): (s: set<WriteKind>)
    ensures forall p :: p in s <==> p in ws
  {
    set p | p in ws
  }

  // ---- what one write leaves -----------------------------------------------------------------------

  /** The same segments, with more of those on their way. */
  ghost predicate More(segs: seq<Seg>, segs': seq<Seg>, ws: set<WriteKind>) {
    |segs'| == |segs| && forall i :: 0 <= i < |segs| ==>
      && segs'[i].es == segs[i].es && segs'[i].keep >= segs[i].keep
      && (segs'[i].keep == segs[i].keep || SegWrite(segs, i) in ws)
  }

  lemma {:induction false} AtSame(segs: seq<Seg>, segs': seq<Seg>, i: nat)
    requires |segs'| == |segs| && i <= |segs| && forall j :: 0 <= j < |segs| ==> segs'[j].es == segs[j].es
    ensures At(segs', i) == At(segs, i)
    decreases i
  {
    hide Records;
    if i > 0 { AtSame(segs[1..], segs'[1..], i - 1); }
  }

  lemma SegWriteSame(segs: seq<Seg>, segs': seq<Seg>, ws: set<WriteKind>, i: nat)
    requires More(segs, segs', ws) && i < |segs|
    ensures SegWrite(segs', i) == SegWrite(segs, i)
  {
    AtSame(segs, segs', i);
  }

  /** However a write fares, the region stays laid out, with some more of that write's segment. */
  lemma ResolveSeg(buf: seq<byte>, segs: seq<Seg>, i: nat, fate: Fate) returns (segs': seq<Seg>)
    requires LogRegion(buf) == Laid(segs) && i < |segs| && segs[i].es != []
    ensures LogRegion(Resolve1(buf, SegWrite(segs, i), fate)) == Laid(segs') && More(segs, segs', {SegWrite(segs, i)})
    ensures fate.Landed? ==> segs' == Kept(segs, i, |Records(segs[i].es)|)
    ensures fate.Torn? && 0 < fate.keep <= |Records(segs[i].es)| ==> segs' == Kept(segs, i, fate.keep)
  {
    hide Laid, Applied, LogRegion, Records, Kept;
    var bytes := Records(segs[i].es);
    SegSize(segs, i);
    var k := match fate case Lost => 0 case Landed => |bytes| case Torn(keep) => if keep <= |bytes| then keep else 0;
    assert bytes[..|bytes|] == bytes;
    if k == 0 {
      segs' := segs;
    } else {
      segs' := Kept(segs, i, k);
      LaidWrite(segs, i, k);
      RegionOfData(buf, At(segs, i), bytes[..k]);
      KeptIs(segs, i, k);
    }
  }

  lemma KeptIs(segs: seq<Seg>, i: nat, k: nat)
    requires i < |segs|
    ensures Kept(segs, i, k)[i].keep >= segs[i].keep
    ensures forall j :: 0 <= j < |segs| && j != i ==> Kept(segs, i, k)[j] == segs[j]
  {
  }

  lemma ResolveSlot(buf: seq<byte>, p: WriteKind, fate: Fate)
    requires SlotWrite(p)
    ensures LogRegion(Resolve1(buf, p, fate)) == LogRegion(buf)
  {
    hide Applied, LogRegion;
    RegionOfSlot(buf, p);
    if fate.Torn? && 0 < fate.keep <= |p.bytes| { RegionOfSlot(buf, Data(p.offset, p.bytes[..fate.keep])); }
  }

  lemma MoreOf(a: seq<Seg>, b: seq<Seg>, c: seq<Seg>, ws: set<WriteKind>, p: WriteKind)
    requires More(a, b, ws) && More(b, c, {p}) && p in ws
    ensures More(a, c, ws)
  {
    hide SegWrite;
    forall i | 0 <= i < |a|
      ensures c[i].es == a[i].es && c[i].keep >= a[i].keep && (c[i].keep == a[i].keep || SegWrite(a, i) in ws)
    {
      SegWriteSame(a, b, ws, i);
    }
  }

  /** Whatever a crash does to the unsynced writes, the region is laid out, with more only of segments on their way. */
  lemma {:induction false} ResolveLaid(buf: seq<byte>, segs: seq<Seg>, ws: seq<WriteKind>, fates: seq<Fate>)
    returns (segs': seq<Seg>)
    requires |ws| == |fates| && LogRegion(buf) == Laid(segs) && forall s :: s in segs ==> s.es != []
    requires forall p :: p in ws ==> SlotWrite(p) || exists i :: 0 <= i < |segs| && p == SegWrite(segs, i)
    ensures LogRegion(Resolve(buf, ws, fates)) == Laid(segs') && More(segs, segs', SetOf(ws))
    decreases |ws|
  {
    hide Laid, Resolve1, LogRegion, SegWrite, SlotWrite;
    if |ws| == 0 {
      segs' := segs;
    } else {
      var n := |ws| - 1;
      assert ws[n] in ws;
      forall p | p in ws[..n] ensures p in ws {}
      var mid := ResolveLaid(buf, segs, ws[..n], fates[..n]);
      MoreWrites(segs, mid, SetOf(ws[..n]), SetOf(ws));
      var b := Resolve(buf, ws[..n], fates[..n]);
      if SlotWrite(ws[n]) {
        ResolveSlot(b, ws[n], fates[n]);
        segs' := mid;
      } else {
        var i :| 0 <= i < |segs| && ws[n] == SegWrite(segs, i);
        SegWriteSame(segs, mid, SetOf(ws), i);
        assert mid[i] in mid && segs[i] in segs;
        segs' := ResolveSeg(b, mid, i, fates[n]);
        MoreOf(segs, mid, segs', SetOf(ws), ws[n]);
      }
    }
  }

  lemma MoreWrites(segs: seq<Seg>, segs': seq<Seg>, ws: set<WriteKind>, ws': set<WriteKind>)
    requires More(segs, segs', ws) && ws <= ws'
    ensures More(segs, segs', ws')
  {
  }

  // ---- records with holes ---------------------------------------------------------------------

  /** With its end a hole, the record of `e` reads as another entry that recovery would take, behind one of `term`. */
  ghost predicate Misread(e: Entry, term: nat, c: nat) {
    var s := Holed(Record(e), c);
    && s != Record(e) && ReadRecord(s).Some?
    && ReadRecord(s).value.0.index == e.index && ReadRecord(s).value.0.term >= term
  }

  /** No record of the segment is misread, whatever part of it is a hole. */
  ghost predicate SegShows(es: seq<Entry>, term: nat) {
    forall j: nat, c: nat :: j < |es| ==> !Misread(es[j], LastOr(es[..j], term), c)
  }

  lemma {:induction false} ZerosAreZero(n: nat)
    ensures FromLE(Zeros(n)) == 0
  {
    if n > 0 {
      assert Zeros(n)[1..] == Zeros(n - 1);
      ZerosAreZero(n - 1);
    }
  }

  /** A hole where a record should begin ends recovery. */
  lemma HoleEnds(n: nat, rest: seq<byte>, next: nat, term: nat)
    requires n >= 4
    ensures Recover(Zeros(n) + rest, next, term) == []
  {
    hide FromLE;
    var s := Zeros(n) + rest;
    assert s[..4] == Zeros(4);
    ZerosAreZero(4);
  }

  /** The index is in the bytes 16 to 24 of a record. */
  lemma IndexPlace(e: Entry, rest: seq<byte>)
    requires EntryTyped(e)
    ensures var s := Record(e) + rest; |s| >= 24 && FromLE(s[16..24]) == e.index
  {
    hide LE, FromLE, Checksum, EncCommand, CommandTyped;
    var s := Record(e) + rest;
    assert s[16..24] == LE(e.index, 8);
    Widths();
    FromLEOfLE(e.index, 8);
  }

  lemma LongEnough(e: Entry)
    ensures |Record(e)| >= 24
  {
    hide Checksum;
    EntrySize(e);
  }

  /** A record torn inside its length reads as nothing that recovery takes: the index is in the hole. */
  lemma TornLength(e: Entry, c: nat, rest: seq<byte>, next: nat, term: nat)
    requires c < 4 && next > 0
    ensures Recover(Holed(Record(e), c) + rest, next, term) == []
  {
    hide ReadRecord, Record, FromLE, EntryTyped;
    LongEnough(e);
    var s := Holed(Record(e), c) + rest;
    if ReadRecord(s).Some? {
      var (x, n) := ReadRecord(s).value;
      RecordFrom(s);
      IndexPlace(x, s[n..]);
      assert s[16..24] == Zeros(8);
      ZerosAreZero(8);
    }
  }

  /** With its length in the file, what a record reads as depends on nothing behind it. */
  lemma LengthKnown(e: Entry, c: nat, rest: seq<byte>)
    requires c >= 4 && |EncEntry(e)| <= MAX_RECORD
    ensures ReadRecord(Holed(Record(e), c) + rest) == ReadRecord(Holed(Record(e), c))
  {
    hide EncEntry, Checksum, LE, FromLE, ParseEntry;
    LongEnough(e);
    var s, h := Holed(Record(e), c) + rest, Holed(Record(e), c);
    var p := EncEntry(e);
    RecordParts(e, []);
    assert Record(e) + [] == Record(e);
    assert s[..4] == LE(|p|, 4) && h[..4] == LE(|p|, 4);
    Widths();
    FromLEOfLE(|p|, 4);
    assert s[4..8] == h[4..8] && s[8..8 + |p|] == h[8..8 + |p|];
  }

  /** A record with a hole ends recovery, unless the hole is where it has zeros anyway. */
  lemma HoledEnds(e: Entry, c: nat, rest: seq<byte>, next: nat, term: nat)
    requires Storable(e) && e.index == next > 0 && Holed(Record(e), c) != Record(e) && !Misread(e, term, c)
    ensures Recover(Holed(Record(e), c) + rest, next, term) == []
  {
    hide ReadRecord, Record;
    if c < 4 { TornLength(e, c, rest, next, term); } else { LengthKnown(e, c, rest); }
  }

  lemma HoledSplit(a: seq<byte>, b: seq<byte>, keep: nat)
    ensures Holed(a + b, keep) == Holed(a, keep) + Holed(b, if keep <= |a| then 0 else keep - |a|)
    ensures keep >= |a| ==> Holed(a, keep) == a
  {
  }

  lemma AllHole(bytes: seq<byte>)
    ensures Holed(bytes, 0) == Zeros(|bytes|)
  {
  }

  /** A torn segment with more behind it gives back some of its entries and ends recovery. */
  lemma {:induction false} TornSegment(es: seq<Entry>, keep: nat, rest: seq<byte>, next: nat, term: nat)
    returns (k: nat)
    requires Chain(es, next, term) && next > 0 && SegShows(es, term) && Holed(Records(es), keep) != Records(es)
    ensures k <= |es| && Recover(Holed(Records(es), keep) + rest, next, term) == es[..k]
    decreases |es|
  {
    hide Storable, Record, Recover, Misread, Holed;
    var r, more := Record(es[0]), Records(es[1..]);
    HoledSplit(r, more, keep);
    var keep' := if keep <= |r| then 0 else keep - |r|;
    assert Holed(Records(es), keep) + rest == Holed(r, keep) + (Holed(more, keep') + rest);
    if Holed(r, keep) == r {
      RecoverOne(es[0], Holed(more, keep') + rest, next, term);
      ShowsRest(es, term);
      k := TornSegment(es[1..], keep', rest, next + 1, es[0].term);
      assert es[..k + 1] == [es[0]] + es[1..][..k];
      k := k + 1;
    } else {
      assert es[..0] == [];
      assert !Misread(es[0], LastOr(es[..0], term), keep);
      HoledEnds(es[0], keep, Holed(more, keep') + rest, next, term);
      k := 0;
    }
  }

  lemma ShowsRest(es: seq<Entry>, term: nat)
    requires |es| > 0 && SegShows(es, term)
    ensures SegShows(es[1..], es[0].term)
  {
    hide Misread;
    forall j: nat, c: nat | j < |es[1..]| ensures !Misread(es[1..][j], LastOr(es[1..][..j], es[0].term), c) {
      assert !Misread(es[j + 1], LastOr(es[..j + 1], term), c);
      if j > 0 { assert es[1..][..j][j - 1] == es[..j + 1][j]; }
    }
  }

  // ---- what comes back is a prefix -----------------------------------------------------------------

  /** Up to the first segment of which nothing is there, one with a part missing and another write behind it shows. */
  ghost predicate AllShow(segs: seq<Seg>, term: nat) {
    |segs| == 0 || segs[0].keep == 0 || Laid(segs[1..]) == []
      || ((Full(segs[0]) || SegShows(segs[0].es, term)) && AllShow(segs[1..], LastOr(segs[0].es, term)))
  }

  /** Recovery of a laid out region returns a prefix of its entries. */
  lemma {:induction false} LaidRecovers(segs: seq<Seg>, next: nat, term: nat) returns (k: nat)
    requires Chain(Flat(segs), next, term) && AllShow(segs, term) && next > 0 && forall s :: s in segs ==> s.es != []
    ensures k <= |Flat(segs)| && Recover(Laid(segs), next, term) == Flat(segs)[..k]
    decreases |segs|
  {
    hide Recover, Chain, Records, Holed, SegShows, Whole;
    if |segs| == 0 {
      NothingRecovered(next, term);
      k := 0;
    } else {
      var s, tail := segs[0], Laid(segs[1..]);
      var bytes := Records(s.es);
      assert s in segs;
      ChainSplit(s.es, Flat(segs[1..]), next, term);
      if tail == [] {
        RecoverOfPrefix(s.es, Min(s.keep, |bytes|), next, term);
        k := Whole(s.es, Min(s.keep, |bytes|));
        assert Flat(segs)[..k] == s.es[..k];
      } else if s.keep == 0 {
        NonePartRecovers(segs, next, term);
        k := 0;
      } else if Holed(bytes, s.keep) == bytes {
        forall x | x in segs[1..] ensures x in segs {}
        AllShowRest(segs, term);
        k := LaidRecovers(segs[1..], next + |s.es|, LastOr(s.es, term));
        RecoverAfter(s.es, tail, next, term);
        assert Flat(segs)[..|s.es| + k] == s.es + Flat(segs[1..])[..k];
        k := |s.es| + k;
      } else {
        k := PartRecovers(segs, next, term);
      }
    }
  }

  lemma NothingRecovered(next: nat, term: nat)
    ensures Recover([], next, term) == []
  {
  }

  lemma AllShowRest(segs: seq<Seg>, term: nat)
    requires |segs| > 0 && AllShow(segs, term) && segs[0].keep > 0 && Laid(segs[1..]) != []
    ensures AllShow(segs[1..], LastOr(segs[0].es, term))
  {
  }

  lemma NonePartRecovers(segs: seq<Seg>, next: nat, term: nat)
    requires |segs| > 0 && segs[0].es != [] && Laid(segs[1..]) != [] && segs[0].keep == 0
    ensures Recover(Laid(segs), next, term) == []
  {
    hide Recover, Records, Holed;
    AllHole(Records(segs[0].es));
    RecordsLong(segs[0].es);
    HoleEnds(|Records(segs[0].es)|, Laid(segs[1..]), next, term);
  }

  lemma PartRecovers(segs: seq<Seg>, next: nat, term: nat) returns (k: nat)
    requires |segs| > 0 && segs[0].keep > 0 && Laid(segs[1..]) != [] && AllShow(segs, term) && next > 0
    requires Chain(segs[0].es, next, term) && Holed(Records(segs[0].es), segs[0].keep) != Records(segs[0].es)
    ensures k <= |Flat(segs)| && Recover(Laid(segs), next, term) == Flat(segs)[..k]
  {
    hide Recover, Chain, Records, Holed, SegShows;
    var s := segs[0];
    FullIsWhole(Records(s.es), s.keep);
    k := TornSegment(s.es, s.keep, Laid(segs[1..]), next, term);
    assert Flat(segs)[..k] == s.es[..k];
  }

  lemma FullIsWhole(bytes: seq<byte>, keep: nat)
    ensures keep >= |bytes| ==> Holed(bytes, keep) == bytes
  {
  }

  lemma RecordsLong(es: seq<Entry>)
    requires es != []
    ensures |Records(es)| >= 24
  {
    hide Record;
    LongEnough(es[0]);
  }

  lemma {:induction false} FlatAppend(segs: seq<Seg>, i: nat)
    requires i < |segs|
    ensures Flat(segs[..i + 1]) == Flat(segs[..i]) + segs[i].es
    decreases i
  {
    if i == 0 {
      assert segs[..1] == [segs[0]] && segs[..0] == [];
      assert Flat([segs[0]][1..]) == [];
    } else {
      FlatAppend(segs[1..], i - 1);
      assert segs[..i + 1][1..] == segs[1..][..i] && segs[..i][1..] == segs[1..][..i - 1];
    }
  }

  /** The term of the entry before segment `i`. */
  function TermBefore(segs: seq<Seg>, i: nat): nat
    requires i <= |segs|
  {
    LastOr(Flat(segs[..i]), 0)
  }

  lemma TermNext(segs: seq<Seg>, i: nat)
    requires i < |segs|
    ensures TermBefore(segs, i + 1) == LastOr(segs[i].es, TermBefore(segs, i))
  {
    hide Flat;
    FlatAppend(segs, i);
  }

  /** The disk has the segment or has taken its write. */
  ghost predicate Taken(f: File, segs: seq<Seg>, i: nat)
    requires i < |segs|
  {
    Full(segs[i]) || Pending(f, segs, i)
  }

  /**
   The segments whose write may be torn under a later one that lands, where recovery gets to them: behind a
   write the disk refused nothing comes back anyway.
  */
  ghost predicate AtRisk(f: File, segs: seq<Seg>, i: nat)
    requires i < |segs|
  {
    && segs[i].keep == 0 && Pending(f, segs, i)
    && (forall j :: 0 <= j < i ==> Taken(f, segs, j))
    && exists j :: i < j < |segs| && Taken(f, segs, j)
  }

  /** No record of a segment at risk is misread. */
  ghost predicate RisksShow(f: File, segs: seq<Seg>) {
    forall i :: 0 <= i < |segs| && AtRisk(f, segs, i) ==> SegShows(segs[i].es, TermBefore(segs, i))
  }

  lemma {:induction false} FlatSame(segs: seq<Seg>, segs': seq<Seg>)
    requires |segs'| == |segs| && forall j :: 0 <= j < |segs| ==> segs'[j].es == segs[j].es
    ensures Flat(segs') == Flat(segs)
    decreases |segs|
  {
    if |segs| > 0 { FlatSame(segs[1..], segs'[1..]); }
  }

  lemma TermSame(segs: seq<Seg>, segs': seq<Seg>, i: nat)
    requires |segs'| == |segs| && i <= |segs| && forall j :: 0 <= j < |segs| ==> segs'[j].es == segs[j].es
    ensures TermBefore(segs', i) == TermBefore(segs, i)
  {
    FlatSame(segs[..i], segs'[..i]);
  }

  lemma {:induction false} MoreShow(f: File, segs: seq<Seg>, segs': seq<Seg>, i: nat)
    requires AppendedFile(f, segs) && RisksShow(f, segs) && More(segs, segs', SetOf(f.pending)) && i <= |segs|
    requires forall j :: 0 <= j < i ==> Taken(f, segs, j)
    ensures AllShow(segs'[i..], TermBefore(segs', i))
    decreases |segs| - i
  {
    hide SegShows, AppendedFile, TermBefore, SegWrite, Laid, Taken, Full, RisksShow;
    if i < |segs| && segs'[i].keep > 0 && Laid(segs'[i + 1..]) != [] {
      TakenIf(f, segs, segs', i);
      MoreShow(f, segs, segs', i + 1);
      TermNext(segs', i);
      TermSame(segs, segs', i);
      assert segs'[i..][1..] == segs'[i + 1..];
      var k := LaidHas(segs'[i + 1..]);
      TakenIf(f, segs, segs', i + 1 + k);
      OneShows(f, segs, segs', i);
    } else if i < |segs| {
      assert segs'[i..][1..] == segs'[i + 1..] && segs'[i..][0] == segs'[i];
    }
  }

  lemma {:induction false} LaidHas(segs: seq<Seg>) returns (k: nat)
    requires Laid(segs) != []
    ensures k < |segs| && segs[k].keep > 0
  {
    hide Records, Holed;
    if segs[0].keep > 0 {
      k := 0;
    } else {
      k := LaidHas(segs[1..]);
      k := k + 1;
    }
  }

  lemma TakenIf(f: File, segs: seq<Seg>, segs': seq<Seg>, i: nat)
    requires AppendedFile(f, segs) && More(segs, segs', SetOf(f.pending)) && i < |segs| && segs'[i].keep > 0
    ensures Taken(f, segs, i)
  {
    hide SegWrite, Laid, Records, Full;
    assert segs[i] in segs;
  }

  lemma OneShows(f: File, segs: seq<Seg>, segs': seq<Seg>, i: nat)
    requires AppendedFile(f, segs) && RisksShow(f, segs) && More(segs, segs', SetOf(f.pending)) && i < |segs|
    requires segs'[i].keep > 0 && (forall j :: 0 <= j < i ==> Taken(f, segs, j))
    requires exists j :: i < j < |segs| && Taken(f, segs, j)
    ensures Full(segs'[i]) || SegShows(segs[i].es, TermBefore(segs, i))
  {
    hide SegShows, TermBefore, SegWrite, Laid, Records, Taken;
    assert segs[i] in segs;
    if segs[i].keep == 0 { assert AtRisk(f, segs, i); }
  }

  /**
   However the unsynced writes fare, recovery returns a prefix of what was appended, if no record at
   risk is misread.
  */
  lemma PrefixComesBack(f: File, segs: seq<Seg>, img: seq<byte>)
    requires AppendedFile(f, segs) && Chain(Flat(segs), 1, 0) && RisksShow(f, segs) && CrashImage(f, img)
    ensures Recover(LogRegion(img), 1, 0) <= Flat(segs)
  {
    hide Recover, Chain, Laid, LogRegion, Resolve, RisksShow, TermBefore, SegWrite, SlotWrite, AllShow;
    var order: seq<WriteKind>, fates: seq<Fate> :|
      multiset(order) == multiset(f.pending) && |fates| == |order| && img == Resolve(f.durable, order, fates);
    forall p ensures p in order <==> p in f.pending { assert p in multiset(order) <==> p in multiset(f.pending); }
    var segs' := ResolveLaid(f.durable, segs, order, fates);
    assert SetOf(order) == SetOf(f.pending);
    MoreShow(f, segs, segs', 0);
    FlatSame(segs, segs');
    NoTermBefore(segs');
    assert segs'[0..] == segs';
    forall s | s in segs' ensures s.es != [] {
      var j :| 0 <= j < |segs'| && s == segs'[j];
      assert segs[j] in segs;
    }
    var k := LaidRecovers(segs', 1, 0);
  }

  lemma NoTermBefore(segs: seq<Seg>)
    ensures TermBefore(segs, 0) == 0
  {
    assert segs[..0] == [];
  }
}
