/**
 A node that only appends, as it does while it leads or keeps agreeing with its leader. What recovery
 finds after a crash is a prefix of its log exactly when no record whose write may be torn under a
 later one reads, with its end a hole, as another record. This is what the cluster's crash step takes
 recovery to leave (`Cluster.Recoverable`).
*/
module AppendRuns {
  import opened Types
  import opened RaftSpec
  import opened Codec
  import opened EntryCodec
  import opened LogFile
  import opened Disk
  import opened Persister
  import opened Durability
  import opened LogTail
  import Cluster

  // ---- a record misread breaks the log -------------------------------------------------------

  /** Without its index in the file a record is not misread: no entry has index 0. */
  lemma MisreadHasLength(e: Entry, term: nat, c: nat)
    requires Storable(e) && e.index > 0 && Misread(e, term, c)
    ensures c >= 4
  {
    hide ReadRecord, Record, FromLE, EntryTyped;
    if c < 4 {
      LongEnough(e);
      var s := Holed(Record(e), c);
      var (x, n) := ReadRecord(s).value;
      RecordFrom(s);
      IndexPlace(x, s[n..]);
      assert s[16..24] == Zeros(8);
      ZerosAreZero(8);
    }
  }

  /** Behind whole records, a record misread comes back as an entry the log does not have there. */
  lemma MisreadBreaks(before: seq<Entry>, e: Entry, c: nat, rest: seq<byte>)
    requires Chain(before + [e], 1, 0) && Misread(e, LastOr(before, 0), c)
    ensures var r := Recover(Records(before) + (Holed(Record(e), c) + rest), 1, 0); |r| > |before| && r[|before|] != e
  {
    hide ReadRecord, Record, Records, Storable, Holed;
    ChainSplit(before, [e], 1, 0);
    StorableLength(e);
    MisreadHasLength(e, LastOr(before, 0), c);
    var s := Holed(Record(e), c);
    LengthKnown(e, c, rest);
    RecoverAfter(before, s + rest, 1, 0);
    HoledSize(Record(e), c);
    if ReadRecord(s).value.0 == e { ReadsItself(e, s); }
    ReadSize(s + rest);
  }

  lemma ReadsItself(e: Entry, s: seq<byte>)
    requires ReadRecord(s).Some? && ReadRecord(s).value.0 == e && |s| == |Record(e)|
    ensures s == Record(e)
  {
    hide ReadRecord, Record;
    RecordFrom(s);
    var rest := s[ReadRecord(s).value.1..];
    assert |rest| == 0;
    assert s == Record(e) + rest;
  }

  lemma StorableLength(e: Entry)
    requires Storable(e)
    ensures |EncEntry(e)| <= MAX_RECORD
  {
  }

  lemma HoledSize(bytes: seq<byte>, c: nat)
    ensures |Holed(bytes, c)| == |bytes|
  {
  }

  // ---- the crash that shows it -----------------------------------------------------------------

  lemma {:induction false} AtGrows(segs: seq<Seg>, i: nat, j: nat)
    requires i < j <= |segs| && forall s :: s in segs ==> s.es != []
    ensures At(segs, i) < At(segs, j)
    decreases i
  {
    hide Records;
    SegSize(segs, 0);
    if i > 0 {
      forall s | s in segs[1..] ensures s in segs {}
      AtGrows(segs[1..], i - 1, j - 1);
    }
  }

  lemma SegWriteOne(segs: seq<Seg>, i: nat, j: nat)
    requires i < |segs| && j < |segs| && SegWrite(segs, i) == SegWrite(segs, j) && forall s :: s in segs ==> s.es != []
    ensures i == j
  {
    hide Records;
    if i < j { AtGrows(segs, i, j); }
    if j < i { AtGrows(segs, j, i); }
  }

  /** All writes land, but `p` leaves its first `keep` bytes only. */
  function AllBut(ws: seq<WriteKind>, p: WriteKind, keep: nat): (fates: seq<Fate>)
    ensures |fates| == |ws|
  {
    seq(|ws|, k requires 0 <= k < |ws| => if ws[k] == p then Torn(keep) else Landed)
  }

  /** What the segments are then. */
  ghost predicate TornAt(segs: seq<Seg>, segs': seq<Seg>, ws: set<WriteKind>, i: nat, keep: nat)
    requires i < |segs|
  {
    && |segs'| == |segs|
    && (forall j :: 0 <= j < |segs| ==> segs'[j].es == segs[j].es)
    && (forall j :: 0 <= j < |segs| && j != i && (Full(segs[j]) || SegWrite(segs, j) in ws) ==> Full(segs'[j]))
    && segs'[i].keep == if SegWrite(segs, i) in ws then Max(segs[i].keep, keep) else segs[i].keep
  }

  lemma {:induction false} ResolveAllBut(buf: seq<byte>, segs: seq<Seg>, ws: seq<WriteKind>, i: nat, keep: nat)
    returns (segs': seq<Seg>)
    requires LogRegion(buf) == Laid(segs) && (forall s :: s in segs ==> s.es != [])
    requires forall p :: p in ws ==> SlotWrite(p) || exists j :: 0 <= j < |segs| && p == SegWrite(segs, j)
    requires i < |segs| && 0 < keep <= |Records(segs[i].es)|
    ensures LogRegion(Resolve(buf, ws, AllBut(ws, SegWrite(segs, i), keep))) == Laid(segs')
    ensures TornAt(segs, segs', SetOf(ws), i, keep)
    decreases |ws|
  {
    hide Laid, Resolve1, LogRegion, SegWrite, SlotWrite, TornAt, Records;
    var p := SegWrite(segs, i);
    if |ws| == 0 {
      segs' := segs;
      TornNone(segs, i, keep);
    } else {
      var n := |ws| - 1;
      assert ws[n] in ws;
      forall q | q in ws[..n] ensures q in ws {}
      assert AllBut(ws, p, keep)[..n] == AllBut(ws[..n], p, keep);
      var mid := ResolveAllBut(buf, segs, ws[..n], i, keep);
      var b, fate := Resolve(buf, ws[..n], AllBut(ws[..n], p, keep)), AllBut(ws, p, keep)[n];
      assert SetOf(ws) == SetOf(ws[..n]) + {ws[n]};
      TornSame(segs, mid, SetOf(ws[..n]), i, keep);
      if SlotWrite(ws[n]) {
        ResolveSlot(b, ws[n], fate);
        segs' := mid;
        TornSlot(segs, mid, SetOf(ws[..n]), i, keep, ws[n]);
      } else {
        var j :| 0 <= j < |segs| && ws[n] == SegWrite(segs, j);
        AtSame(segs, mid, j);
        SegWriteIs(segs, mid, j);
        assert segs[j] in segs;
        segs' := ResolveSeg(b, mid, j, fate);
        if j != i && ws[n] == p { SegWriteOne(segs, i, j); }
        TornNext(segs, mid, segs', SetOf(ws[..n]), i, keep, j);
      }
    }
  }

  lemma TornNone(segs: seq<Seg>, i: nat, keep: nat)
    requires i < |segs|
    ensures TornAt(segs, segs, SetOf([]), i, keep)
  {
  }

  lemma TornSame(segs: seq<Seg>, segs': seq<Seg>, ws: set<WriteKind>, i: nat, keep: nat)
    requires i < |segs| && TornAt(segs, segs', ws, i, keep)
    ensures |segs'| == |segs| && forall j :: 0 <= j < |segs| ==> segs'[j].es == segs[j].es
  {
  }

  lemma SegWriteIs(segs: seq<Seg>, segs': seq<Seg>, j: nat)
    requires j < |segs| == |segs'| && segs'[j].es == segs[j].es && At(segs', j) == At(segs, j)
    ensures SegWrite(segs', j) == SegWrite(segs, j)
  {
  }

  lemma SlotIsNoSeg(segs: seq<Seg>, j: nat, p: WriteKind)
    requires j < |segs| && segs[j].es != [] && SlotWrite(p)
    ensures p != SegWrite(segs, j)
  {
    hide Records;
    SegSize(segs, j);
  }

  lemma TornSlot(segs: seq<Seg>, mid: seq<Seg>, ws: set<WriteKind>, i: nat, keep: nat, p: WriteKind)
    requires i < |segs| && TornAt(segs, mid, ws, i, keep) && SlotWrite(p) && forall s :: s in segs ==> s.es != []
    ensures TornAt(segs, mid, ws + {p}, i, keep)
  {
    hide Full, SegWrite, SlotWrite;
    forall j | 0 <= j < |segs| ensures p != SegWrite(segs, j) {
      assert segs[j] in segs;
      SlotIsNoSeg(segs, j, p);
    }
  }

  lemma TornNext(segs: seq<Seg>, mid: seq<Seg>, segs': seq<Seg>, ws: set<WriteKind>, i: nat, keep: nat, j: nat)
    requires i < |segs| && j < |segs| && TornAt(segs, mid, ws, i, keep) && 0 < keep <= |Records(segs[i].es)|
    requires forall s :: s in segs ==> s.es != []
    requires segs' == Kept(mid, j, if j == i then keep else |Records(mid[j].es)|)
    ensures TornAt(segs, segs', ws + {SegWrite(segs, j)}, i, keep)
  {
    hide SegWrite, Records;
    forall k | 0 <= k < |segs| && SegWrite(segs, k) == SegWrite(segs, j) ensures k == j { SegWriteOne(segs, k, j); }
  }

  // ---- a region with one segment torn ---------------------------------------------------------------

  lemma {:induction false} WholeBefore(segs: seq<Seg>, i: nat)
    requires i <= |segs| && Laid(segs[i..]) != [] && forall j :: 0 <= j < i ==> Full(segs[j])
    ensures Laid(segs) == Records(Flat(segs[..i])) + Laid(segs[i..])
    decreases i
  {
    hide Records, Holed;
    if i == 0 {
      assert segs[..0] == [] && segs[0..] == segs;
      NothingFlat(segs);
    } else {
      assert segs[1..][i - 1..] == segs[i..] && segs[..i][1..] == segs[1..][..i - 1];
      WholeBefore(segs[1..], i - 1);
      FullIsWhole(Records(segs[0].es), segs[0].keep);
      RecordsConcat(segs[0].es, Flat(segs[..i][1..]));
    }
  }

  lemma NothingFlat(segs: seq<Seg>)
    ensures Records(Flat(segs[..0])) == []
  {
    assert segs[..0] == [];
  }

  lemma LaidOne(segs: seq<Seg>)
    requires |segs| > 0 && Laid(segs[1..]) != []
    ensures Laid(segs) == Holed(Records(segs[0].es), segs[0].keep) + Laid(segs[1..]) != []
  {
  }

  lemma {:induction false} LaidSome(segs: seq<Seg>, k: nat)
    requires k < |segs| && Full(segs[k]) && segs[k].es != []
    ensures Laid(segs) != []
    decreases k
  {
    hide Records, Holed;
    SegSize(segs, k);
    if k > 0 { LaidSome(segs[1..], k - 1); }
  }

  /** The first bytes of a segment, up to some bytes of its entry `j`. */
  lemma HoledAt(es: seq<Entry>, j: nat, c: nat)
    requires j < |es| && c <= |Record(es[j])|
    ensures var keep := |Records(es[..j])| + c;
      keep <= |Records(es)|
      && Holed(Records(es), keep) == Records(es[..j]) + (Holed(Record(es[j]), c) + Holed(Records(es[j + 1..]), 0))
  {
    hide Records, Record, Holed;
    var keep := |Records(es[..j])| + c;
    assert es == es[..j] + ([es[j]] + es[j + 1..]);
    RecordsConcat(es[..j], [es[j]] + es[j + 1..]);
    RecordsConcat([es[j]], es[j + 1..]);
    OneRecordIs(es[j]);
    assert [] + [es[j]] == [es[j]];
    HoledSplit(Records(es[..j]), Record(es[j]) + Records(es[j + 1..]), keep);
    HoledSplit(Record(es[j]), Records(es[j + 1..]), c);
    if c == 0 { HoledSplit(Records(es[..j]), [], keep); }
  }

  /**
   With every segment before one whole, some segment behind it, and it torn inside a record that is
   misread, the log does not come back.
  */
  lemma TornBreaks(segs: seq<Seg>, i: nat, j: nat, c: nat, q: nat)
    requires Chain(Flat(segs), 1, 0) && i < q < |segs| && forall s :: s in segs ==> s.es != []
    requires Full(segs[q]) && forall k :: 0 <= k < i ==> Full(segs[k])
    requires j < |segs[i].es| && c <= |Record(segs[i].es[j])| && segs[i].keep == |Records(segs[i].es[..j])| + c
    requires Misread(segs[i].es[j], LastOr(segs[i].es[..j], TermBefore(segs, i)), c)
    ensures !(Recover(Laid(segs), 1, 0) <= Flat(segs))
  {
    hide Records, Record, Holed, Chain, Misread, Laid, Recover, Flat, Full;
    var es := segs[i].es;
    var tail, before := Laid(segs[i + 1..]), Flat(segs[..i]) + es[..j];
    assert segs[q] in segs && segs[i + 1..][q - i - 1] == segs[q];
    LaidSome(segs[i + 1..], q - i - 1);
    assert segs[i..][1..] == segs[i + 1..] && segs[i..][0] == segs[i];
    LaidOne(segs[i..]);
    WholeBefore(segs, i);
    HoledAt(es, j, c);
    RecordsConcat(Flat(segs[..i]), es[..j]);
    var rest := Holed(Records(es[j + 1..]), 0) + tail;
    assert Laid(segs) == Records(before) + (Holed(Record(es[j]), c) + rest);
    BeforeChained(segs, i, j);
    assert LastOr(before, 0) == LastOr(es[..j], TermBefore(segs, i));
    MisreadBreaks(before, es[j], c, rest);
  }

  lemma BeforeChained(segs: seq<Seg>, i: nat, j: nat)
    requires Chain(Flat(segs), 1, 0) && i < |segs| && j < |segs[i].es|
    ensures var before := Flat(segs[..i]) + segs[i].es[..j];
      Chain(before + [segs[i].es[j]], 1, 0) && |before| < |Flat(segs)| && Flat(segs)[|before|] == segs[i].es[j]
  {
    hide Chain, Flat;
    var es := segs[i].es;
    var before := Flat(segs[..i]) + es[..j];
    FlatAppend(segs, i);
    FlatSplit(segs, i + 1);
    assert es == es[..j] + ([es[j]] + es[j + 1..]);
    var more := es[j + 1..] + Flat(segs[i + 1..]);
    assert Flat(segs) == (before + [es[j]]) + more;
    ChainSplit(before + [es[j]], more, 1, 0);
  }

  lemma {:induction false} FlatSplit(segs: seq<Seg>, i: nat)
    requires i <= |segs|
    ensures Flat(segs) == Flat(segs[..i]) + Flat(segs[i..])
    decreases i
  {
    if i == 0 {
      assert segs[..0] == [] && segs[0..] == segs;
    } else {
      FlatSplit(segs[1..], i - 1);
      assert segs[..i][1..] == segs[1..][..i - 1] && segs[1..][i - 1..] == segs[i..];
    }
  }

  /** The crash that tears segment `i` inside a record that is misread, while everything else lands. */
  lemma RiskBreaks(f: File, segs: seq<Seg>, i: nat, j: nat, c: nat) returns (img: seq<byte>)
    requires AppendedFile(f, segs) && Chain(Flat(segs), 1, 0) && i < |segs| && AtRisk(f, segs, i)
    requires j < |segs[i].es| && Misread(segs[i].es[j], LastOr(segs[i].es[..j], TermBefore(segs, i)), c)
    ensures CrashImage(f, img) && !(Recover(LogRegion(img), 1, 0) <= Flat(segs))
  {
    hide Recover, Chain, Laid, LogRegion, Resolve, TermBefore, SegWrite, SlotWrite, Flat, Misread, Records, Record,
         Full;
    var e := segs[i].es[j];
    MisreadInside(e, LastOr(segs[i].es[..j], TermBefore(segs, i)), c);
    var keep := |Records(segs[i].es[..j])| + c;
    HoledAt(segs[i].es, j, c);
    ChainedAt(segs, i, j);
    var segs' := ResolveAllBut(f.durable, segs, f.pending, i, keep);
    img := Resolve(f.durable, f.pending, AllBut(f.pending, SegWrite(segs, i), keep));
    FlatSame(segs, segs');
    TermSame(segs, segs', i);
    forall s | s in segs' ensures s.es != [] {
      var k :| 0 <= k < |segs'| && s == segs'[k];
      assert segs[k] in segs;
    }
    var q :| i < q < |segs| && Taken(f, segs, q);
    forall k | 0 <= k < i || k == q ensures Full(segs'[k]) { assert Taken(f, segs, k); }
    TornBreaks(segs', i, j, c, q);
  }

  lemma MisreadInside(e: Entry, term: nat, c: nat)
    requires Misread(e, term, c)
    ensures 0 < c < |Record(e)|
  {
    hide Record, ReadRecord;
    LongEnough(e);
    AllHole(Record(e));
    ZeroReads(|Record(e)|);
  }

  lemma ZeroReads(n: nat)
    requires n >= 4
    ensures ReadRecord(Zeros(n)) == None
  {
    hide FromLE;
    assert Zeros(n)[..4] == Zeros(4);
    ZerosAreZero(4);
  }

  lemma ChainedAt(segs: seq<Seg>, i: nat, j: nat)
    requires Chain(Flat(segs), 1, 0) && i < |segs| && j < |segs[i].es|
    ensures Storable(segs[i].es[j])
  {
    hide Flat, Storable;
    var before := Flat(segs[..i]) + segs[i].es[..j];
    BeforeChained(segs, i, j);
    ChainSplit(before, [segs[i].es[j]], 1, 0);
  }

  /**
   A prefix of the appended log comes back from every crash exactly when no record at risk is misread:
   none whose write is unsynced under a later one, before the first write the disk refused. The last
   write is never a risk: torn, it leaves a proper prefix of a record (`LogFile.TornRecord`), and a lost
   one leaves nothing.
  */
  lemma PrefixComesBackIff(f: File, segs: seq<Seg>)
    requires AppendedFile(f, segs) && Chain(Flat(segs), 1, 0)
    ensures (forall img :: CrashImage(f, img) ==> Recover(LogRegion(img), 1, 0) <= Flat(segs)) <==> RisksShow(f, segs)
  {
    hide AppendedFile, Chain, Recover, LogRegion, Flat, CrashImage, AtRisk, Misread, TermBefore;
    if RisksShow(f, segs) {
      forall img | CrashImage(f, img) ensures Recover(LogRegion(img), 1, 0) <= Flat(segs) {
        PrefixComesBack(f, segs, img);
      }
    } else {
      var i :| 0 <= i < |segs| && AtRisk(f, segs, i) && !SegShows(segs[i].es, TermBefore(segs, i));
      var j: nat, c: nat :| j < |segs[i].es| && Misread(segs[i].es[j], LastOr(segs[i].es[..j], TermBefore(segs, i)), c);
      var img := RiskBreaks(f, segs, i, j, c);
    }
  }

  // ---- runs that only append ----------------------------------------------------------------------------

  /** The log is what was appended, and the file is laid out so. */
  ghost predicate Appending(w: Wal, segs: seq<Seg>) { AppendedFile(w.file, segs) && Flat(segs) == w.log }

  predicate AppendOnly(a: WalAction) {
    match a
    case Take(cut, es, _, _, _) => cut.None? && es != []
    case PowerLoss(_, _) => false
    case _ => true
  }

  lemma {:induction false} AtIsSize(segs: seq<Seg>, es: seq<Entry>)
    ensures At(segs + [Seg(es, 0)], |segs|) == |Records(Flat(segs))|
    ensures Flat(segs + [Seg(es, 0)]) == Flat(segs) + es
    ensures Laid(segs + [Seg(es, 0)]) == Laid(segs)
  {
    hide Records, Holed;
    if |segs| == 0 {
      LastHole(es);
      assert segs + [Seg(es, 0)] == [Seg(es, 0)];
    } else {
      AtIsSize(segs[1..], es);
      assert (segs + [Seg(es, 0)])[1..] == segs[1..] + [Seg(es, 0)];
      RecordsConcat(segs[0].es, Flat(segs[1..]));
    }
  }

  lemma LastHole(es: seq<Entry>)
    ensures Laid([Seg(es, 0)]) == [] && Flat([Seg(es, 0)]) == es && Records([]) == []
  {
    assert [Seg(es, 0)][1..] == [];
  }

  lemma {:induction false} AtBefore(segs: seq<Seg>, s: Seg, i: nat)
    requires i <= |segs|
    ensures At(segs + [s], i) == At(segs, i)
    decreases i
  {
    hide Records;
    if i > 0 {
      AtBefore(segs[1..], s, i - 1);
      assert (segs + [s])[1..] == segs[1..] + [s];
    }
  }

  /** A new segment, of which nothing is in the file yet. */
  lemma SegAdded(f: File, segs: seq<Seg>, es: seq<Entry>)
    requires AppendedFile(f, segs) && es != []
    ensures AppendedFile(f, segs + [Seg(es, 0)])
  {
    hide Laid, LogRegion, Records, At, SlotWrite, Full;
    var segs' := segs + [Seg(es, 0)];
    AtIsSize(segs, es);
    forall p | p in f.pending && !SlotWrite(p) ensures exists i :: 0 <= i < |segs'| && p == SegWrite(segs', i) {
      var i :| 0 <= i < |segs| && p == SegWrite(segs, i);
      AtBefore(segs, Seg(es, 0), i);
      assert p == SegWrite(segs', i);
    }
  }

  lemma IssueKeepsAppended(f: File, segs: seq<Seg>, p: WriteKind)
    requires AppendedFile(f, segs) && (SlotWrite(p) || exists i :: 0 <= i < |segs| && p == SegWrite(segs, i))
    ensures AppendedFile(Issued(f, p), segs)
  {
    hide Laid, LogRegion, SegWrite, Full;
  }

  /** Making every write durable makes whole each segment that was on its way. */
  lemma {:induction false} AppliedAllLaid(buf: seq<byte>, segs: seq<Seg>, ws: seq<WriteKind>) returns (segs': seq<Seg>)
    requires LogRegion(buf) == Laid(segs) && forall s :: s in segs ==> s.es != []
    requires forall p :: p in ws ==> SlotWrite(p) || exists i :: 0 <= i < |segs| && p == SegWrite(segs, i)
    ensures LogRegion(AppliedAll(buf, ws)) == Laid(segs') && |segs'| == |segs|
    ensures forall j ::
      0 <= j < |segs| ==> segs'[j].es == segs[j].es && (segs'[j].keep == segs[j].keep || Full(segs'[j]))
    decreases |ws|
  {
    hide Laid, Applied, LogRegion, SegWrite, SlotWrite, Full;
    if |ws| == 0 {
      segs' := segs;
    } else {
      var n := |ws| - 1;
      assert ws[n] in ws;
      forall p | p in ws[..n] ensures p in ws {}
      var mid := AppliedAllLaid(buf, segs, ws[..n]);
      var b := AppliedAll(buf, ws[..n]);
      if SlotWrite(ws[n]) {
        RegionOfSlot(b, ws[n]);
        segs' := mid;
      } else {
        var i :| 0 <= i < |segs| && ws[n] == SegWrite(segs, i);
        AtSame(segs, mid, i);
        SegWriteIs(segs, mid, i);
        assert segs[i] in segs;
        segs' := ResolveSeg(b, mid, i, Landed);
        KeptFull(mid, i);
      }
    }
  }

  lemma KeptFull(segs: seq<Seg>, i: nat)
    requires i < |segs|
    ensures var r := Kept(segs, i, |Records(segs[i].es)|);
      Full(r[i]) && forall j :: 0 <= j < |segs| && j != i ==> r[j] == segs[j]
  {
  }

  lemma SyncKeepsAppended(f: File, segs: seq<Seg>) returns (segs': seq<Seg>)
    requires AppendedFile(f, segs)
    ensures AppendedFile(Synced(f), segs') && Flat(segs') == Flat(segs)
  {
    hide Laid, LogRegion, SegWrite, SlotWrite, Full, AppliedAll;
    segs' := AppliedAllLaid(f.durable, segs, f.pending);
    FlatSame(segs, segs');
    forall s | s in segs' ensures s.es != [] && (s.keep == 0 || Full(s)) {
      var j :| 0 <= j < |segs'| && s == segs'[j];
      assert segs[j] in segs;
      SameFull(segs[j], s);
    }
  }

  lemma SameFull(s: Seg, t: Seg)
    ensures s.es == t.es && s.keep == t.keep ==> (Full(s) <==> Full(t))
  {
  }

  lemma StorageFile(w: Wal, op: nat, error: bool)
    requires op in w.results
    ensures var x := OnStorage(w, op, error); x.log == w.log && (x.file == w.file || x.file == Synced(w.file))
  {
    hide Completed, Synced, Sync, Noted, Claimed;
    var (flight, ev) := Completed(w.flight, op, w.results[op]);
    var v := w.(flight := flight, results := w.results - {op});
    match ev {
      case NeedSync(id) => SyncFile(v, id, error);
      case Done(action, hard) =>
        NotedFile(v, hard);
        ClaimedFile(Noted(v, hard), action);
      case _ =>
    }
  }

  lemma SyncFile(w: Wal, id: nat, error: bool)
    ensures var x := Sync(w, id, error); x.log == w.log && (x.file == w.file || x.file == Synced(w.file))
  {
    hide Synced, NotedSync;
  }

  lemma NotedFile(w: Wal, hard: Option<HardState>)
    ensures Noted(w, hard).log == w.log && Noted(w, hard).file == w.file
  {
    hide Reach, Above, LimitParked;
  }

  lemma ClaimedFile(w: Wal, action: Persist)
    ensures Claimed(w, action).log == w.log && Claimed(w, action).file == w.file
  {
    hide Reach, Above, LimitParked;
  }

  lemma HardSlotWrite(hw: HardWrite)
    ensures SlotWrite(Data((hw.hs.seqno % 2) * SLOT_SIZE, hw.bytes))
  {
  }

  lemma WriteHardKeeps(w: Wal, id: nat, hw: HardWrite, error: bool, segs: seq<Seg>)
    requires Appending(w, segs)
    ensures Appending(WriteHard(w, id, hw, error), segs)
  {
    hide AppendedFile, SlotWrite, Issued;
    HardSlotWrite(hw);
    IssueKeepsAppended(w.file, segs, Data((hw.hs.seqno % 2) * SLOT_SIZE, hw.bytes));
  }

  /** Taking entries in adds a segment, whether or not the disk takes its write. */
  lemma TakeKeeps(w: Wal, segs: seq<Seg>, es: seq<Entry>, hw: Option<HardWrite>, reply: Reply, errors: Errors)
    requires Appending(w, segs) && es != []
    ensures Appending(Store(w, None, es, hw, reply, errors), segs + [Seg(es, 0)])
  {
    hide AppendedFile, SlotWrite, Issued, WriteHard, Records, Flat;
    var segs' := segs + [Seg(es, 0)];
    SegAdded(w.file, segs, es);
    AtIsSize(segs, es);
    var from := |w.log| + 1;
    var w2 := w.(log := w.log + es,
                 flight := Started(w.flight, LogDurable(from, |w.log| + |es|, reply.verified, reply.to, reply.term)));
    var id := w2.flight.lastId;
    assert Appending(w2, segs');
    if hw.Some? { WriteHardKeeps(w2, id, hw.value, errors.hard, segs'); }
    var w3 := if hw.Some? then WriteHard(w2, id, hw.value, errors.hard) else w2;
    assert w.log[..|w.log|] == w.log;
    assert SegWrite(segs', |segs|) == Data(Offset(w.log, |w.log|), Records(es));
    IssueKeepsAppended(w3.file, segs', SegWrite(segs', |segs|));
  }

  /** A node that appends goes on appending. */
  lemma AppendStep(w: Wal, segs: seq<Seg>, a: WalAction) returns (segs': seq<Seg>)
    requires Appending(w, segs) && WalEnabled(w, a) && AppendOnly(a)
    ensures Appending(WalNext(w, a), segs')
  {
    hide AppendedFile, Store, WriteHard, OnStorage, Flat;
    segs' := segs;
    match a {
      case Take(_, es, hw, reply, errors) =>
        TakeKeeps(w, segs, es, hw, reply, errors);
        segs' := segs + [Seg(es, 0)];
      case Vote(action, hard, error) =>
        var v := w.(flight := Started(w.flight, action));
        WriteHardKeeps(v, v.flight.lastId, hard, error, segs);
      case Storage(op, error) =>
        StorageFile(w, op, error);
        if WalNext(w, a).file == Synced(w.file) { segs' := SyncKeepsAppended(w.file, segs); }
    }
  }

  /** A disk that holds the records of the log and nothing behind them. */
  lemma CleanStart(w: Wal)
    requires LogRegion(w.file.durable) == Records(w.log) && w.file.pending == []
    ensures Appending(w, if w.log == [] then [] else [Seg(w.log, |Records(w.log)|)])
  {
    hide Records, LogRegion;
    if w.log == [] {
      NothingFlat([]);
    } else {
      var s := Seg(w.log, |Records(w.log)|);
      assert [s][1..] == [] && Laid([]) == [];
      assert w.log + Flat([]) == w.log;
      assert Flat([s]) == w.log;
      assert Records(w.log)[..|Records(w.log)|] == Records(w.log);
    }
  }

  // ---- runs that cut the log -----------------------------------------------------------------------------

  /** What the node sees of the file is laid out as the writes the disk took, and together they are its log. */
  ghost predicate Seen(w: Wal, cached: seq<Seg>) {
    && LogRegion(w.file.cache) == Laid(cached) && Flat(cached) == w.log
    && forall s :: s in cached ==> s.es != [] && (s.keep == 0 || Full(s))
  }

  ghost predicate NoCutPending(f: File) { forall p :: p in f.pending ==> !p.SetLen? }

  /** No power loss, and a cut is taken by the disk together with what is written behind it. */
  predicate Orderly(a: WalAction) {
    match a
    case Take(cut, es, _, _, errors) => es != [] && (cut.Some? ==> !errors.cut && !errors.records)
    case PowerLoss(_, _) => false
    case _ => true
  }

  /** The segments of the first `c` entries. */
  function CutSegs(segs: seq<Seg>, c: nat): seq<Seg> {
    if |segs| == 0 || c == 0 then []
    else if c >= |segs[0].es| then [segs[0]] + CutSegs(segs[1..], c - |segs[0].es|)
    else [Seg(segs[0].es[..c], if segs[0].keep == 0 then 0 else |Records(segs[0].es[..c])|)]
  }

  lemma {:induction false} CutFlat(segs: seq<Seg>, c: nat)
    requires c <= |Flat(segs)|
    ensures Flat(CutSegs(segs, c)) == Flat(segs)[..c]
    ensures (forall s :: s in segs ==> s.es != [] && (s.keep == 0 || Full(s)))
        ==> forall s :: s in CutSegs(segs, c) ==> s.es != [] && (s.keep == 0 || Full(s))
  {
    hide Records;
    if |segs| > 0 && c > 0 {
      if c >= |segs[0].es| {
        CutFlat(segs[1..], c - |segs[0].es|);
        assert ([segs[0]] + CutSegs(segs[1..], c - |segs[0].es|))[1..] == CutSegs(segs[1..], c - |segs[0].es|);
        assert Flat(segs)[..c] == segs[0].es + Flat(segs[1..])[..c - |segs[0].es|];
      } else {
        var s := Seg(segs[0].es[..c], if segs[0].keep == 0 then 0 else |Records(segs[0].es[..c])|);
        assert [s][1..] == [] && Flat([]) == [] && segs[0].es[..c] + [] == segs[0].es[..c];
        assert Flat(segs)[..c] == segs[0].es[..c];
        assert segs[0] in segs;
      }
    }
  }

  lemma ResizedBoth(front: seq<byte>, tail: seq<byte>, n: nat)
    ensures Resized(front + tail, |front| + n) == front + Resized(tail, n)
  {
  }

  lemma ResizedHole(bytes: seq<byte>, keep: nat, n: nat)
    ensures Resized(bytes[..Min(keep, |bytes|)], |bytes| + n) == Holed(bytes, keep) + Resized([], n)
  {
  }

  lemma ResizedInside(bytes: seq<byte>, keep: nat, tail: seq<byte>, n: nat)
    requires n <= |bytes| && (keep == 0 || keep >= |bytes|)
    ensures Resized(bytes[..Min(keep, |bytes|)], n) == Holed(bytes[..n], if keep == 0 then 0 else n)
    ensures Resized(Holed(bytes, keep) + tail, n) == Holed(bytes[..n], if keep == 0 then 0 else n)
  {
  }

  /** The length at which a segment's region is cut, seen from behind its first segment. */
  lemma LaidResized(segs: seq<Seg>, n: nat)
    requires |segs| > 0
    ensures Resized(Laid(segs), |Records(segs[0].es)| + n)
        == Holed(Records(segs[0].es), segs[0].keep) + Resized(Laid(segs[1..]), n)
  {
    hide Records, Resized, Holed, Laid;
    var bytes, tail := Records(segs[0].es), Laid(segs[1..]);
    HoledSize(bytes, segs[0].keep);
    LaidFront(segs);
    if tail == [] { ResizedHole(bytes, segs[0].keep, n); } else { ResizedBoth(Holed(bytes, segs[0].keep), tail, n); }
  }

  lemma LaidFront(segs: seq<Seg>)
    requires |segs| > 0
    ensures var bytes, tail := Records(segs[0].es), Laid(segs[1..]);
      Laid(segs) == if tail == [] then bytes[..Min(segs[0].keep, |bytes|)] else Holed(bytes, segs[0].keep) + tail
  {
  }

  /** A cut, and a write behind it: the segments up to the cut, and the new one. */
  lemma {:induction false} CutThenWrite(segs: seq<Seg>, c: nat, es: seq<Entry>)
    requires c <= |Flat(segs)| && es != [] && forall s :: s in segs ==> s.keep == 0 || Full(s)
    ensures var n := |Records(Flat(segs)[..c])|;
      Applied(Resized(Laid(segs), n), Data(n, Records(es))) == Laid(CutSegs(segs, c) + [Seg(es, |Records(es)|)]) != []
    decreases |segs|
  {
    hide Records, Resized, Holed, Applied;
    if |segs| == 0 || c == 0 {
      assert Flat(segs)[..c] == [];
      NothingFlat([]);
      assert CutSegs(segs, c) + [Seg(es, |Records(es)|)] == [Seg(es, |Records(es)|)];
      WriteAlone(Laid(segs), es);
    } else if c >= |segs[0].es| {
      var d := c - |segs[0].es|;
      forall s | s in segs[1..] ensures s in segs {}
      CutThenWrite(segs[1..], d, es);
      assert Flat(segs)[..c] == segs[0].es + Flat(segs[1..])[..d];
      RecordsConcat(segs[0].es, Flat(segs[1..])[..d]);
      var m := |Records(Flat(segs[1..])[..d])|;
      LaidResized(segs, m);
      HoledSize(Records(segs[0].es), segs[0].keep);
      AppliedBehind(Holed(Records(segs[0].es), segs[0].keep), Resized(Laid(segs[1..]), m), m, Records(es));
      var rest := CutSegs(segs[1..], d) + [Seg(es, |Records(es)|)];
      var all := CutSegs(segs, c) + [Seg(es, |Records(es)|)];
      assert all[0] == segs[0] && all[1..] == rest;
      LaidOne(all);
    } else {
      CutInside(segs, c, es);
    }
  }

  lemma WriteAlone(buf: seq<byte>, es: seq<Entry>)
    requires es != []
    ensures Applied(Resized(buf, 0), Data(0, Records(es))) == Laid([Seg(es, |Records(es)|)]) != []
  {
    hide Records;
    RecordsLong(es);
    assert [Seg(es, |Records(es)|)][1..] == [];
    assert Records(es)[..|Records(es)|] == Records(es);
  }

  /** A cut within the first segment. */
  lemma CutInside(segs: seq<Seg>, c: nat, es: seq<Entry>)
    requires |segs| > 0 && 0 < c < |segs[0].es| && es != [] && (segs[0].keep == 0 || Full(segs[0]))
    ensures var n := |Records(Flat(segs)[..c])|;
      Applied(Resized(Laid(segs), n), Data(n, Records(es))) == Laid(CutSegs(segs, c) + [Seg(es, |Records(es)|)]) != []
  {
    hide Records, Resized, Holed, Applied;
    var first := segs[0].es[..c];
    var n, bytes := |Records(first)|, Records(segs[0].es);
    assert Flat(segs)[..c] == first;
    RecordsPrefix(segs[0].es, c);
    assert bytes[..n] == Records(first);
    ResizedInside(bytes, segs[0].keep, Laid(segs[1..]), n);
    var s := Seg(first, if segs[0].keep == 0 then 0 else n);
    var h := Holed(Records(first), s.keep);
    assert Resized(Laid(segs), n) == h;
    HoledSize(Records(first), s.keep);
    assert h + [] == h;
    AppliedBehind(h, [], 0, Records(es));
    WriteAlone([], es);
    ResizedToNothing();
    var all := [s] + [Seg(es, |Records(es)|)];
    assert CutSegs(segs, c) + [Seg(es, |Records(es)|)] == all && all[1..] == [Seg(es, |Records(es)|)];
    LaidOne(all);
  }

  lemma ResizedToNothing()
    ensures Resized([], 0) == []
  {
  }

  lemma RegionOfCut(buf: seq<byte>, n: nat)
    ensures LogRegion(Resized(buf, LOG_REGION + n)) == Resized(LogRegion(buf), n)
  {
    var r := Resized(buf, LOG_REGION + n);
    if |buf| > LOG_REGION && n > 0 {
      assert |LogRegion(r)| == n == |Resized(LogRegion(buf), n)|;
      forall k | 0 <= k < n
        ensures LogRegion(r)[k] == Resized(LogRegion(buf), n)[k] { assert LogRegion(r)[k] == r[LOG_REGION + k]; }
    }
  }

  /** A slot write changes nothing the node sees of its log. */
  lemma HardSeen(w: Wal, id: nat, hw: HardWrite, error: bool, cached: seq<Seg>)
    requires Seen(w, cached)
    ensures Seen(WriteHard(w, id, hw, error), cached)
  {
    hide SlotWrite, LogRegion, Applied, Full;
    HardSlotWrite(hw);
    RegionOfSlot(w.file.cache, Data((hw.hs.seqno % 2) * SLOT_SIZE, hw.bytes));
  }

  /** Entries taken in without a cut. */
  lemma TakeSeen(w: Wal, cached: seq<Seg>, es: seq<Entry>, hw: Option<HardWrite>, reply: Reply, errors: Errors)
    requires Seen(w, cached) && es != []
    ensures Seen(Store(w, None, es, hw, reply, errors), cached + [Seg(es, if errors.records then 0 else |Records(es)|)])
  {
    hide SlotWrite, LogRegion, Applied, Records, Flat, Laid, WriteHard, At;
    var more := cached + [Seg(es, 0)];
    AtIsSize(cached, es);
    var from := |w.log| + 1;
    var w2 := w.(log := w.log + es,
                 flight := Started(w.flight, LogDurable(from, |w.log| + |es|, reply.verified, reply.to, reply.term)));
    var id := w2.flight.lastId;
    assert Seen(w2, more);
    if hw.Some? { HardSeen(w2, id, hw.value, errors.hard, more); }
    var w3 := if hw.Some? then WriteHard(w2, id, hw.value, errors.hard) else w2;
    assert w.log[..|w.log|] == w.log;
    if !errors.records { NewSeen(w3.file.cache, cached, es); }
  }

  lemma NewSeen(buf: seq<byte>, cached: seq<Seg>, es: seq<Entry>)
    requires LogRegion(buf) == Laid(cached + [Seg(es, 0)]) && es != []
    ensures var full := cached + [Seg(es, |Records(es)|)];
      && LogRegion(Applied(buf, Data(LOG_REGION + |Records(Flat(cached))|, Records(es)))) == Laid(full)
      && Flat(full) == Flat(cached + [Seg(es, 0)])
  {
    hide LogRegion, Applied, Records, Flat, Laid, At;
    var more, full, n := cached + [Seg(es, 0)], cached + [Seg(es, |Records(es)|)], |cached|;
    AtIsSize(cached, es);
    RecordsLong(es);
    RegionOfData(buf, |Records(Flat(cached))|, Records(es));
    LaidWrite(more, n, |Records(es)|);
    assert Records(es)[..|Records(es)|] == Records(es);
    assert Kept(more, n, |Records(es)|) == full;
    FlatSame(more, full);
  }

  /** Entries taken in behind a cut. */
  lemma CutSeen(w: Wal, cached: seq<Seg>, cut: nat, es: seq<Entry>, hw: Option<HardWrite>, reply: Reply, errors: Errors)
    requires Seen(w, cached) && es != [] && 0 < cut <= |w.log| && !errors.cut && !errors.records
    ensures var x := Store(w, Some(cut), es, hw, reply, errors);
      Seen(x, CutSegs(cached, cut - 1) + [Seg(es, |Records(es)|)]) && !NoCutPending(x.file)
  {
    hide LogRegion, Applied, Records, Flat, Laid, CutSegs, Store;
    var c := cut - 1;
    var buf := CutStored(w, cut, es, hw, reply, errors);
    CutFlat(cached, c);
    FlatEnd(CutSegs(cached, c), Seg(es, |Records(es)|));
    CutBytes(buf, cached, c, es);
  }

  /** What such a write issues, after the hard state's, which left `buf`. */
  lemma CutStored(w: Wal, cut: nat, es: seq<Entry>, hw: Option<HardWrite>, reply: Reply, errors: Errors)
    returns (buf: seq<byte>)
    requires 0 < cut <= |w.log| && !errors.cut && !errors.records
    ensures var x, n := Store(w, Some(cut), es, hw, reply, errors), |Records(w.log[..cut - 1])|;
      && LogRegion(buf) == LogRegion(w.file.cache) && x.log == w.log[..cut - 1] + es
      && x.file.cache == Applied(Applied(buf, SetLen(LOG_REGION + n)), Data(LOG_REGION + n, Records(es)))
      && SetLen(LOG_REGION + n) in x.file.pending
  {
    hide SlotWrite, LogRegion, Applied, Records, WriteHard;
    var w1 := Durability.Truncated(w, cut);
    var from := |w1.log| + 1;
    var w2 := w1.(log := w1.log + es,
                  flight := Started(w1.flight,
                                    LogDurable(from, |w1.log| + |es|, reply.verified, reply.to, reply.term)));
    var id := w2.flight.lastId;
    var w3 := if hw.Some? then WriteHard(w2, id, hw.value, errors.hard) else w2;
    HardRegion(w2, id, hw, errors.hard);
    assert w1.log[..|w1.log|] == w1.log;
    buf := w3.file.cache;
  }

  lemma CutBytes(buf: seq<byte>, cached: seq<Seg>, c: nat, es: seq<Entry>)
    requires LogRegion(buf) == Laid(cached) && c <= |Flat(cached)| && es != []
    requires forall s :: s in cached ==> s.keep == 0 || Full(s)
    ensures var n := |Records(Flat(cached)[..c])|;
      LogRegion(Applied(Applied(buf, SetLen(LOG_REGION + n)), Data(LOG_REGION + n, Records(es))))
        == Laid(CutSegs(cached, c) + [Seg(es, |Records(es)|)])
  {
    hide LogRegion, Applied, Resized, Records, Flat, Laid, CutSegs;
    var n := |Records(Flat(cached)[..c])|;
    RecordsLong(es);
    RegionOfCut(buf, n);
    CutIs(buf, n);
    RegionOfData(Applied(buf, SetLen(LOG_REGION + n)), n, Records(es));
    CutThenWrite(cached, c, es);
  }

  lemma CutIs(buf: seq<byte>, n: nat)
    ensures Applied(buf, SetLen(LOG_REGION + n)) == Resized(buf, LOG_REGION + n)
  {
  }

  lemma HardRegion(w: Wal, id: nat, hw: Option<HardWrite>, error: bool)
    ensures var x := if hw.Some? then WriteHard(w, id, hw.value, error) else w;
      LogRegion(x.file.cache) == LogRegion(w.file.cache) && x.log == w.log
  {
    hide SlotWrite, LogRegion, Applied;
    if hw.Some? {
      HardSlotWrite(hw.value);
      RegionOfSlot(w.file.cache, Data((hw.value.hs.seqno % 2) * SLOT_SIZE, hw.value.bytes));
    }
  }

  lemma {:induction false} FlatEnd(segs: seq<Seg>, s: Seg)
    ensures Flat(segs + [s]) == Flat(segs) + s.es
  {
    FlatAppend(segs + [s], |segs|);
    assert (segs + [s])[..|segs| + 1] == segs + [s] && (segs + [s])[..|segs|] == segs;
  }

  // ---- every orderly run -----------------------------------------------------------------------------------

  /** Between a cut and the sync that makes it durable nothing is said of the durable bytes; before and after, all. */
  ghost predicate InOrder(w: Wal, cached: seq<Seg>, segs: seq<Seg>) {
    Seen(w, cached) && (NoCutPending(w.file) ==> Appending(w, segs))
  }

  lemma OrderlyStep(w: Wal, cached: seq<Seg>, segs: seq<Seg>, a: WalAction) returns (cached': seq<Seg>, segs': seq<Seg>)
    requires InOrder(w, cached, segs) && FileOk(w.file) && WalEnabled(w, a) && Orderly(a)
    ensures InOrder(WalNext(w, a), cached', segs')
  {
    hide InOrder, Store, StoreHard, OnStorage, FileOk;
    cached', segs' := cached, segs;
    match a {
      case Take(cut, es, hw, reply, errors) =>
        if cut.Some? {
          cached' := CutInOrder(w, cached, segs, cut.value, es, hw, reply, errors);
        } else {
          cached', segs' := TakeInOrder(w, cached, segs, a);
        }
      case Vote(action, hard, error) => segs' := VoteInOrder(w, cached, segs, a);
      case Storage(op, error) =>
        StorageFile(w, op, error);
        cached', segs' := StorageSeen(w, cached, segs, WalNext(w, a));
    }
  }

  lemma CutInOrder(w: Wal, cached: seq<Seg>, segs: seq<Seg>, cut: nat, es: seq<Entry>, hw: Option<HardWrite>,
                   reply: Reply, errors: Errors)
    returns (cached': seq<Seg>)
    requires InOrder(w, cached, segs) && es != [] && 0 < cut <= |w.log| && !errors.cut && !errors.records
    ensures InOrder(Store(w, Some(cut), es, hw, reply, errors), cached', segs)
  {
    hide Seen, Appending, Store, NoCutPending;
    CutSeen(w, cached, cut, es, hw, reply, errors);
    cached' := CutSegs(cached, cut - 1) + [Seg(es, |Records(es)|)];
  }

  lemma TakeInOrder(w: Wal, cached: seq<Seg>, segs: seq<Seg>, a: WalAction)
    returns (cached': seq<Seg>, segs': seq<Seg>)
    requires InOrder(w, cached, segs) && WalEnabled(w, a) && a.Take? && a.cut.None? && a.es != []
    ensures InOrder(WalNext(w, a), cached', segs')
  {
    hide Seen, Appending, Store, NoCutPending;
    TakeSeen(w, cached, a.es, a.hw, a.reply, a.errors);
    cached' := cached + [Seg(a.es, if a.errors.records then 0 else |Records(a.es)|)];
    PendingGrows(w, a);
    segs' := segs;
    if NoCutPending(w.file) { segs' := AppendStep(w, segs, a); }
  }

  lemma VoteInOrder(w: Wal, cached: seq<Seg>, segs: seq<Seg>, a: WalAction) returns (segs': seq<Seg>)
    requires InOrder(w, cached, segs) && WalEnabled(w, a) && a.Vote?
    ensures InOrder(WalNext(w, a), cached, segs')
  {
    hide Seen, Appending, StoreHard, NoCutPending;
    VoteSeen(w, cached, a.action, a.hard, a.error);
    PendingGrows(w, a);
    segs' := segs;
    if NoCutPending(w.file) { segs' := AppendStep(w, segs, a); }
  }

  lemma VoteSeen(w: Wal, cached: seq<Seg>, action: Persist, hard: HardWrite, error: bool)
    requires Seen(w, cached)
    ensures Seen(StoreHard(w, action, hard, error), cached)
  {
    hide WriteHard, LogRegion, Laid, Full;
    var v := w.(flight := Started(w.flight, action));
    assert Seen(v, cached);
    HardSeen(v, v.flight.lastId, hard, error, cached);
  }

  /** Whatever is issued, what was unsynced before still is. */
  lemma PendingGrows(w: Wal, a: WalAction)
    requires WalEnabled(w, a) && (a.Take? || a.Vote?)
    ensures NoCutPending(WalNext(w, a).file) ==> NoCutPending(w.file)
  {
    hide Applied, Records, Started, Clamped;
    var before, after := w.file.pending, WalNext(w, a).file.pending;
    assert before <= after;
    forall p | p in before ensures p in after {
      var k :| 0 <= k < |before| && before[k] == p;
      assert after[k] == p;
    }
  }

  lemma StorageSeen(w: Wal, cached: seq<Seg>, segs: seq<Seg>, x: Wal) returns (cached': seq<Seg>, segs': seq<Seg>)
    requires InOrder(w, cached, segs) && FileOk(w.file) && x.log == w.log
    requires (x.file == w.file || x.file == Synced(w.file))
    ensures InOrder(x, cached', segs')
  {
    hide LogRegion, Laid, Full, Flat;
    cached', segs' := cached, segs;
    if x.file == Synced(w.file) { segs' := cached; }
  }

  lemma {:induction false} OrderlyRun(ws: seq<Wal>, acts: seq<WalAction>, i: nat)
    returns (cached: seq<Seg>, segs: seq<Seg>)
    requires WalRun(ws, acts) && i < |ws| && forall k :: 0 <= k < i ==> Orderly(acts[k])
    requires LogRegion(ws[0].file.durable) == Records(ws[0].log)
    ensures InOrder(ws[i], cached, segs)
    decreases i
  {
    hide InOrder, WalEnabled, WalNext, Records, LogRegion, Orderly;
    if i == 0 {
      StartsQuiet(ws, acts);
      segs := if ws[0].log == [] then [] else [Seg(ws[0].log, |Records(ws[0].log)|)];
      cached := segs;
      StartsInOrder(ws[0], segs);
    } else {
      cached, segs := OrderlyRun(ws, acts, i - 1);
      WalRunOk(ws, acts, i - 1);
      assert ws[i - 1 + 1] == WalNext(ws[i - 1], acts[i - 1]);
      hide WalOk;
      FileWhole(ws[i - 1]);
      cached, segs := OrderlyStep(ws[i - 1], cached, segs, acts[i - 1]);
    }
  }

  lemma FileWhole(w: Wal)
    requires WalOk(w)
    ensures FileOk(w.file)
  {
  }

  lemma StartsInOrder(w: Wal, segs: seq<Seg>)
    requires LogRegion(w.file.durable) == Records(w.log) && w.file.pending == [] && w.file.cache == w.file.durable
    requires segs == if w.log == [] then [] else [Seg(w.log, |Records(w.log)|)]
    ensures InOrder(w, segs, segs)
  {
    hide Records, LogRegion, Laid, Flat;
    CleanStart(w);
  }

  lemma StartsQuiet(ws: seq<Wal>, acts: seq<WalAction>)
    requires WalRun(ws, acts)
    ensures ws[0].file.pending == [] && ws[0].file.cache == ws[0].file.durable
  {
    hide Recover, LogRegion, WalEnabled, WalNext;
  }

  /** If no entry of the log is misread, none of a segment is. */
  lemma AllShowing(f: File, segs: seq<Seg>)
    requires SegShows(Flat(segs), 0)
    ensures RisksShow(f, segs)
  {
    hide Misread, Pending, Flat, TermBefore;
    forall i | 0 <= i < |segs| ensures SegShows(segs[i].es, TermBefore(segs, i)) { OneShowing(segs, i); }
  }

  lemma OneShowing(segs: seq<Seg>, i: nat)
    requires SegShows(Flat(segs), 0) && i < |segs|
    ensures SegShows(segs[i].es, TermBefore(segs, i))
  {
    hide Misread, Flat;
    var all, before, es := Flat(segs), Flat(segs[..i]), segs[i].es;
    FlatSplit(segs, i + 1);
    FlatAppend(segs, i);
    forall j: nat, c: nat | j < |es| ensures !Misread(es[j], LastOr(es[..j], TermBefore(segs, i)), c) {
      assert all[|before| + j] == es[j];
      assert all[..|before| + j] == before + es[..j];
      assert !Misread(all[|before| + j], LastOr(all[..|before| + j], 0), c);
    }
  }

  /**
   What the cluster's crash step assumes. A node starts from a disk that ends with its log, appends, cuts
   and rewrites it, while writes fail, overlap and complete in any order. If no cut is unsynced and no
   record is misread with its end a hole, what a crash leaves of its log is a prefix, not below the durable
   claim, of terms the hard state knows.
  */
  lemma CrashLeavesRecoverable(ws: seq<Wal>, acts: seq<WalAction>, i: nat, img: seq<byte>, hs: HardState)
    returns (kept: nat)
    requires WalRun(ws, acts) && i < |ws| && forall k :: 0 <= k < i ==> Orderly(acts[k])
    requires LogRegion(ws[0].file.durable) == Records(ws[0].log) && NoCutPending(ws[i].file)
    requires CrashImage(ws[i].file, img) && hs.term >= ws[i].durableTerm
    requires Chain(ws[i].log, 1, 0) && SegShows(ws[i].log, 0)
    ensures kept <= |ws[i].log| && Restarted(img, hs).log == ws[i].log[..kept]
    ensures forall n: Node ::
      n.log == ws[i].log && n.durableIndex == ws[i].durableIndex ==> Cluster.Recoverable(n, hs, kept)
  {
    hide Chain, SegShows, Recover, LogRegion, WalRun, CrashImage, Records, AppendedFile, RisksShow, Flat, Orderly, Seen;
    var log, all := ws[i].log, Recover(LogRegion(img), 1, 0);
    var cached, segs := OrderlyRun(ws, acts, i);
    AllShowing(ws[i].file, segs);
    PrefixComesBack(ws[i].file, segs, img);
    kept := LastIndexAtMost(all, hs.term);
    assert all[..kept] == log[..kept];
    DurableClaimsHold(ws, acts, i, img, hs);
    ChainPrefix(log, ws[i].durableIndex, 1, 0);
    assert forall k :: 0 <= k < kept ==> log[k] == all[k];
  }
}
