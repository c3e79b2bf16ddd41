/**
 Two snapshot files. A snapshot goes to the file that does not hold the newest completed one, one at a
 time, and what the log file loses it loses only to a completed one. So a crash at any moment leaves a
 snapshot that covers whatever is missing at the front of the log file, exactly when the newest completed
 snapshot reads back, or the other file has one that does and no unsynced write changes it. A snapshot
 taken here may be too long to be read back; the next one is then written over the only one that reads.
*/
module Snapshots {
  import opened Types
  import opened Codec
  import opened Crc32
  import opened LogFile
  import opened Disk

  datatype Snap = Snap(seqno: nat, index: nat, term: nat, data: seq<byte>)

  /** A snapshot longer than this is taken for corruption. */
  const MAX_SNAPSHOT: nat := 0x400_0000

  // ---- one file -----------------------------------------------------------------------

  function Payload(s: Snap): seq<byte> {
    LE(s.seqno, 8) + (LE(s.index, 8) + (LE(s.term, 8) + EncBytes(s.data)))
  }

  function EncSnap(s: Snap): seq<byte> {
    var p := Payload(s);
    LE(|p|, 4) + LE(Checksum(p), 4) + p
  }

  function ParseSnap(p: seq<byte>): Option<Snap> {
    match ParseU64(p)
    case Err(_) => None
    case Ok((seqno, s1)) =>
      match ParseU64(s1)
      case Err(_) => None
      case Ok((index, s2)) =>
        match ParseU64(s2)
        case Err(_) => None
        case Ok((term, s3)) =>
          match ParseBytes(s3)
          case Err(_) => None
          case Ok((data, _)) => Some(Snap(seqno, index, term, data))
  }

  function DecodeSnap(bytes: seq<byte>): Option<Snap> {
    if |bytes| < 8 then None
    else
      var len := FromLE(bytes[..4]);
      if len == 0 || len > MAX_SNAPSHOT || 8 + len > |bytes| then None
      else if Checksum(bytes[8..8 + len]) != FromLE(bytes[4..8]) then None
      else ParseSnap(bytes[8..8 + len])
  }

  predicate SnapTyped(s: Snap) { s.seqno < U64 && s.index < U64 && s.term < U64 }

  lemma PayloadSize(s: Snap)
    ensures |Payload(s)| == 28 + |s.data|
  {
  }

  lemma PayloadReads(s: Snap)
    requires SnapTyped(s)
    ensures ParseSnap(Payload(s)) == Some(s) <==> |s.data| <= MAX_FIELD
    ensures ParseSnap(Payload(s)).Some? ==>
      ParseSnap(Payload(s)) == Some(s) || |ParseSnap(Payload(s)).value.data| < |s.data|
  {
    hide LE, ParseU64, EncBytes, ParseBytes;
    var s3 := EncBytes(s.data);
    U64Reads(s.seqno, LE(s.index, 8) + (LE(s.term, 8) + s3));
    U64Reads(s.index, LE(s.term, 8) + s3);
    U64Reads(s.term, s3);
    BytesRead(s.data, []);
    assert s3 + [] == s3;
    FieldShort(s3);
  }

  lemma FieldShort(s: seq<byte>)
    ensures ParseBytes(s).Ok? ==> |ParseBytes(s).value.0| <= MAX_FIELD
  {
  }

  /** A snapshot file reads back, whatever lies behind it, exactly when its data is no longer than a field may be. */
  lemma SnapReads(s: Snap, rest: seq<byte>)
    requires SnapTyped(s)
    ensures DecodeSnap(EncSnap(s) + rest) == Some(s) <==> |s.data| <= MAX_FIELD
  {
    hide Payload, ParseSnap, Checksum, LE, FromLE;
    var p, bytes := Payload(s), EncSnap(s) + rest;
    PayloadSize(s);
    ThreeParts(LE(|p|, 4), LE(Checksum(p), 4), p, rest);
    Widths();
    FromLEOfLE(|p|, 4);
    FromLEOfLE(Checksum(p), 4);
    ChecksumFits(p);
    if |s.data| <= MAX_FIELD {
      assert bytes[8..8 + |p|] == p by { assert bytes[8..][..|p|] == p; }
      PayloadReads(s);
    } else {
      LongSnap(bytes);
    }
  }

  /** Whatever is read has data no longer than a field. */
  lemma LongSnap(bytes: seq<byte>)
    ensures DecodeSnap(bytes).Some? ==> |DecodeSnap(bytes).value.data| <= MAX_FIELD
  {
    hide Checksum, FromLE, ParseU64, ParseBytes;
    if |bytes| >= 8 {
      var len := FromLE(bytes[..4]);
      if 8 + len <= |bytes| { ParsedShort(bytes[8..8 + len]); }
    }
  }

  lemma ParsedShort(p: seq<byte>)
    ensures ParseSnap(p).Some? ==> |ParseSnap(p).value.data| <= MAX_FIELD
  {
    hide ParseU64, ParseBytes;
    if ParseU64(p).Ok? {
      var s1 := ParseU64(p).value.1;
      if ParseU64(s1).Ok? {
        var s2 := ParseU64(s1).value.1;
        if ParseU64(s2).Ok? { FieldShort(ParseU64(s2).value.1); }
      }
    }
  }

  /** A field over the limit is refused, not cut short. */
  lemma LongField(b: seq<byte>)
    requires MAX_FIELD < |b| < U32
    ensures ParseBytes(EncBytes(b)).Err?
  {
    hide LE;
    U32Reads(|b|, b);
  }

  /** A snapshot whose data is too long does not read back as anything. */
  lemma OversizedIsRefused(s: Snap)
    requires SnapTyped(s) && |s.data| > MAX_FIELD && 28 + |s.data| < U32
    ensures DecodeSnap(EncSnap(s)) == None
  {
    hide Payload, ParseSnap, Checksum, LE, FromLE;
    var p, bytes := Payload(s), EncSnap(s);
    PayloadSize(s);
    ThreeParts(LE(|p|, 4), LE(Checksum(p), 4), p, []);
    assert bytes + [] == bytes && p + [] == p;
    Widths();
    FromLEOfLE(|p|, 4);
    assert bytes[8..8 + |p|] == p;
    LongPayload(s);
  }

  lemma LongPayload(s: Snap)
    requires SnapTyped(s) && MAX_FIELD < |s.data| < U32
    ensures ParseSnap(Payload(s)) == None
  {
    hide LE, ParseU64, EncBytes, ParseBytes;
    var s3 := EncBytes(s.data);
    U64Reads(s.seqno, LE(s.index, 8) + (LE(s.term, 8) + s3));
    U64Reads(s.index, LE(s.term, 8) + s3);
    U64Reads(s.term, s3);
    LongField(s.data);
  }

  // ---- two files -------------------------------------------------------------------------

  /** Covered index first, the number of the write as tie-break. */
  predicate AtLeast(x: Snap, y: Snap) { x.index > y.index || (x.index == y.index && x.seqno >= y.seqno) }

  /** The better of the two that reads, and which file held it. */
  function Pick(a: seq<byte>, b: seq<byte>): Option<(Snap, File2)> {
    match (DecodeSnap(a), DecodeSnap(b))
    case (Some(x), Some(y)) => if AtLeast(x, y) then Some((x, A)) else Some((y, B))
    case (Some(x), None) => Some((x, A))
    case (None, Some(y)) => Some((y, B))
    case (None, None) => None
  }

  /** Whichever reads and reaches further; of two that reach as far the one written later, or the first of two alike. */
  lemma PickIsBest(a: seq<byte>, b: seq<byte>)
    ensures Pick(a, b).None? <==> DecodeSnap(a).None? && DecodeSnap(b).None?
    ensures Pick(a, b).Some? ==>
      var (x, f) := Pick(a, b).value; var other := DecodeSnap(if f.A? then b else a);
      && DecodeSnap(if f.A? then a else b) == Some(x)
      && (other.Some? ==> x.index >= other.value.index)
      && (other.Some? && x.index == other.value.index ==> x.seqno >= other.value.seqno)
      && (other.Some? && (x.index, x.seqno) == (other.value.index, other.value.seqno) ==> f.A?)
  {
    hide DecodeSnap;
  }

  datatype File2 = A | B

  /** How far the write in flight has come. */
  datatype Stage = Writing(failing: bool) | Synced

  datatype InFlight = InFlight(file: File2, snap: Snap, installed: bool, stage: Stage)

  /** `logStart`: the index of the first record in the log file. */
  datatype Store = Store(
    a: File, b: File, durableFile: Option<File2>, newest: Option<Snap>, flight: Option<InFlight>,
    compacted: nat, logStart: nat, nextSeq: nat, failed: bool)

  function FileAt(s: Store, f: File2): File { if f.A? then s.a else s.b }

  function WithFile(s: Store, f: File2, file: File): Store { if f.A? then s.(a := file) else s.(b := file) }

  /** Whichever file does not hold the newest completed snapshot. */
  function Target(s: Store): File2 { if s.durableFile == Some(A) then B else A }

  datatype StoreAction =
    | Take(index: nat, term: nat, data: seq<byte>, installed: bool, cutFails: bool, dataFails: bool)
    | SyncFlight
    | Complete(adopt: bool, replacesLog: bool)
    | Fail
    | Crash(imgA: seq<byte>, imgB: seq<byte>, reset: bool)

  /** An image's length fits the header's field, and the other fields their words. */
  predicate Sizable(s: Snap) { SnapTyped(s) && 28 + |s.data| < U32 }

  predicate Readable(s: Snap) { SnapTyped(s) && |s.data| <= MAX_FIELD }

  /**
   A snapshot is of an index not below the compaction point. One that was received came in a message,
   whose fields are within the limit; one taken here has any size. Only a received one may replace the log.
  */
  ghost predicate StoreEnabled(s: Store, a: StoreAction) {
    match a
    case Take(index, term, data, installed, _, _) =>
      var snap := Snap(s.nextSeq, index, term, data);
      s.flight.None? && !s.failed && index >= s.compacted && Sizable(snap) && (installed ==> Readable(snap))
    case SyncFlight => !s.failed && s.flight.Some? && s.flight.value.stage == Writing(false)
    case Complete(adopt, replacesLog) =>
      && !s.failed && s.flight.Some? && s.flight.value.stage == Synced
      && (replacesLog ==> adopt && s.flight.value.installed) && (!s.flight.value.installed ==> adopt)
    case Fail => s.flight.Some?
    case Crash(imgA, imgB, _) => CrashImage(s.a, imgA) && CrashImage(s.b, imgB)
  }

  function IssuedIf(f: File, w: WriteKind, fails: bool): File { if fails then f else Issued(f, w) }

  /** How far the better snapshot of the two reaches. */
  function Reached(imgA: seq<byte>, imgB: seq<byte>): nat {
    match Pick(imgA, imgB) case None => 0 case Some((snap, _)) => snap.index
  }

  /** The log file goes on behind the snapshot; one that begins above the next index is of no use. */
  predicate Joins(imgA: seq<byte>, imgB: seq<byte>, logStart: nat) { logStart <= Reached(imgA, imgB) + 1 }

  /** What a restart finds. A log file of no use, or one that has nothing above the snapshot, begins anew. */
  function Reopened(imgA: seq<byte>, imgB: seq<byte>, logStart: nat, reset: bool): Store {
    var files := (File(imgA, imgA, []), File(imgB, imgB, []));
    var start := if reset || !Joins(imgA, imgB, logStart) then Reached(imgA, imgB) + 1 else logStart;
    match Pick(imgA, imgB)
    case None => Store(files.0, files.1, None, None, None, 0, start, 1, false)
    case Some((snap, f)) => Store(files.0, files.1, Some(f), Some(snap), None, snap.index, start, snap.seqno + 1, false)
  }

  /** A restart has nothing under way, and numbers its next snapshot above the one it found. */
  lemma ReopenedFresh(imgA: seq<byte>, imgB: seq<byte>, logStart: nat, reset: bool)
    ensures var s := Reopened(imgA, imgB, logStart, reset);
      && s.flight.None? && !s.failed && s.nextSeq > 0
      && (s.newest.Some? ==> s.nextSeq == s.newest.value.seqno + 1 && s.compacted == s.newest.value.index)
      && s.newest == (if Pick(imgA, imgB).Some? then Some(Pick(imgA, imgB).value.0) else None)
  {
    hide DecodeSnap, Pick;
  }

  function StoreNext(s: Store, a: StoreAction): Store {
    match a
    case Take(index, term, data, installed, cutFails, dataFails) =>
      var f := Target(s);
      var snap := Snap(s.nextSeq, index, term, data);
      var cut := IssuedIf(FileAt(s, f), SetLen(0), cutFails);
      var written := IssuedIf(cut, Data(0, EncSnap(snap)), dataFails);
      WithFile(s, f, written).(nextSeq := s.nextSeq + 1,
                               flight := Some(InFlight(f, snap, installed, Writing(cutFails || dataFails))))
    case SyncFlight =>
      if s.flight.None? then s
      else
        var fl := s.flight.value;
        WithFile(s, fl.file, Disk.Synced(FileAt(s, fl.file))).(flight := Some(fl.(stage := Stage.Synced)))
    case Complete(adopt, replacesLog) =>
      if s.flight.None? then s
      else
        var fl := s.flight.value;
        s.(durableFile := Some(fl.file), newest := Some(fl.snap), flight := None,
           compacted := if adopt && fl.snap.index > s.compacted then fl.snap.index else s.compacted,
           logStart := if replacesLog then fl.snap.index + 1 else s.logStart)
    case Fail => s.(flight := None, failed := true)
    case Crash(imgA, imgB, reset) => Reopened(imgA, imgB, s.logStart, reset)
  }

  // ---- what every step keeps --------------------------------------------------------------

  /** The snapshot is what the file's durable bytes hold, and nothing unsynced can touch it. */
  ghost predicate SafeIn(f: File, s: Snap) {
    && f.pending == [] && Sizable(s)
    && if Readable(s) then DecodeSnap(f.durable) == Some(s) else f.durable == EncSnap(s)
  }

  /** What a snapshot on its way can leave unsynced: its cut, its data, either or both. */
  ghost predicate OneWrite(f: File) {
    || f.pending == [] || f.pending == [SetLen(0)]
    || exists s :: Sizable(s) && (f.pending == [Data(0, EncSnap(s))] || f.pending == [SetLen(0), Data(0, EncSnap(s))])
  }

  ghost predicate StoreOk(s: Store) {
    && FileOk(s.a) && FileOk(s.b) && OneWrite(s.a) && OneWrite(s.b)
    && (s.flight.None? && !s.failed ==> s.a.pending == [] && s.b.pending == [])
    && (s.flight.Some? ==> FileAt(s, if s.flight.value.file.A? then B else A).pending == [])
    && (s.durableFile.Some? <==> s.newest.Some?)
    && (s.newest.None? ==> s.compacted == 0)
    && 1 <= s.logStart <= s.compacted + 1
    && (s.newest.Some? ==>
        SafeIn(FileAt(s, s.durableFile.value), s.newest.value) && s.newest.value.index >= s.compacted)
    && (s.flight.Some? ==>
          var fl := s.flight.value;
          && s.durableFile != Some(fl.file) && Sizable(fl.snap) && fl.snap.index >= s.compacted
          && (fl.stage == Stage.Synced ==> SafeIn(FileAt(s, fl.file), fl.snap))
          && (fl.stage == Writing(false) ==> FileAt(s, fl.file).cache == EncSnap(fl.snap)))
  }

  lemma {:induction false} NothingPending(f: File, img: seq<byte>)
    requires CrashImage(f, img) && f.pending == []
    ensures img == f.durable
  {
    var order: seq<WriteKind>, fates: seq<Fate> :|
      multiset(order) == multiset(f.pending) && |fates| == |order| && img == Resolve(f.durable, order, fates);
    assert |order| == |multiset(order)| == 0;
  }

  /** After truncation to nothing, what is written is the whole file. */
  lemma WrittenWhole(buf: seq<byte>, bytes: seq<byte>)
    ensures Applied(Applied(buf, SetLen(0)), Data(0, bytes)) == bytes
  {
  }

  lemma TakeKeeps(s: Store, a: StoreAction)
    requires StoreOk(s) && StoreEnabled(s, a) && a.Take?
    ensures StoreOk(StoreNext(s, a))
  {
    hide Applied, EncSnap, DecodeSnap;
    var f := Target(s);
    var snap := Snap(s.nextSeq, a.index, a.term, a.data);
    var was := FileAt(s, f);
    var cut := IssuedIf(was, SetLen(0), a.cutFails);
    IssueKeepsFile(was, SetLen(0));
    IssueKeepsFile(cut, Data(0, EncSnap(snap)));
    WrittenWhole(was.cache, EncSnap(snap));
  }

  lemma WrittenReads(s: Snap)
    requires Sizable(s)
    ensures DecodeSnap(EncSnap(s)) == if Readable(s) then Some(s) else None
  {
    hide DecodeSnap, EncSnap;
    if Readable(s) {
      SnapReads(s, []);
      assert EncSnap(s) + [] == EncSnap(s);
    } else {
      OversizedIsRefused(s);
    }
  }

  lemma SyncKeeps(s: Store)
    requires StoreOk(s) && StoreEnabled(s, SyncFlight)
    ensures StoreOk(StoreNext(s, SyncFlight))
  {
    hide DecodeSnap, EncSnap;
    WrittenReads(s.flight.value.snap);
  }

  /** What is read is readable. */
  lemma DecodedReadable(bytes: seq<byte>)
    ensures DecodeSnap(bytes).Some? ==> Readable(DecodeSnap(bytes).value) && Sizable(DecodeSnap(bytes).value)
  {
    hide Checksum, FromLE, ParseSnap;
    LongSnap(bytes);
    if |bytes| >= 8 {
      var len := FromLE(bytes[..4]);
      if 8 + len <= |bytes| { ParsedTyped(bytes[8..8 + len]); }
    }
  }

  lemma ParsedTyped(p: seq<byte>)
    ensures ParseSnap(p).Some? ==> SnapTyped(ParseSnap(p).value)
  {
    hide ParseU64, ParseBytes;
    IntParsed(p);
    if ParseU64(p).Ok? {
      var s1 := ParseU64(p).value.1;
      IntParsed(s1);
      if ParseU64(s1).Ok? { IntParsed(ParseU64(s1).value.1); }
    }
  }

  lemma ReopenedOk(imgA: seq<byte>, imgB: seq<byte>, logStart: nat, reset: bool)
    requires logStart >= 1
    ensures StoreOk(Reopened(imgA, imgB, logStart, reset))
  {
    hide DecodeSnap, EncSnap;
    DecodedReadable(imgA);
    DecodedReadable(imgB);
  }

  lemma StoreStepOk(s: Store, a: StoreAction)
    requires StoreOk(s) && StoreEnabled(s, a)
    ensures StoreOk(StoreNext(s, a))
  {
    hide DecodeSnap, EncSnap, Applied, Disk.Synced;
    match a {
      case Take(_, _, _, _, _, _) => TakeKeeps(s, a);
      case SyncFlight => SyncKeeps(s);
      case Complete(_, _) =>
      case Fail =>
      case Crash(imgA, imgB, reset) => ReopenedOk(imgA, imgB, s.logStart, reset);
    }
  }

  ghost predicate StoreRun(ss: seq<Store>, acts: seq<StoreAction>) {
    && |ss| == |acts| + 1
    && (exists imgA, imgB, logStart: nat, reset :: logStart >= 1 && ss[0] == Reopened(imgA, imgB, logStart, reset))
    && forall i :: 0 <= i < |acts| ==> StoreEnabled(ss[i], acts[i]) && ss[i + 1] == StoreNext(ss[i], acts[i])
  }

  lemma {:induction false} StoreRunOk(ss: seq<Store>, acts: seq<StoreAction>, i: nat)
    requires StoreRun(ss, acts) && i < |ss|
    ensures StoreOk(ss[i])
    decreases i
  {
    hide StoreOk, StoreEnabled, StoreNext, Reopened;
    if i == 0 {
      var imgA, imgB, logStart: nat, reset :| logStart >= 1 && ss[0] == Reopened(imgA, imgB, logStart, reset);
      ReopenedOk(imgA, imgB, logStart, reset);
    } else {
      StoreRunOk(ss, acts, i - 1);
      assert ss[i - 1 + 1] == StoreNext(ss[i - 1], acts[i - 1]);
      StoreStepOk(ss[i - 1], acts[i - 1]);
    }
  }

  // ---- what a crash leaves ----------------------------------------------------------------------

  /** Every image a crash could leave has a snapshot that reaches `b`. */
  ghost predicate Covers(s: Store, b: nat) {
    forall imgA, imgB :: CrashImage(s.a, imgA) && CrashImage(s.b, imgB) ==> Reached(imgA, imgB) >= b
  }

  /** From every image a crash could leave, the log file joins on to the snapshot. */
  ghost predicate NothingLost(s: Store) {
    forall imgA, imgB :: CrashImage(s.a, imgA) && CrashImage(s.b, imgB) ==> Joins(imgA, imgB, s.logStart)
  }

  function OtherFile(s: Store): File { FileAt(s, Target(s)) }

  predicate Reaches(bytes: seq<byte>, b: nat) { DecodeSnap(bytes).Some? && DecodeSnap(bytes).value.index >= b }

  /** Nothing is unsynced, or the bytes to be written are those that are there. */
  predicate Untouched(f: File) {
    f.pending == []
      || (|f.pending| == 1 && f.pending[0].Data? && f.pending[0].offset == 0 && f.pending[0].bytes <= f.durable)
  }

  /**
   The file that does not hold the newest completed snapshot has one that reaches `b`, which no
   unsynced write changes.
  */
  predicate Backup(s: Store, b: nat) { Reaches(OtherFile(s).durable, b) && Untouched(OtherFile(s)) }

  /** A snapshot as it was written, perhaps with the end of a longer one behind it. */
  ghost predicate AsWritten(bytes: seq<byte>) { exists y, rest :: Sizable(y) && bytes == EncSnap(y) + rest }

  /** The newest completed snapshot, if it reads, is in every image; the better of the two reaches as far. */
  lemma NewestCovers(s: Store, imgA: seq<byte>, imgB: seq<byte>)
    requires StoreOk(s) && s.newest.Some? && Readable(s.newest.value) && CrashImage(s.a, imgA) && CrashImage(s.b, imgB)
    ensures Pick(imgA, imgB).Some? && AtLeast(Pick(imgA, imgB).value.0, s.newest.value)
  {
    hide DecodeSnap, EncSnap, CrashImage, OneWrite;
    if s.durableFile == Some(A) { NothingPending(s.a, imgA); } else { NothingPending(s.b, imgB); }
  }

  lemma {:induction false} AllLost(buf: seq<byte>, ws: seq<WriteKind>)
    ensures Resolve(buf, ws, seq(|ws|, _ => Lost)) == buf
  {
    if |ws| > 0 {
      AllLost(buf, ws[..|ws| - 1]);
      assert seq(|ws|, _ => Lost)[..|ws| - 1] == seq(|ws| - 1, _ => Lost);
    }
  }

  lemma DurableIsCrashImage(f: File)
    ensures CrashImage(f, f.durable)
  {
    AllLost(f.durable, f.pending);
  }

  // ---- one file under a write ------------------------------------------------------------------------

  /** Some crash leaves nothing readable in the file. */
  ghost predicate CanBeLost(f: File) { exists img :: CrashImage(f, img) && DecodeSnap(img) == None }

  lemma WriteOne(f: File, fate: Fate)
    requires |f.pending| == 1
    ensures CrashImage(f, Resolve1(f.durable, f.pending[0], fate))
  {
    assert f.pending == [f.pending[0]];
    ResolveOne(f.durable, f.pending[0], [fate]);
  }

  lemma WriteTwo(f: File, first: Fate, second: Fate)
    requires |f.pending| == 2
    ensures CrashImage(f, Resolve1(Resolve1(f.durable, f.pending[0], first), f.pending[1], second))
  {
    var v, w := f.pending[0], f.pending[1];
    assert f.pending == [v, w] && [v, w][..1] == [v] && [first, second][..1] == [first];
    ResolveOne(f.durable, v, [first]);
    assert Resolve(f.durable, [v, w], [first, second]) == Resolve1(Resolve1(f.durable, v, first), w, second);
  }

  lemma NothingReads(bytes: seq<byte>)
    requires |bytes| < 8
    ensures DecodeSnap(bytes) == None
  {
  }

  /** A cut that lands alone leaves an empty file. */
  lemma CutLoses(f: File)
    requires |f.pending| in {1, 2} && f.pending[0] == SetLen(0)
    ensures CanBeLost(f)
  {
    hide DecodeSnap;
    NothingReads([]);
    if |f.pending| == 1 { WriteOne(f, Landed); } else { WriteTwo(f, Landed, Lost); }
    assert CrashImage(f, []);
  }

  /** The last byte in which two sequences of one length differ. */
  lemma {:induction false} LastDifference(a: seq<byte>, b: seq<byte>) returns (d: nat)
    requires |a| == |b| && a != b
    ensures d < |a| && a[d] != b[d] && a[d + 1..] == b[d + 1..]
    decreases |a|
  {
    var n := |a| - 1;
    if a[n] != b[n] {
      d := n;
    } else {
      assert a == a[..n] + [a[n]] && b == b[..n] + [b[n]];
      d := LastDifference(a[..n], b[..n]);
      assert a[d + 1..] == a[..n][d + 1..] + [a[n]] && b[d + 1..] == b[..n][d + 1..] + [b[n]];
    }
  }

  lemma EncParts(s: Snap)
    requires Sizable(s)
    ensures var e, p := EncSnap(s), Payload(s);
      |e| == 8 + |p| && FromLE(e[..4]) == |p| && FromLE(e[4..8]) == Checksum(p) && e[8..] == p && |p| == 28 + |s.data|
  {
    hide Payload, Checksum, LE, FromLE;
    var p, e := Payload(s), EncSnap(s);
    PayloadSize(s);
    ThreeParts(LE(|p|, 4), LE(Checksum(p), 4), p, []);
    assert e + [] == e && p + [] == p;
    Widths();
    FromLEOfLE(|p|, 4);
    FromLEOfLE(Checksum(p), 4);
    ChecksumFits(p);
  }

  /** Where the data's length is in what was written. */
  lemma LengthPlace(s: Snap)
    requires Sizable(s)
    ensures |Payload(s)| == 28 + |s.data| && FromLE(Payload(s)[24..28]) == |s.data|
  {
    hide LE, FromLE;
    PayloadSize(s);
    Widths();
    assert Payload(s)[24..28] == LE(|s.data|, 4);
    FromLEOfLE(|s.data|, 4);
  }

  /** Two images whose payloads agree as far as the first goes are the same image. */
  lemma SamePayload(s: Snap, y: Snap, rest: seq<byte>)
    requires Sizable(s) && Sizable(y) && |EncSnap(s)| <= |EncSnap(y) + rest|
    requires (EncSnap(y) + rest)[8..|EncSnap(s)|] == Payload(s)
    ensures EncSnap(s) == EncSnap(y)
  {
    hide EncSnap, Payload, LE, FromLE, Checksum;
    EncParts(s);
    EncParts(y);
    LengthPlace(s);
    LengthPlace(y);
    var bytes := EncSnap(y) + rest;
    SliceOfSlice(bytes, 8, |EncSnap(s)|, 24, 28);
    SliceOfSlice(EncSnap(y), 8, |EncSnap(y)|, 24, 28);
    assert bytes[32..36] == EncSnap(y)[32..36];
    assert EncSnap(y)[8..|EncSnap(y)|] == Payload(y);
    assert Payload(s)[24..28] == Payload(y)[24..28];
    assert |Payload(s)| == |Payload(y)|;
    assert bytes[8..|EncSnap(s)|] == EncSnap(y)[8..];
    EncIs(s);
    EncIs(y);
  }

  lemma SliceOfSlice(s: seq<byte>, a: nat, b: nat, c: nat, d: nat)
    requires a <= b <= |s| && c <= d <= b - a
    ensures s[a..b][c..d] == s[a + c..a + d]
  {
    var t, u := s[a..b][c..d], s[a + c..a + d];
    assert |t| == |u|;
    forall k | 0 <= k < |t| ensures t[k] == u[k] { assert t[k] == s[a..b][c + k] == s[a + c + k]; }
  }

  lemma EncIs(s: Snap)
    ensures EncSnap(s) == LE(|Payload(s)|, 4) + LE(Checksum(Payload(s)), 4) + Payload(s)
  {
  }

  lemma Front(buf: seq<byte>, part: seq<byte>)
    ensures Applied(buf, Data(0, part)) == part + (if |part| <= |buf| then buf[|part|..] else [])
  {
  }

  /** A file too short for the image: all but its last byte leave an image that is cut short. */
  lemma ShortFileLoses(buf: seq<byte>, s: Snap)
    requires Sizable(s) && |buf| < |EncSnap(s)|
    ensures 0 < |EncSnap(s)| - 1 && DecodeSnap(Applied(buf, Data(0, EncSnap(s)[..|EncSnap(s)| - 1]))) == None
  {
    hide EncSnap, Payload, Checksum, FromLE, Applied;
    EncParts(s);
    var e := EncSnap(s);
    var part := e[..|e| - 1];
    Front(buf, part);
    var img := Applied(buf, Data(0, part));
    assert |img| == |e| - 1 && img[..4] == e[..4];
  }

  /** One byte of the payload missing, and the rest of it there: the checksum does not match. */
  lemma ByteMissingLoses(buf: seq<byte>, s: Snap) returns (keep: nat)
    requires Sizable(s) && |EncSnap(s)| <= |buf| && buf[8..|EncSnap(s)|] != Payload(s)
    ensures 0 < keep <= |EncSnap(s)| && DecodeSnap(Applied(buf, Data(0, EncSnap(s)[..keep]))) == None
  {
    hide EncSnap, Payload, Checksum, FromLE, Applied;
    EncParts(s);
    var e, p := EncSnap(s), Payload(s);
    var was := buf[8..|e|];
    var d := LastDifference(was, p);
    keep := 8 + d;
    var part := e[..keep];
    Front(buf, part);
    var img := Applied(buf, Data(0, part));
    assert img == part + buf[keep..];
    assert img[..4] == e[..4] && img[4..8] == e[4..8];
    MixedPayload(buf, e, p, d);
    OneByteChangesChecksum(p, img[8..|e|], d);
  }

  lemma MixedPayload(buf: seq<byte>, e: seq<byte>, p: seq<byte>, d: nat)
    requires |e| == 8 + |p| && e[8..] == p && |e| <= |buf| && d < |p|
    requires buf[8..|e|][d] != p[d] && buf[8..|e|][d + 1..] == p[d + 1..]
    ensures DifferOnlyAt(p, (e[..8 + d] + buf[8 + d..])[8..|e|], d)
  {
    var was, img := buf[8..|e|], e[..8 + d] + buf[8 + d..];
    forall j | 0 <= j < |p| ensures img[8..|e|][j] == if j < d then p[j] else was[j] {
      if j < d { assert e[8..][j] == e[8 + j]; }
    }
    forall j | d < j < |p| ensures was[j] == p[j] { assert was[d + 1..][j - d - 1] == p[d + 1..][j - d - 1]; }
  }

  /** Data written over another snapshot, whose cut the disk refused, can be torn so that neither reads. */
  lemma DataLoses(f: File, s: Snap)
    requires Sizable(s) && f.pending == [Data(0, EncSnap(s))] && AsWritten(f.durable) && !(EncSnap(s) <= f.durable)
    ensures CanBeLost(f)
  {
    hide EncSnap, DecodeSnap, Applied, Payload, Resolve, CrashImage;
    var e := EncSnap(s);
    if |f.durable| < |e| {
      ShortFileLoses(f.durable, s);
      WriteOne(f, Torn(|e| - 1));
    } else {
      var y, rest :| Sizable(y) && f.durable == EncSnap(y) + rest;
      EncParts(s);
      if f.durable[8..|e|] == Payload(s) { SamePayload(s, y, rest); }
      var keep := ByteMissingLoses(f.durable, s);
      WriteOne(f, Torn(keep));
    }
  }

  lemma {:induction false} UntouchedStays(f: File, img: seq<byte>)
    requires Untouched(f) && CrashImage(f, img)
    ensures img == f.durable
  {
    if f.pending == [] {
      NothingPending(f, img);
    } else {
      var order: seq<WriteKind>, fates: seq<Fate> :|
        multiset(order) == multiset(f.pending) && |fates| == |order| && img == Resolve(f.durable, order, fates);
      var w := f.pending[0];
      assert f.pending == [w] && |order| == |multiset(order)| == 1 && order[0] in multiset(order);
      assert order[0] == w && order == [w];
      ResolveOne(f.durable, w, fates);
      OverSame(f.durable, w, fates[0]);
    }
  }

  lemma ResolveOne(buf: seq<byte>, w: WriteKind, fates: seq<Fate>)
    requires |fates| == 1
    ensures Resolve(buf, [w], fates) == Resolve1(buf, w, fates[0])
  {
    assert [w][..0] == [] && fates[..0] == [];
  }

  lemma OverSame(buf: seq<byte>, w: WriteKind, fate: Fate)
    requires w.Data? && w.offset == 0 && w.bytes <= buf
    ensures Resolve1(buf, w, fate) == buf
  {
    hide Applied;
    Front(buf, w.bytes);
    if fate.Torn? && fate.keep <= |w.bytes| { Front(buf, w.bytes[..fate.keep]); }
  }

  /** Whatever is unsynced over a snapshot that reads can lose it, unless it changes nothing. */
  lemma TouchedCanBeLost(f: File)
    requires OneWrite(f) && !Untouched(f) && (|f.pending| == 1 && f.pending[0].Data? ==> AsWritten(f.durable))
    ensures CanBeLost(f)
  {
    hide EncSnap, DecodeSnap;
    if f.pending[0].SetLen? {
      CutLoses(f);
    } else {
      var s :| Sizable(s) && f.pending == [Data(0, EncSnap(s))];
      DataLoses(f, s);
    }
  }

  // ---- both files ---------------------------------------------------------------------------------------

  /** `x` in the other file and `y` in the newest one's. */
  function Both(s: Store, x: seq<byte>, y: seq<byte>): (seq<byte>, seq<byte>) {
    if Target(s).A? then (x, y) else (y, x)
  }

  lemma OtherDecides(s: Store, x: seq<byte>, b: nat)
    requires StoreOk(s) && s.newest.Some? && !Readable(s.newest.value) && 0 < b && CrashImage(OtherFile(s), x)
    requires !Reaches(x, b)
    ensures !Covers(s, b)
  {
    hide DecodeSnap, EncSnap, CrashImage, OneWrite;
    WrittenReads(s.newest.value);
    var y := FileAt(s, s.durableFile.value).durable;
    DurableIsCrashImage(FileAt(s, s.durableFile.value));
    var imgs := Both(s, x, y);
    assert CrashImage(s.a, imgs.0) && CrashImage(s.b, imgs.1);
    assert Reached(imgs.0, imgs.1) < b;
  }

  /**
   A point is covered through every crash exactly when the newest completed snapshot, which reaches it,
   reads back, or the other file has one that reaches it and that no unsynced write changes.
  */
  lemma CoversIff(s: Store, b: nat)
    requires StoreOk(s) && s.newest.Some? && 0 < b <= s.newest.value.index
    requires |OtherFile(s).pending| == 1 && OtherFile(s).pending[0].Data? ==> AsWritten(OtherFile(s).durable)
    ensures Covers(s, b) <==> Readable(s.newest.value) || Backup(s, b)
  {
    hide DecodeSnap, EncSnap, CrashImage, OneWrite, Untouched, AsWritten;
    var f := OtherFile(s);
    if Readable(s.newest.value) {
      ReadableCovers(s, b);
    } else if !Reaches(f.durable, b) {
      DurableIsCrashImage(f);
      OtherDecides(s, f.durable, b);
    } else if !Untouched(f) {
      ShapeOf(s);
      TouchedCanBeLost(f);
      var x :| CrashImage(f, x) && DecodeSnap(x) == None;
      OtherDecides(s, x, b);
    } else {
      BackupCovers(s, b);
    }
  }

  lemma ShapeOf(s: Store)
    requires StoreOk(s)
    ensures OneWrite(OtherFile(s))
  {
    hide OneWrite;
  }

  lemma BackupCovers(s: Store, b: nat)
    requires Backup(s, b)
    ensures Covers(s, b)
  {
    hide DecodeSnap, CrashImage, Untouched;
    forall imgA, imgB | CrashImage(s.a, imgA) && CrashImage(s.b, imgB) ensures Reached(imgA, imgB) >= b {
      UntouchedStays(OtherFile(s), if Target(s).A? then imgA else imgB);
    }
  }

  lemma ReadableCovers(s: Store, b: nat)
    requires StoreOk(s) && s.newest.Some? && b <= s.newest.value.index && Readable(s.newest.value)
    ensures Covers(s, b)
  {
    hide DecodeSnap, EncSnap, CrashImage, OneWrite;
    forall imgA, imgB | CrashImage(s.a, imgA) && CrashImage(s.b, imgB) ensures Reached(imgA, imgB) >= b {
      NewestCovers(s, imgA, imgB);
    }
  }

  lemma JoinsIsCovers(s: Store)
    requires s.logStart >= 1
    ensures NothingLost(s) <==> Covers(s, s.logStart - 1)
  {
    hide CrashImage, Reached;
    if NothingLost(s) {
      forall imgA, imgB | CrashImage(s.a, imgA) && CrashImage(s.b, imgB) ensures Reached(imgA, imgB) >= s.logStart - 1 {
        assert Joins(imgA, imgB, s.logStart);
      }
    }
  }

  /**
   Through any run: one write in flight at most, never over the newest completed snapshot. No crash loses
   anything exactly while the log file begins at the first entry, or the newest completed snapshot reads
   back, or the other file has a snapshot the log file joins on to and no unsynced write changes it. (Data
   on its way without its cut is written over a snapshot as this code writes them.)
  */
  lemma CompactedNeverLost(ss: seq<Store>, acts: seq<StoreAction>, i: nat)
    requires StoreRun(ss, acts) && i < |ss|
    requires |OtherFile(ss[i]).pending| == 1 && OtherFile(ss[i]).pending[0].Data? ==>
      AsWritten(OtherFile(ss[i]).durable)
    ensures ss[i].flight.Some? ==> ss[i].durableFile != Some(ss[i].flight.value.file)
    ensures 1 <= ss[i].logStart && (ss[i].logStart > 1 ==> ss[i].newest.Some?)
    ensures NothingLost(ss[i]) <==>
      ss[i].logStart == 1 || Readable(ss[i].newest.value) || Backup(ss[i], ss[i].logStart - 1)
  {
    hide DecodeSnap, EncSnap, CrashImage, StoreRun, Reached, Covers, NothingLost, OneWrite, Backup, AsWritten;
    StoreRunOk(ss, acts, i);
    var s := ss[i];
    JoinsIsCovers(s);
    if s.logStart == 1 { NothingToCover(s); } else { CoversIff(s, s.logStart - 1); }
  }

  lemma NothingToCover(s: Store)
    ensures Covers(s, 0)
  {
  }

  // ---- a run that loses everything ------------------------------------------------------------------

  /** A write that neither fails nor is interrupted leaves the image alone in its file. */
  lemma WritesImage(s: Store, index: nat, term: nat, data: seq<byte>, installed: bool)
    requires StoreOk(s) && StoreEnabled(s, Take(index, term, data, installed, false, false))
    ensures StoreEnabled(StoreNext(s, Take(index, term, data, installed, false, false)), SyncFlight)
    ensures
      var snap := Snap(s.nextSeq, index, term, data);
      StoreNext(StoreNext(s, Take(index, term, data, installed, false, false)), SyncFlight)
      == WithFile(s, Target(s), File(EncSnap(snap), EncSnap(snap), []))
         .(nextSeq := s.nextSeq + 1, flight := Some(InFlight(Target(s), snap, installed, Stage.Synced)))
  {
    hide EncSnap, Applied, AppliedAll;
    var f := Target(s);
    var snap := Snap(s.nextSeq, index, term, data);
    var was := FileAt(s, f);
    IssueKeepsFile(was, SetLen(0));
    IssueKeepsFile(Issued(was, SetLen(0)), Data(0, EncSnap(snap)));
    WrittenWhole(was.cache, EncSnap(snap));
  }

  /** An empty disk. */
  function NoSnapshots(): Store { Store(File([], [], []), File([], [], []), None, None, None, 0, 1, 1, false) }

  lemma StartsEmpty()
    ensures Reopened([], [], 1, false) == NoSnapshots()
  {
    hide Checksum;
  }

  /**
   A received snapshot replaces the log, which goes on behind it. One snapshot taken here, too long to be
   read back, completes in the other file, and an ordinary one is begun over the received one: if a crash
   lets its cut land and loses its data, no snapshot is left, and a log file that begins in the middle.
  */
  lemma OneOversizedLosesAll(small: seq<byte>, big: seq<byte>, next: seq<byte>)
    returns (ss: seq<Store>, acts: seq<StoreAction>, imgA: seq<byte>, imgB: seq<byte>)
    requires |small| <= MAX_FIELD && MAX_FIELD < |big| < U32 - 28 && |next| <= MAX_FIELD
    ensures StoreRun(ss, acts) && |acts| == 7 && ss[7].compacted == 200 && ss[7].logStart == 101
    ensures CrashImage(ss[7].a, imgA) && CrashImage(ss[7].b, imgB)
    ensures Pick(imgA, imgB) == None && !Joins(imgA, imgB, ss[7].logStart)
  {
    hide EncSnap, DecodeSnap, CrashImage, AppliedAll, Applied, OneWrite;
    var s0 := NoSnapshots();
    StartsEmpty();
    ReopenedOk([], [], 1, false);
    var take1 := Take(100, 1, small, true, false, false);
    WritesImage(s0, 100, 1, small, true);
    var s1 := StoreNext(s0, take1);
    var s2 := StoreNext(s1, SyncFlight);
    StoreStepOk(s0, take1);
    StoreStepOk(s1, SyncFlight);
    StoreStepOk(s2, Complete(true, true));
    var s3 := StoreNext(s2, Complete(true, true));
    var take2 := Take(200, 1, big, false, false, false);
    WritesImage(s3, 200, 1, big, false);
    var s4 := StoreNext(s3, take2);
    var s5 := StoreNext(s4, SyncFlight);
    StoreStepOk(s3, take2);
    StoreStepOk(s4, SyncFlight);
    var s6 := StoreNext(s5, Complete(true, false));
    var take3 := Take(300, 1, next, false, false, false);
    var s7 := StoreNext(s6, take3);
    ss := [s0, s1, s2, s3, s4, s5, s6, s7];
    acts := [take1, SyncFlight, Complete(true, true), take2, SyncFlight, Complete(true, false), take3];
    imgA, imgB := [], s7.b.durable;
    NothingReads([]);
    WriteTwo(s7.a, Landed, Lost);
    CutToNothing(s7.a.durable);
    DurableIsCrashImage(s7.b);
    WrittenReads(Snap(2, 200, 1, big));
  }

  lemma CutToNothing(buf: seq<byte>)
    ensures Applied(buf, SetLen(0)) == []
  {
  }
}
