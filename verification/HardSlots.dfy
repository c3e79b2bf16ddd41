/**
 The hard state's two slots. Writes alternate between them by their numbers, whether or not the disk
 takes them. The newest durable state survives every crash exactly while no unsynced write is for its
 slot, and that is not a matter of how many are unsynced: after a refused write, one is enough.
*/
module HardSlots {
  import opened Types
  import opened RaftSpec
  import opened Codec
  import opened Crc32
  import opened LogFile
  import opened Disk
  import opened Durability

  /** How "no vote" is written. */
  const NO_VOTE: nat := 0xFFFF_FFFF

  const BODY: nat := 20

  function Body(hs: HardState): (s: seq<byte>)
    ensures |s| == BODY
  {
    LE(hs.seqno, 8) + LE(hs.term, 8) + LE(if hs.votedFor.Some? then hs.votedFor.value else NO_VOTE, 4)
  }

  function Sum(b: seq<byte>): (s: seq<byte>)
    ensures |s| == 4
  {
    LE(Checksum(b), 4)
  }

  function SlotOf(hs: HardState): SlotBytes {
    hide LE, Checksum, Zeros;
    Body(hs) + Sum(Body(hs)) + Zeros(SLOT_SIZE - BODY - 4)
  }

  function SlotOffset(seqno: nat): nat { (seqno % 2) * SLOT_SIZE }

  function ReadSlot(slot: seq<byte>): Option<HardState> {
    if |slot| < SLOT_SIZE || Checksum(slot[..BODY]) != FromLE(slot[BODY..BODY + 4]) then None
    else
      var vote := FromLE(slot[16..20]);
      Some(HardState(FromLE(slot[8..16]), if vote == NO_VOTE then None else Some(vote), FromLE(slot[..8])))
  }

  predicate HardTyped(hs: HardState) {
    hs.term < U64 && hs.seqno < U64 && (hs.votedFor.Some? ==> hs.votedFor.value < U32)
  }

  lemma SlotParts(hs: HardState)
    ensures var s := SlotOf(hs); var b := Body(hs);
      && s[..BODY] == b && s[BODY..BODY + 4] == LE(Checksum(b), 4) && s[..8] == LE(hs.seqno, 8)
        && s[8..16] == LE(hs.term, 8)
      && s[16..20] == LE(if hs.votedFor.Some? then hs.votedFor.value else NO_VOTE, 4)
  {
    hide LE, Checksum;
  }

  /** A slot reads back as it was written, unless its vote is for the node number that stands for no vote. */
  lemma SlotReads(hs: HardState)
    requires HardTyped(hs)
    ensures ReadSlot(SlotOf(hs)) == Some(hs) <==> hs.votedFor != Some(NO_VOTE)
  {
    hide Checksum, SlotOf, Body, LE, FromLE;
    SlotParts(hs);
    Widths();
    FromLEOfLE(Checksum(Body(hs)), 4);
    ChecksumFits(Body(hs));
    FromLEOfLE(hs.seqno, 8);
    FromLEOfLE(hs.term, 8);
    FromLEOfLE(if hs.votedFor.Some? then hs.votedFor.value else NO_VOTE, 4);
  }

  function SlotAt(bytes: seq<byte>, i: nat): Option<HardState> {
    if (i + 1) * SLOT_SIZE > |bytes| then None else ReadSlot(bytes[i * SLOT_SIZE..(i + 1) * SLOT_SIZE])
  }

  function Newer(best: HardState, slot: Option<HardState>): HardState {
    match slot case None => best case Some(hs) => if hs.seqno >= best.seqno then hs else best
  }

  const BLANK := HardState(0, None, 0)

  function NewestHard(bytes: seq<byte>): HardState { Newer(Newer(BLANK, SlotAt(bytes, 0)), SlotAt(bytes, 1)) }

  method RecoverHardState(bytes: seq<byte>) returns (best: HardState)
    ensures best == NewestHard(bytes)
  {
    hide ReadSlot;
    best := BLANK;
    for i := 0 to 2
      invariant best == (if i == 0 then BLANK else if i == 1 then Newer(BLANK, SlotAt(bytes, 0)) else NewestHard(bytes))
    {
      var start := i * SLOT_SIZE;
      if start + SLOT_SIZE <= |bytes| {
        var got := ReadSlot(bytes[start..start + SLOT_SIZE]);
        if got.Some? && got.value.seqno >= best.seqno { best := got.value; }
      }
    }
  }

  /** Recovery takes the readable slot with the highest number, the second of two with one number, and nothing else. */
  lemma NewestIsNewest(bytes: seq<byte>)
    ensures var best := NewestHard(bytes);
      && (SlotAt(bytes, 0).Some? ==> best.seqno >= SlotAt(bytes, 0).value.seqno)
      && (SlotAt(bytes, 1).Some? ==> best.seqno >= SlotAt(bytes, 1).value.seqno)
      && (best == BLANK || SlotAt(bytes, 0) == Some(best) || SlotAt(bytes, 1) == Some(best))
      && (SlotAt(bytes, 0).Some? || SlotAt(bytes, 1).Some? ==>
            SlotAt(bytes, 0) == Some(best) || SlotAt(bytes, 1) == Some(best))
      && (SlotAt(bytes, 0).Some? && SlotAt(bytes, 1).Some?
            && SlotAt(bytes, 0).value.seqno == SlotAt(bytes, 1).value.seqno ==>
            SlotAt(bytes, 1) == Some(best))
  {
    hide ReadSlot, SlotAt;
  }

  lemma SlotHeld(buf: seq<byte>, hs: HardState)
    requires Holds(buf, SlotOffset(hs.seqno), SlotOf(hs)) && HardTyped(hs) && hs.votedFor != Some(NO_VOTE)
    ensures SlotAt(buf, hs.seqno % 2) == Some(hs)
  {
    hide SlotOf, ReadSlot;
    SlotReads(hs);
  }

  /**
   The newest durable hard state, or a later one, comes back from any crash that no unsynced write to
   its slot precedes, if what is left in the other slot checks out only as something written there.
  */
  lemma HardStateComesBack(f: File, img: seq<byte>, hs: HardState, other: set<HardState>)
    requires CrashImage(f, img) && HardTyped(hs) && hs.votedFor != Some(NO_VOTE)
    requires Holds(f.durable, SlotOffset(hs.seqno), SlotOf(hs))
    requires forall p :: p in f.pending ==> Spares(p, SlotOffset(hs.seqno), SlotOffset(hs.seqno) + SLOT_SIZE)
    requires SlotAt(img, 1 - hs.seqno % 2).Some? ==> SlotAt(img, 1 - hs.seqno % 2).value in other
    ensures NewestHard(img) == hs || (NewestHard(img) in other && NewestHard(img).seqno >= hs.seqno)
  {
    hide ReadSlot, SlotOf, CrashImage;
    CrashSpares(f, img, SlotOffset(hs.seqno), SlotOf(hs));
    SlotHeld(img, hs);
    if hs.seqno % 2 == 0 { assert SlotAt(img, 0) == Some(hs); } else { assert SlotAt(img, 1) == Some(hs); }
  }

  /** A write spares the authoritative slot exactly when its number is of the other parity. */
  lemma SlotsAlternate(hs: HardState, next: HardState)
    ensures Spares(SlotWrite(next), SlotOffset(hs.seqno), SlotOffset(hs.seqno) + SLOT_SIZE)
        <==> next.seqno % 2 != hs.seqno % 2
  {
    hide SlotOf;
  }

  // ---- what is unsynced ------------------------------------------------------------------------

  function SlotWrite(hs: HardState): WriteKind { Data(SlotOffset(hs.seqno), SlotOf(hs)) }

  /** A write of records, or a cut of the log, in the same file. */
  predicate BehindSlots(p: WriteKind) {
    match p
    case Data(offset, _) => offset >= LOG_REGION
    case SetLen(len) => len >= LOG_REGION
  }

  /** What slot the state `hs` is not in. */
  function OtherSlotOf(hs: HardState): nat { 1 - hs.seqno % 2 }

  /**
   `hs` is the newest durable hard state, and `ws` are those whose writes are unsynced, in the order of
   their numbers, which may have gaps where the disk refused a write. Writes to the log may be among them.
  */
  ghost predicate InFlight(f: File, hs: HardState, ws: seq<HardState>) {
    && hs.seqno > 0 && HardTyped(hs) && hs.votedFor != Some(NO_VOTE)
    && |f.durable| >= LOG_REGION && Holds(f.durable, SlotOffset(hs.seqno), SlotOf(hs))
    && (SlotAt(f.durable, OtherSlotOf(hs)).Some? ==> SlotAt(f.durable, OtherSlotOf(hs)).value.seqno < hs.seqno)
    && (forall k :: 0 <= k < |ws| ==> HardTyped(ws[k]) && ws[k].seqno > hs.seqno && SlotWrite(ws[k]) in f.pending)
    && (forall j, k :: 0 <= j < k < |ws| ==> ws[j].seqno < ws[k].seqno)
    && (forall p :: p in f.pending ==> BehindSlots(p) || exists k :: 0 <= k < |ws| && p == SlotWrite(ws[k]))
  }

  /** No unsynced write is for the slot of `hs`. */
  predicate SlotSpared(hs: HardState, ws: seq<HardState>) {
    forall k :: 0 <= k < |ws| ==> ws[k].seqno % 2 != hs.seqno % 2
  }

  /** What is left in the other slot checks out only as something that was written. */
  ghost predicate OtherHonest(f: File, img: seq<byte>, hs: HardState, ws: seq<HardState>) {
    var o := OtherSlotOf(hs);
    SlotAt(img, o).Some? ==> SlotAt(img, o) == SlotAt(f.durable, o) || SlotAt(img, o).value in ws
  }

  /** From every image a crash could leave, `hs` or a later write comes back. */
  ghost predicate ComesBack(f: File, hs: HardState, ws: seq<HardState>) {
    forall img :: CrashImage(f, img) && OtherHonest(f, img, hs, ws) ==> NewestHard(img) == hs || NewestHard(img) in ws
  }

  lemma SparedIsSafe(f: File, img: seq<byte>, hs: HardState, ws: seq<HardState>)
    requires InFlight(f, hs, ws) && SlotSpared(hs, ws) && CrashImage(f, img) && OtherHonest(f, img, hs, ws)
    ensures NewestHard(img) == hs || NewestHard(img) in ws
  {
    hide ReadSlot, SlotOf, CrashImage, SlotAt, NewestHard, SlotWrite;
    var o := OtherSlotOf(hs);
    var before := if SlotAt(f.durable, o).Some? then {SlotAt(f.durable, o).value} else {};
    forall p | p in f.pending ensures Spares(p, SlotOffset(hs.seqno), SlotOffset(hs.seqno) + SLOT_SIZE) {
      if !BehindSlots(p) {
        var k :| 0 <= k < |ws| && p == SlotWrite(ws[k]);
        SlotsAlternate(hs, ws[k]);
      }
    }
    HardStateComesBack(f, img, hs, before + (set w | w in ws));
  }

  // ---- the write that loses it -----------------------------------------------------------------

  /** Only the write at position `k` leaves a trace, its first bytes. */
  function OneTorn(n: nat, k: nat, keep: nat): (fates: seq<Fate>)
    ensures |fates| == n && forall i :: 0 <= i < n ==> fates[i] == if i == k then Torn(keep) else Lost
  {
    seq(n, i => if i == k then Torn(keep) else Lost)
  }

  lemma {:induction false} OneTornResolves(buf: seq<byte>, ws: seq<WriteKind>, k: nat, keep: nat)
    requires k < |ws| ==> ws[k].Data? && 0 < keep <= |ws[k].bytes|
    ensures Resolve(buf, ws, OneTorn(|ws|, k, keep))
         == if k < |ws| then Applied(buf, Data(ws[k].offset, ws[k].bytes[..keep])) else buf
    decreases |ws|
  {
    hide Applied;
    if |ws| > 0 {
      var n := |ws| - 1;
      assert OneTorn(|ws|, k, keep)[..n] == OneTorn(n, k, keep);
      OneTornResolves(buf, ws[..n], k, keep);
    }
  }

  /** The first byte in which two numbers differ. */
  lemma {:induction false} FirstDifference(a: seq<byte>, b: seq<byte>) returns (d: nat)
    requires |a| == |b| && a != b
    ensures d < |a| && a[d] != b[d] && a[..d] == b[..d]
    decreases |a|
  {
    if a[0] != b[0] {
      d := 0;
    } else {
      assert a == [a[0]] + a[1..] && b == [b[0]] + b[1..];
      d := FirstDifference(a[1..], b[1..]);
      assert a[..d + 1] == [a[0]] + a[1..][..d] && b[..d + 1] == [b[0]] + b[1..][..d];
      d := d + 1;
    }
  }

  /** The numbers are the first eight bytes of a slot. */
  lemma NumbersDiffer8(hs: HardState, w: HardState) returns (d: nat)
    requires HardTyped(hs) && HardTyped(w) && w.seqno != hs.seqno
    ensures d < 8 && SlotOf(hs)[d] != SlotOf(w)[d] && SlotOf(hs)[..d] == SlotOf(w)[..d]
  {
    hide Checksum, SlotOf, Body, LE, FromLE;
    SlotParts(hs);
    SlotParts(w);
    Widths();
    FromLEOfLE(hs.seqno, 8);
    FromLEOfLE(w.seqno, 8);
    var a, b := SlotOf(hs)[..8], SlotOf(w)[..8];
    d := FirstDifference(a, b);
    assert SlotOf(hs)[..d] == a[..d] && SlotOf(w)[..d] == b[..d];
  }

  /**
   Another number over a slot, torn just behind the first byte that differs: one byte of the slot has
   changed and its checksum has not, so that it no longer checks out.
  */
  lemma OneByteTears(hs: HardState, w: HardState) returns (keep: nat)
    requires HardTyped(hs) && HardTyped(w) && w.seqno != hs.seqno
    ensures 0 < keep <= 8 && ReadSlot(SlotOf(w)[..keep] + SlotOf(hs)[keep..]) == None
  {
    hide Checksum, SlotOf, Body, LE, FromLE;
    var d := NumbersDiffer8(hs, w);
    keep := d + 1;
    var slot := SlotOf(w)[..keep] + SlotOf(hs)[keep..];
    SlotParts(hs);
    assert slot[BODY..BODY + 4] == SlotOf(hs)[BODY..BODY + 4];
    Widths();
    ChecksumFits(Body(hs));
    FromLEOfLE(Checksum(Body(hs)), 4);
    BodyDiffers(hs, w, d);
    OneByteChangesChecksum(Body(hs), slot[..BODY], d);
  }

  lemma BodyDiffers(hs: HardState, w: HardState, d: nat)
    requires d < 8 && SlotOf(hs)[d] != SlotOf(w)[d] && SlotOf(hs)[..d] == SlotOf(w)[..d]
    requires SlotOf(hs)[..BODY] == Body(hs)
    ensures DifferOnlyAt(Body(hs), (SlotOf(w)[..d + 1] + SlotOf(hs)[d + 1..])[..BODY], d)
  {
    hide SlotOf, Body;
    var slot := SlotOf(w)[..d + 1] + SlotOf(hs)[d + 1..];
    forall j | 0 <= j < BODY
      ensures Body(hs)[j] == SlotOf(hs)[j] && (j != d ==> slot[j] == SlotOf(hs)[j]) && slot[..BODY][j] == slot[j]
    {
      assert SlotOf(hs)[..BODY][j] == SlotOf(hs)[j];
      if j < d { assert SlotOf(hs)[..d][j] == SlotOf(w)[..d][j]; }
    }
  }

  /** A write for the authoritative slot, torn there while all others are lost, brings an older hard state back. */
  lemma SharedSlotLosesState(f: File, hs: HardState, ws: seq<HardState>, k: nat) returns (img: seq<byte>)
    requires InFlight(f, hs, ws) && k < |ws| && ws[k].seqno % 2 == hs.seqno % 2
    ensures CrashImage(f, img) && OtherHonest(f, img, hs, ws)
    ensures NewestHard(img) == Newer(BLANK, SlotAt(f.durable, OtherSlotOf(hs))) && NewestHard(img).seqno < hs.seqno
  {
    hide ReadSlot, SlotOf, Applied, SlotAt;
    var w := ws[k];
    var keep := OneByteTears(hs, w);
    var at := PendingAt(f, SlotWrite(w));
    var part := SlotOf(w)[..keep];
    OneTornResolves(f.durable, f.pending, at, keep);
    img := Applied(f.durable, Data(SlotOffset(hs.seqno), part));
    assert img == Resolve(f.durable, f.pending, OneTorn(|f.pending|, at, keep));
    TornSlots(f.durable, hs, hs.seqno + 1, part);
    assert (hs.seqno + 1) % 2 == OtherSlotOf(hs);
  }

  lemma PendingAt(f: File, p: WriteKind) returns (at: nat)
    requires p in f.pending
    ensures at < |f.pending| && f.pending[at] == p
  {
    at :| 0 <= at < |f.pending| && f.pending[at] == p;
  }

  /**
   The newest durable hard state, or a later one, comes back from every crash exactly when no unsynced
   write is for its slot, however many there are and whatever else is unsynced in the file.
  */
  lemma HardStateSafeIff(f: File, hs: HardState, ws: seq<HardState>)
    requires InFlight(f, hs, ws)
    ensures ComesBack(f, hs, ws) <==> SlotSpared(hs, ws)
  {
    hide InFlight, OtherHonest, CrashImage, NewestHard;
    if SlotSpared(hs, ws) {
      forall img | CrashImage(f, img) && OtherHonest(f, img, hs, ws)
        ensures NewestHard(img) == hs || NewestHard(img) in ws
      {
        SparedIsSafe(f, img, hs, ws);
      }
    } else {
      var k :| 0 <= k < |ws| && ws[k].seqno % 2 == hs.seqno % 2;
      var img := SharedSlotLosesState(f, hs, ws, k);
      LaterNumbers(f, hs, ws);
    }
  }

  lemma LaterNumbers(f: File, hs: HardState, ws: seq<HardState>)
    requires InFlight(f, hs, ws)
    ensures forall w :: w in ws ==> w.seqno > hs.seqno
  {
    hide SlotOf, SlotAt;
  }

  /**
   While the disk refuses nothing, the unsynced numbers have no gaps, and the state is safe exactly up
   to one write.
  */
  lemma WithoutGapsOneIsSafe(f: File, hs: HardState, ws: seq<HardState>)
    requires InFlight(f, hs, ws) && forall k :: 0 <= k < |ws| ==> ws[k].seqno == hs.seqno + 1 + k
    ensures ComesBack(f, hs, ws) <==> |ws| <= 1
  {
    hide InFlight, ComesBack;
    HardStateSafeIff(f, hs, ws);
    if |ws| >= 2 { assert ws[1].seqno % 2 == hs.seqno % 2; }
  }

  // ---- a run ---------------------------------------------------------------------------------------

  /**
   The disk refuses the write of the next hard state. Before the node hears of it, it writes the one
   after that, which is the only one unsynced, and for the slot of the newest durable state; a crash now
   brings an older state back.
  */
  lemma RefusedWriteLosesState(start: seq<byte>, hs: HardState, one: HardState, two: HardState)
    returns (ws: seq<Wal>, acts: seq<WalAction>, img: seq<byte>)
    requires InFlight(File(start, start, []), hs, [])
    requires one.seqno == hs.seqno + 1 && two.seqno == hs.seqno + 2 && HardTyped(two)
    ensures WalRun(ws, acts) && |acts| == 2 && ws[0].file.durable == start && ws[2].file.pending == [SlotWrite(two)]
    ensures acts[0].Vote? && acts[0].error && acts[1].Vote? && !acts[1].error && !ws[1].failed
    ensures CrashImage(ws[2].file, img) && OtherHonest(ws[2].file, img, hs, [two]) && NewestHard(img).seqno < hs.seqno
  {
    hide SlotOf, SlotAt, Applied, RecoveredLogOf, NewestHard, InFlight;
    var w0 := Restarted(start, hs);
    var w1 := StoreHard(w0, Quiet, HardWrite(one, SlotOf(one)), true);
    var w2 := StoreHard(w1, Quiet, HardWrite(two, SlotOf(two)), false);
    ws := [w0, w1, w2];
    acts := [Vote(Quiet, HardWrite(one, SlotOf(one)), true), Vote(Quiet, HardWrite(two, SlotOf(two)), false)];
    OneUnsynced(start, w2.file, hs, two);
    img := SharedSlotLosesState(w2.file, hs, [two], 0);
  }

  lemma OneUnsynced(start: seq<byte>, f: File, hs: HardState, w: HardState)
    requires InFlight(File(start, start, []), hs, []) && HardTyped(w) && w.seqno > hs.seqno
    requires f.durable == start && f.pending == [SlotWrite(w)]
    ensures InFlight(f, hs, [w])
  {
    hide SlotOf, SlotAt;
    assert SlotWrite([w][0]) in f.pending;
    forall p | p in f.pending
      ensures exists k :: 0 <= k < |[w]| && p == SlotWrite([w][k]) { assert p == SlotWrite([w][0]); }
  }

  lemma TornSlots(buf: seq<byte>, hs: HardState, other: nat, part: seq<byte>)
    requires other == hs.seqno + 1 && |buf| >= LOG_REGION && |part| <= SLOT_SIZE
    requires Holds(buf, SlotOffset(hs.seqno), SlotOf(hs))
    requires ReadSlot(part + SlotOf(hs)[|part|..]) == None
    ensures var img := Applied(buf, Data(SlotOffset(hs.seqno), part));
      SlotAt(img, hs.seqno % 2) == None && SlotAt(img, other % 2) == SlotAt(buf, other % 2)
  {
    hide ReadSlot, SlotOf, Applied;
    MixedSlot(buf, SlotOffset(hs.seqno), SlotOf(hs), part);
    OtherSlot(buf, SlotOffset(other), SlotOffset(hs.seqno), part);
  }

  lemma MixedSlot(buf: seq<byte>, at: nat, was: seq<byte>, part: seq<byte>)
    requires Holds(buf, at, was) && |part| <= |was|
    ensures Holds(Applied(buf, Data(at, part)), at, part + was[|part|..])
  {
    var r := Applied(buf, Data(at, part));
    forall k | 0 <= k < |was|
      ensures r[at + k] == (part + was[|part|..])[k] { assert buf[at..at + |was|][k] == buf[at + k]; }
    assert r[at..at + |was|] == part + was[|part|..];
  }

  lemma OtherSlot(buf: seq<byte>, o: nat, at: nat, part: seq<byte>)
    requires |part| <= SLOT_SIZE && o + SLOT_SIZE <= |buf| && at + SLOT_SIZE <= |buf|
    requires (o + SLOT_SIZE <= at || at + SLOT_SIZE <= o)
    ensures var r := Applied(buf, Data(at, part)); |r| == |buf| && r[o..o + SLOT_SIZE] == buf[o..o + SLOT_SIZE]
  {
    AppliedSpares(buf, Data(at, part), o, buf[o..o + SLOT_SIZE]);
  }
}
