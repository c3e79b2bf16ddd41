/**
 A record that is too long to be read back. The node takes the entry in, writes its record, syncs it
 and claims it durable; whether it comes back after a crash is a matter of its length alone.
*/
module LongRecords {
  import opened Types
  import opened RaftSpec
  import opened Codec
  import opened EntryCodec
  import opened LogFile
  import opened Disk
  import opened Persister
  import opened Durability

  /** Every character of an ASCII text is one byte. */
  lemma {:induction false} AsciiIsUtf8(s: Text)
    requires forall k :: 0 <= k < |s| ==> s[k] < 0x80
    ensures Utf8(s)
  {
    if |s| > 0 { AsciiIsUtf8(s[1..]); }
  }

  function Spaces(n: nat): (s: Text)
    ensures |s| == n && forall k :: 0 <= k < n ==> s[k] == 0x20
  {
    seq(n, _ => 0x20)
  }

  /** A request for the longest key the format allows, in a log of its own. */
  function LongestGet(term: nat): Entry { Entry(term, 1, Command(0, 0, Get(Spaces(MAX_FIELD)))) }

  /** It is well formed and within every limit of the format, but its record is longer than recovery accepts. */
  lemma LongestGetIsTooLong(term: nat)
    requires term < U64
    ensures EntryTyped(LongestGet(term)) && OpFits(LongestGet(term).cmd.op) && |EncEntry(LongestGet(term))| > MAX_RECORD
  {
    hide Utf8, LE;
    AsciiIsUtf8(Spaces(MAX_FIELD));
  }

  // ---- a claim on one entry -----------------------------------------------------------------------

  function Empty(): Wal { Wal([], File([], [], []), EMPTY, map[], 1, 0, [], 0, HardState(0, None, 0), false) }

  lemma EmptyStarts()
    ensures Restarted([], HardState(0, None, 0)) == Empty()
  {
  }

  function Unclaimed(e: Entry, file: File, flight: Flight, results: map<nat, bool>, nextOp: nat): Wal {
    Wal([e], file, flight, results, nextOp, 0, [], 0, HardState(0, None, 0), false)
  }

  /** The batch of the entry and its hard state, waiting for `n` writes. */
  function Waiting(hs: HardState, n: nat, synced: bool): DiskBatch {
    DiskBatch(1, n, synced, LogDurable(1, 1, 1, None, 0), Some(hs))
  }

  function Stored(e: Entry, hw: HardWrite): File {
    Issued(Issued(File([], [], []), Data((hw.hs.seqno % 2) * SLOT_SIZE, hw.bytes)), Data(LOG_REGION, Records([e])))
  }

  function TakeOne(e: Entry, hw: HardWrite): WalAction {
    Take(None, [e], Some(hw), Durability.Reply(1, None, 0), Errors(false, false, false))
  }

  lemma Takes(e: Entry, hw: HardWrite)
    ensures WalEnabled(Empty(), TakeOne(e, hw))
    ensures WalNext(Empty(), TakeOne(e, hw)) == Unclaimed(e, Stored(e, hw),
      Flight(1, [Waiting(hw.hs, 2, false)], map[1 := (1, WriteOp), 2 := (1, WriteOp)]), map[1 := true, 2 := true], 3)
  {
    hide Records, Applied;
    NoRecords([]);
    assert [] + [e] == [e];
  }

  lemma FirstWriteLands(e: Entry, file: File, hs: HardState)
    ensures OnStorage(Unclaimed(e, file, Flight(1, [Waiting(hs, 2, false)], map[1 := (1, WriteOp), 2 := (1, WriteOp)]),
                                map[1 := true, 2 := true], 3), 1, false)
      == Unclaimed(e, file, Flight(1, [Waiting(hs, 1, false)], map[2 := (1, WriteOp)]), map[2 := true], 3)
  {
  }

  lemma SecondWriteLands(e: Entry, file: File, hs: HardState)
    ensures OnStorage(Unclaimed(e, file, Flight(1, [Waiting(hs, 1, false)], map[2 := (1, WriteOp)]), map[2 := true], 3),
                      2, false)
      == Unclaimed(e, Synced(file), Flight(1, [Waiting(hs, 0, true)], map[3 := (1, SyncOp)]), map[3 := true], 4)
  {
    var w := Unclaimed(e, file, Flight(1, [Waiting(hs, 1, false)], map[2 := (1, WriteOp)]), map[2 := true], 3);
    assert w.results - {2} == map[] && w.flight.ops - {2} == map[];
    assert Find(w.flight.batches, 1) == Some(0);
    assert w.flight.batches[0 := Waiting(hs, 0, false)] == [Waiting(hs, 0, false)];
    assert Completed(w.flight, 2, true) == (Flight(1, [Waiting(hs, 0, false)], map[]), NeedSync(1));
  }

  lemma Notes(e: Entry, file: File, flight: Flight, hs: HardState)
    requires hs.term == e.term > 0
    ensures Noted(Unclaimed(e, file, flight, map[], 4), Some(hs))
      == Wal([e], file, flight, map[], 4, 0, [], e.term, hs, false)
  {
    var w := Wal([e], file, flight, map[], 4, 0, [], e.term, hs, false);
    assert !Covered(w.parked, 1);
    assert Advanced(w) == w;
  }

  lemma Claims(e: Entry, file: File, flight: Flight, hs: HardState)
    ensures Claimed(Wal([e], file, flight, map[], 4, 0, [], e.term, hs, false), LogDurable(1, 1, 1, None, 0))
      == Wal([e], file, flight, map[], 4, 1, [], e.term, hs, false)
  {
    var parked := [] + [(1, 1)];
    assert parked == [(1, 1)] && (1, 1) in parked && Covered(parked, 1);
    assert LastIndexAtMost([e], e.term) == 1 by { assert [e][1..] == []; }
    assert Reach(0, parked, 1) == 1;
    assert Above(parked, 1) == [] by { assert parked[1..] == []; }
  }

  lemma SyncLands(e: Entry, file: File, hs: HardState)
    requires hs.term == e.term > 0
    ensures OnStorage(Unclaimed(e, file, Flight(1, [Waiting(hs, 0, true)], map[3 := (1, SyncOp)]), map[3 := true], 4),
                      3, false)
      == Wal([e], file, Flight(1, [], map[]), map[], 4, 1, [], e.term, hs, false)
  {
    hide Noted, Claimed;
    var w := Unclaimed(e, file, Flight(1, [Waiting(hs, 0, true)], map[3 := (1, SyncOp)]), map[3 := true], 4);
    assert w.results - {3} == map[] && w.flight.ops - {3} == map[];
    assert Find(w.flight.batches, 1) == Some(0);
    assert w.flight.batches[..0] + w.flight.batches[1..] == [];
    assert Completed(w.flight, 3, true) == (Flight(1, [], map[]), Done(LogDurable(1, 1, 1, None, 0), Some(hs)));
    Notes(e, file, Flight(1, [], map[]), hs);
    Claims(e, file, Flight(1, [], map[]), hs);
  }

  /**
   The node starts with an empty disk, stores one entry with its hard state, and hears back of both
   writes and of the sync.
  */
  lemma OneEntryClaimed(e: Entry, hw: HardWrite) returns (ws: seq<Wal>, acts: seq<WalAction>)
    requires hw.hs.term == e.term > 0
    ensures WalRun(ws, acts) && |acts| == 4
    ensures var w := ws[4]; w.log == [e] && w.durableIndex == 1 && w.durableTerm == e.term && w.file.pending == []
  {
    hide Restarted, OnStorage, Store, Stored;
    var f := Stored(e, hw);
    EmptyStarts();
    Takes(e, hw);
    FirstWriteLands(e, f, hw.hs);
    SecondWriteLands(e, f, hw.hs);
    SyncLands(e, Synced(f), hw.hs);
    var w1 := Unclaimed(e, f, Flight(1, [Waiting(hw.hs, 2, false)], map[1 := (1, WriteOp), 2 := (1, WriteOp)]),
                        map[1 := true, 2 := true], 3);
    var w2 := Unclaimed(e, f, Flight(1, [Waiting(hw.hs, 1, false)], map[2 := (1, WriteOp)]), map[2 := true], 3);
    var w3 := Unclaimed(e, Synced(f), Flight(1, [Waiting(hw.hs, 0, true)], map[3 := (1, SyncOp)]), map[3 := true], 4);
    ws := [Empty(), w1, w2, w3, OnStorage(w3, 3, false)];
    acts := [TakeOne(e, hw), Storage(1, false), Storage(2, false), Storage(3, false)];
  }

  /**
   An entry within every limit of the format, claimed durable in a run without a single failure, comes
   back from the crash that follows exactly when its record is not too long; the longest request for a
   key is one that does not (`LongestGetIsTooLong`).
  */
  lemma ClaimedButTooLong(e: Entry, hw: HardWrite) returns (ws: seq<Wal>, acts: seq<WalAction>, img: seq<byte>)
    requires EntryTyped(e) && OpFits(e.cmd.op) && e.index == 1 && hw.hs.term == e.term > 0
    ensures WalRun(ws, acts) && |acts| == 4 && ws[4].log == [e] && ws[4].durableIndex == 1
    ensures CrashImage(ws[4].file, img) && (ws[4].log <= Restarted(img, hw.hs).log <==> |EncEntry(e)| <= MAX_RECORD)
  {
    hide EntryTyped, OpFits, EncEntry, WalRun, Restarted, FileOk;
    ws, acts := OneEntryClaimed(e, hw);
    WalRunLength(ws, acts);
    img := ws[4].file.cache;
    WalRunOk(ws, acts, 4);
    FileThere(ws[4]);
    CacheIsCrashImage(ws[4].file);
    DurableClaimsHold(ws, acts, 4, img, hw.hs);
    assert ws[4].log[..1] == [e];
  }

  lemma WalRunLength(ws: seq<Wal>, acts: seq<WalAction>)
    requires WalRun(ws, acts)
    ensures |ws| == |acts| + 1
  {
  }

  lemma FileThere(w: Wal)
    requires WalOk(w)
    ensures FileOk(w.file)
  {
  }
}
