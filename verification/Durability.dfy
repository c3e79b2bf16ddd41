/**
 The write-ahead file of one node and its durability claims. Batches of writes overlap, fail and
 complete in any order; the log is truncated and rewritten while they are in flight; a crash loses,
 tears and reorders what was not synced. Every index the node claims durable is in every image a
 crash could leave, and comes back from it unchanged (`ClaimsSurviveCrashes`).
*/
module Durability {
  import opened Types
  import opened RaftSpec
  import opened Disk
  import opened Persister
  import opened LogFile

  /** Two hard-state slots precede the log. */
  const SLOT_SIZE: nat := 64
  const LOG_REGION: nat := 128

  datatype Wal = Wal(
    log: seq<Entry>, file: File, flight: Flight, results: map<nat, bool>, nextOp: nat,
    durableIndex: nat, parked: seq<(nat, nat)>, durableTerm: nat, durableHard: HardState, failed: bool)

  /** Where the record after the first `i` entries begins. */
  function Offset(log: seq<Entry>, i: nat): (at: nat)
    requires i <= |log|
    ensures at >= LOG_REGION
  {
    LOG_REGION + |Records(log[..i])|
  }

  /** The bytes of a hard state, as they go to its slot. */
  type SlotBytes = s: seq<byte> | |s| == SLOT_SIZE witness Zeros(SLOT_SIZE)

  datatype HardWrite = HardWrite(hs: HardState, bytes: SlotBytes)

  // ---- what the node does ------------------------------------------------------------------

  /** Issue one write for batch `id`; `error` says that the disk will refuse it. */
  function Write(w: Wal, id: nat, kind: WriteKind, error: bool): Wal {
    w.(file := if error then w.file else Issued(w.file, kind),
       flight := NotedWrite(w.flight, id, w.nextOp),
       results := w.results[w.nextOp := !error],
       nextOp := w.nextOp + 1)
  }

  /** Slots alternate with the number of the write. */
  function WriteHard(w: Wal, id: nat, hw: HardWrite, error: bool): Wal {
    var v := w.(flight := NotedHard(w.flight, id, hw.hs));
    Write(v, id, Data((hw.hs.seqno % 2) * SLOT_SIZE, hw.bytes), error)
  }

  function Truncated(w: Wal, at: nat): Wal
    requires 0 < at <= |w.log|
  {
    w.(log := w.log[..at - 1], durableIndex := Min(w.durableIndex, at - 1),
       flight := Clamped(w.flight, at - 1), parked := ClampRanges(w.parked, at - 1))
  }

  /** How the three writes of a batch fare: the hard state, the cut, and the records. */
  datatype Errors = Errors(hard: bool, cut: bool, records: bool)

  datatype Reply = Reply(verified: nat, to: Option<NodeId>, term: nat)

  /** Take new entries in, after cutting the log at `cut` if the old ones conflict, and write them out. */
  function Store(w: Wal, cut: Option<nat>, es: seq<Entry>, hw: Option<HardWrite>, reply: Reply, errors: Errors): Wal
    requires cut.Some? ==> 0 < cut.value <= |w.log|
  {
    var w1 := if cut.Some? then Truncated(w, cut.value) else w;
    var from := |w1.log| + 1;
    var w2 := w1.(log := w1.log + es,
                  flight := Started(w1.flight,
                                    LogDurable(from, |w1.log| + |es|, reply.verified, reply.to, reply.term)));
    var id := w2.flight.lastId;
    var w3 := if hw.Some? then WriteHard(w2, id, hw.value, errors.hard) else w2;
    var w4 := if cut.Some? then Write(w3, id, SetLen(Offset(w1.log, |w1.log|)), errors.cut) else w3;
    Write(w4, id, Data(Offset(w1.log, |w1.log|), Records(es)), errors.records)
  }

  /** Write only the hard state; the action claims no new entries. */
  function StoreHard(w: Wal, action: Persist, hw: HardWrite, error: bool): Wal {
    var v := w.(flight := Started(w.flight, action));
    WriteHard(v, v.flight.lastId, hw, error)
  }

  ghost function Advanced(w: Wal): Wal {
    var d := Reach(w.durableIndex, w.parked, LastIndexAtMost(w.log, w.durableTerm));
    w.(durableIndex := d, parked := LimitParked(Above(w.parked, d)))
  }

  ghost function Noted(w: Wal, hard: Option<HardState>): Wal {
    match hard
    case None => w
    case Some(hs) =>
      var v := if hs.seqno >= w.durableHard.seqno then w.(durableHard := hs) else w;
      if hs.term > v.durableTerm then Advanced(v.(durableTerm := hs.term)) else v
  }

  ghost function Claimed(w: Wal, action: Persist): Wal {
    if !action.LogDurable? then w
    else
      var index := Min(action.index, |w.log|);
      if index > w.durableIndex then Advanced(w.(parked := w.parked + [(action.from, index)])) else w
  }

  function Sync(w: Wal, id: nat, error: bool): Wal {
    w.(file := if error then w.file else Synced(w.file),
       flight := NotedSync(w.flight, id, w.nextOp),
       results := w.results[w.nextOp := !error],
       nextOp := w.nextOp + 1)
  }

  /** The disk reports on operation `op`; `error` is the fate of the sync this may start. */
  ghost function OnStorage(w: Wal, op: nat, error: bool): Wal
    requires op in w.results
  {
    var (flight, ev) := Completed(w.flight, op, w.results[op]);
    var v := w.(flight := flight, results := w.results - {op});
    match ev
    case Nothing => v
    case NeedSync(id) => Sync(v, id, error)
    case Done(action, hard) => Claimed(Noted(v, hard), action)
    case Failed => v.(failed := true)
  }

  // ---- what a claim rests on ------------------------------------------------------------------

  /** The record of entry `i` is in `buf`, at its place. */
  ghost predicate RecordIn(buf: seq<byte>, log: seq<Entry>, i: nat) {
    0 < i <= |log| && Holds(buf, Offset(log, i - 1), Record(log[i - 1]))
  }

  /** The record is durable, and no unsynced write can reach it. */
  ghost predicate Backed(f: File, log: seq<Entry>, i: nat) {
    && RecordIn(f.durable, log, i)
    && forall p :: p in f.pending ==> Spares(p, Offset(log, i - 1), Offset(log, i))
  }

  ghost predicate AllBacked(f: File, log: seq<Entry>, from: nat, to: nat) {
    forall i: nat {:trigger Backed(f, log, i)} :: 0 < i && from <= i <= to ==> Backed(f, log, i)
  }

  ghost predicate AllInCache(f: File, log: seq<Entry>, from: nat, to: nat) {
    forall i: nat {:trigger RecordIn(f.cache, log, i)} :: 0 < i && from <= i <= to ==> RecordIn(f.cache, log, i)
  }

  /** None of the operations the batch waits for will fail. */
  ghost predicate Healthy(ops: map<nat, (nat, OpKind)>, results: map<nat, bool>, id: nat) {
    forall op :: op in ops && ops[op].0 == id ==> op in results && results[op]
  }

  /** A batch that cannot fail any more has its entries in the cache, or durable once its sync is on its way. */
  ghost predicate BatchBacked(f: File, log: seq<Entry>, ops: map<nat, (nat, OpKind)>, results: map<nat, bool>,
                              b: DiskBatch)
  {
    b.action.LogDurable? && Healthy(ops, results, b.id) ==>
      if b.syncIssued then AllBacked(f, log, b.action.from, b.action.index)
      else AllInCache(f, log, b.action.from, b.action.index)
  }

  /** A sync is a batch's only operation, and its batch knows of it. */
  ghost predicate SyncsOk(p: Flight) {
    && (forall b, op ::
          b in p.batches && op in p.ops && p.ops[op].0 == b.id ==> (p.ops[op].1 == SyncOp <==> b.syncIssued))
    && (forall a, b :: a in p.ops && b in p.ops && p.ops[a].0 == p.ops[b].0 && p.ops[a].1 == SyncOp ==> a == b)
  }

  ghost predicate FlyingOk(p: Flight, results: map<nat, bool>, nextOp: nat) {
    && FlightOk(p) && SyncsOk(p)
    && (forall op :: op in p.ops ==> op in results) && (forall op :: op in results ==> op < nextOp)
  }

  ghost predicate BatchesBacked(f: File, log: seq<Entry>, p: Flight, results: map<nat, bool>) {
    forall b {:trigger BatchBacked(f, log, p.ops, results, b)} ::
      b in p.batches ==> BatchBacked(f, log, p.ops, results, b)
  }

  ghost predicate ParkedBacked(f: File, log: seq<Entry>, parked: seq<(nat, nat)>) {
    forall r {:trigger AllBacked(f, log, r.0, r.1)} :: r in parked ==> AllBacked(f, log, r.0, r.1)
  }

  ghost predicate ClaimBacked(f: File, log: seq<Entry>, durable: nat, term: nat) {
    durable <= |log| && AllBacked(f, log, 1, durable) && forall i :: 0 <= i < durable ==> log[i].term <= term
  }

  ghost predicate WalOk(w: Wal) {
    && FileOk(w.file)
    && FlyingOk(w.flight, w.results, w.nextOp)
    && BatchesBacked(w.file, w.log, w.flight, w.results)
    && ParkedBacked(w.file, w.log, w.parked)
    && ClaimBacked(w.file, w.log, w.durableIndex, w.durableTerm)
  }

  // ---- records in files ----------------------------------------------------------------------------

  lemma OffsetNext(log: seq<Entry>, i: nat)
    requires 0 < i <= |log|
    ensures Offset(log, i) == Offset(log, i - 1) + |Record(log[i - 1])|
  {
    hide Record;
    assert log[..i] == log[..i - 1] + [log[i - 1]];
    RecordsAppend(log[..i - 1], log[i - 1]);
  }

  lemma OffsetMonotone(log: seq<Entry>, i: nat, j: nat)
    requires i <= j <= |log|
    ensures Offset(log, i) <= Offset(log, j)
  {
    RecordsLonger(log, i, j);
  }

  /** Entries below a cut keep their place, whatever follows. */
  lemma OffsetPrefix(log: seq<Entry>, log': seq<Entry>, i: nat)
    requires i <= |log| && i <= |log'| && log[..i] == log'[..i]
    ensures Offset(log, i) == Offset(log', i)
  {
  }

  lemma SamePrefix(log: seq<Entry>, log': seq<Entry>, cap: nat, i: nat)
    requires cap <= |log| && cap <= |log'| && log[..cap] == log'[..cap] && 0 < i <= cap
    ensures log[..i] == log'[..i] && log[..i - 1] == log'[..i - 1] && log[i - 1] == log'[i - 1]
  {
    assert log[..i] == log[..cap][..i] && log'[..i] == log'[..cap][..i];
    assert log[..i - 1] == log[..cap][..i - 1] && log'[..i - 1] == log'[..cap][..i - 1];
    assert log[i - 1] == log[..cap][i - 1] && log'[i - 1] == log'[..cap][i - 1];
  }

  lemma BackedPrefix(f: File, log: seq<Entry>, log': seq<Entry>, cap: nat, i: nat)
    requires cap <= |log| && cap <= |log'| && log[..cap] == log'[..cap] && 0 < i <= cap
    ensures Backed(f, log, i) <==> Backed(f, log', i)
    ensures RecordIn(f.cache, log, i) <==> RecordIn(f.cache, log', i)
  {
    hide Holds, Spares, Record;
    SamePrefix(log, log', cap, i);
  }

  /** A write at or above the end of entry `cap`, or in the slots, leaves the entries up to `cap` alone. */
  ghost predicate Beyond(kind: WriteKind, log: seq<Entry>, cap: nat)
    requires cap <= |log|
  {
    match kind
    case SetLen(len) => len >= Offset(log, cap)
    case Data(offset, bytes) => offset >= Offset(log, cap) || offset + |bytes| <= LOG_REGION
  }

  lemma BeyondSpares(kind: WriteKind, log: seq<Entry>, cap: nat, i: nat)
    requires cap <= |log| && Beyond(kind, log, cap) && 0 < i <= cap
    ensures Spares(kind, Offset(log, i - 1), Offset(log, i))
  {
    OffsetMonotone(log, i, cap);
  }

  lemma RecordSpared(buf: seq<byte>, log: seq<Entry>, i: nat, kind: WriteKind)
    requires RecordIn(buf, log, i) && Spares(kind, Offset(log, i - 1), Offset(log, i))
    ensures RecordIn(Applied(buf, kind), log, i)
  {
    hide Holds, Record, Applied, Spares;
    OffsetNext(log, i);
    AppliedSpares(buf, kind, Offset(log, i - 1), Record(log[i - 1]));
  }

  lemma IssueKeepsBacked(f: File, log: seq<Entry>, cap: nat, kind: WriteKind, i: nat)
    requires cap <= |log| && Beyond(kind, log, cap) && 0 < i <= cap
    ensures Backed(f, log, i) ==> Backed(Issued(f, kind), log, i)
    ensures RecordIn(f.cache, log, i) ==> RecordIn(Issued(f, kind).cache, log, i)
  {
    hide Holds, Record, Applied, Spares, RecordIn, Beyond;
    BeyondSpares(kind, log, cap, i);
    if RecordIn(f.cache, log, i) { RecordSpared(f.cache, log, i, kind); }
  }

  lemma {:induction false} AppliedAllSpared(buf: seq<byte>, ws: seq<WriteKind>, log: seq<Entry>, i: nat)
    requires RecordIn(buf, log, i) && forall p :: p in ws ==> Spares(p, Offset(log, i - 1), Offset(log, i))
    ensures RecordIn(AppliedAll(buf, ws), log, i)
  {
    hide Holds, Record, Applied, Spares, Records;
    if |ws| > 0 {
      var n := |ws| - 1;
      forall p | p in ws[..n] ensures p in ws {}
      AppliedAllSpared(buf, ws[..n], log, i);
      assert ws[n] in ws;
      RecordSpared(AppliedAll(buf, ws[..n]), log, i, ws[n]);
    }
  }

  /** What is backed is in the cache too. */
  lemma BackedIsCached(f: File, log: seq<Entry>, i: nat)
    requires FileOk(f) && Backed(f, log, i)
    ensures RecordIn(f.cache, log, i)
  {
    hide RecordIn, Spares;
    AppliedAllSpared(f.durable, f.pending, log, i);
  }

  /** A sync backs whatever is in the cache. */
  lemma SyncBacks(f: File, log: seq<Entry>, i: nat)
    requires FileOk(f) && RecordIn(f.cache, log, i)
    ensures Backed(Synced(f), log, i) && RecordIn(Synced(f).cache, log, i)
  {
    hide RecordIn, Spares;
  }

  // ---- keeping what rests on the first entries ----------------------------------------------------

  /** What was backed or cached of the first `cap` entries still is. */
  ghost predicate KeepsTo(cap: nat, f: File, log: seq<Entry>, f': File, log': seq<Entry>) {
    forall i: nat {:trigger Backed(f', log', i)} {:trigger RecordIn(f'.cache, log', i)} :: 0 < i <= cap ==>
      (Backed(f, log, i) ==> Backed(f', log', i)) && (RecordIn(f.cache, log, i) ==> RecordIn(f'.cache, log', i))
  }

  lemma KeepsPrefix(cap: nat, f: File, log: seq<Entry>, log': seq<Entry>)
    requires cap <= |log| && cap <= |log'| && log[..cap] == log'[..cap]
    ensures KeepsTo(cap, f, log, f, log')
  {
    hide Backed, RecordIn;
    forall i: nat | 0 < i <= cap
      ensures (Backed(f, log, i) ==> Backed(f, log', i)) && (RecordIn(f.cache, log, i) ==> RecordIn(f.cache, log', i))
    {
      BackedPrefix(f, log, log', cap, i);
    }
  }

  lemma KeepsIssue(cap: nat, f: File, log: seq<Entry>, f': File, log': seq<Entry>, kind: WriteKind, error: bool)
    requires cap <= |log'| && KeepsTo(cap, f, log, f', log') && Beyond(kind, log', cap)
    ensures KeepsTo(cap, f, log, if error then f' else Issued(f', kind), log')
  {
    hide Backed, RecordIn, Beyond;
    var g := if error then f' else Issued(f', kind);
    forall i: nat | 0 < i <= cap
      ensures (Backed(f, log, i) ==> Backed(g, log', i)) && (RecordIn(f.cache, log, i) ==> RecordIn(g.cache, log', i))
    {
      IssueKeepsBacked(f', log', cap, kind, i);
    }
  }

  lemma RecordInside(buf: seq<byte>, log: seq<Entry>, i: nat)
    requires RecordIn(buf, log, i)
    ensures 0 < i <= |log|
  {
  }

  lemma BackedInside(f: File, log: seq<Entry>, i: nat)
    requires Backed(f, log, i)
    ensures 0 < i <= |log|
  {
  }

  lemma KeptBacked(f: File, log: seq<Entry>, f': File, log': seq<Entry>, from: nat, to: nat)
    requires KeepsTo(|log|, f, log, f', log') && AllBacked(f, log, from, to)
    ensures AllBacked(f', log', from, to)
  {
    hide Backed, RecordIn;
    forall i: nat | 0 < i && from <= i <= to ensures Backed(f', log', i) {
      assert Backed(f, log, i);
      BackedInside(f, log, i);
    }
  }

  lemma KeptCached(f: File, log: seq<Entry>, f': File, log': seq<Entry>, from: nat, to: nat)
    requires KeepsTo(|log|, f, log, f', log') && AllInCache(f, log, from, to)
    ensures AllInCache(f', log', from, to)
  {
    hide Backed, RecordIn;
    forall i: nat | 0 < i && from <= i <= to ensures RecordIn(f'.cache, log', i) {
      assert RecordIn(f.cache, log, i);
      RecordInside(f.cache, log, i);
    }
  }

  lemma KeptParked(f: File, log: seq<Entry>, f': File, log': seq<Entry>, parked: seq<(nat, nat)>)
    requires KeepsTo(|log|, f, log, f', log') && ParkedBacked(f, log, parked)
    ensures ParkedBacked(f', log', parked)
  {
    hide AllBacked, KeepsTo;
    forall r | r in parked ensures AllBacked(f', log', r.0, r.1) {
      assert AllBacked(f, log, r.0, r.1);
      KeptBacked(f, log, f', log', r.0, r.1);
    }
  }

  lemma KeptClaim(f: File, log: seq<Entry>, f': File, log': seq<Entry>, durable: nat, term: nat)
    requires KeepsTo(|log|, f, log, f', log') && log <= log' && ClaimBacked(f, log, durable, term)
    ensures ClaimBacked(f', log', durable, term)
  {
    hide AllBacked, KeepsTo;
    KeptBacked(f, log, f', log', 1, durable);
  }

  /** A batch's claim is kept when its operations are as healthy as before. */
  lemma KeptBatch(f: File, log: seq<Entry>, f': File, log': seq<Entry>, ops: map<nat, (nat, OpKind)>, results: map<nat,
                  bool>,
                  ops': map<nat, (nat, OpKind)>, results': map<nat, bool>, b: DiskBatch, b': DiskBatch)
    requires KeepsTo(|log|, f, log, f', log') && BatchBacked(f, log, ops, results, b)
    requires b'.id == b.id && b'.action == b.action && b'.syncIssued == b.syncIssued
    requires Healthy(ops', results', b.id) ==> Healthy(ops, results, b.id)
    ensures BatchBacked(f', log', ops', results', b')
  {
    hide AllBacked, AllInCache, KeepsTo, Healthy;
    if b.action.LogDurable? && Healthy(ops', results', b.id) {
      if b.syncIssued { KeptBacked(f, log, f', log', b.action.from, b.action.index); }
      else { KeptCached(f, log, f', log', b.action.from, b.action.index); }
    }
  }

  // ---- truncation ----------------------------------------------------------------------------------

  /** Cutting the log keeps what lies below the cut. */
  lemma CutBacked(f: File, log: seq<Entry>, cap: nat, from: nat, to: nat)
    requires cap <= |log|
    ensures AllBacked(f, log, from, to) ==> AllBacked(f, log[..cap], from, Min(to, cap))
    ensures AllInCache(f, log, from, to) ==> AllInCache(f, log[..cap], from, Min(to, cap))
  {
    hide Backed, RecordIn;
    forall i: nat | 0 < i <= cap
      ensures Backed(f, log, i) <==> Backed(f, log[..cap], i)
      ensures RecordIn(f.cache, log, i) <==> RecordIn(f.cache, log[..cap], i)
    {
      BackedPrefix(f, log, log[..cap], cap, i);
    }
  }

  lemma {:induction false} CutParked(f: File, log: seq<Entry>, cap: nat, parked: seq<(nat, nat)>)
    requires cap <= |log| && ParkedBacked(f, log, parked)
    ensures ParkedBacked(f, log[..cap], ClampRanges(parked, cap))
  {
    hide AllBacked, AllInCache;
    if |parked| > 0 {
      assert AllBacked(f, log, parked[0].0, parked[0].1);
      CutBacked(f, log, cap, parked[0].0, parked[0].1);
      forall r | r in parked[1..] ensures AllBacked(f, log, r.0, r.1) {}
      CutParked(f, log, cap, parked[1..]);
    }
  }

  lemma CutBatch(f: File, log: seq<Entry>, cap: nat, ops: map<nat, (nat, OpKind)>, results: map<nat, bool>,
                 b: DiskBatch)
    requires cap <= |log| && BatchBacked(f, log, ops, results, b)
    ensures BatchBacked(f, log[..cap], ops, results, b.(action := Clamp(b.action, cap)))
  {
    hide AllBacked, AllInCache, Healthy;
    if b.action.LogDurable? { CutBacked(f, log, cap, b.action.from, b.action.index); }
  }

  lemma ClampedFlying(p: Flight, cap: nat, results: map<nat, bool>, nextOp: nat)
    requires FlyingOk(p, results, nextOp)
    ensures FlyingOk(Clamped(p, cap), results, nextOp)
  {
    var q := Clamped(p, cap);
    forall b | b in q.batches
      ensures exists k :: 0 <= k < |p.batches| && b == p.batches[k].(action := Clamp(p.batches[k].action, cap)) {}
  }

  lemma CutBatches(f: File, log: seq<Entry>, cap: nat, p: Flight, results: map<nat, bool>)
    requires cap <= |log| && BatchesBacked(f, log, p, results)
    ensures BatchesBacked(f, log[..cap], Clamped(p, cap), results)
  {
    hide BatchBacked, Clamp;
    var q := Clamped(p, cap);
    forall b | b in q.batches ensures BatchBacked(f, log[..cap], q.ops, results, b) {
      var k :| 0 <= k < |p.batches| && b == p.batches[k].(action := Clamp(p.batches[k].action, cap));
      assert BatchBacked(f, log, p.ops, results, p.batches[k]);
      CutBatch(f, log, cap, p.ops, results, p.batches[k]);
    }
  }

  lemma CutClaim(f: File, log: seq<Entry>, cap: nat, durable: nat, term: nat)
    requires cap <= |log| && ClaimBacked(f, log, durable, term)
    ensures ClaimBacked(f, log[..cap], Min(durable, cap), term)
  {
    hide AllBacked, AllInCache;
    CutBacked(f, log, cap, 1, durable);
  }

  lemma TruncatedOk(w: Wal, at: nat)
    requires WalOk(w) && 0 < at <= |w.log|
    ensures WalOk(Truncated(w, at))
  {
    hide FileOk, FlyingOk, BatchesBacked, ParkedBacked, ClaimBacked, ClampRanges, Clamped;
    ClampedFlying(w.flight, at - 1, w.results, w.nextOp);
    CutParked(w.file, w.log, at - 1, w.parked);
    CutClaim(w.file, w.log, at - 1, w.durableIndex, w.durableTerm);
    CutBatches(w.file, w.log, at - 1, w.flight, w.results);
  }

  // ---- starting a batch ----------------------------------------------------------------------------

  /** `p` is `p0` with one more batch, whose operations are the only new ones. */
  ghost predicate Grown(p0: Flight, r0: map<nat, bool>, p: Flight, r: map<nat, bool>, nextOp: nat, action: Persist) {
    && FlyingOk(p, r, nextOp)
    && |p.batches| == |p0.batches| + 1 && p.batches[..|p0.batches|] == p0.batches && p.lastId == p0.lastId + 1
    && NewBatch(p.batches[|p0.batches|], p.lastId, action)
    && (forall op :: op in p0.ops ==> op in p.ops && p.ops[op] == p0.ops[op] && op in r && op in r0 && r[op] == r0[op])
    && (forall op :: op in p.ops && op !in p0.ops ==> p.ops[op] == (p.lastId, WriteOp))
  }

  ghost predicate NewBatch(b: DiskBatch, id: nat, action: Persist) { b.id == id && b.action == action && !b.syncIssued }

  lemma GrowStart(p: Flight, r: map<nat, bool>, nextOp: nat, action: Persist)
    requires FlyingOk(p, r, nextOp)
    ensures Grown(p, r, Started(p, action), r, nextOp, action)
  {
    StartedOk(p, action);
  }

  lemma LastBatch(p0: Flight, r0: map<nat, bool>, p: Flight, r: map<nat, bool>, nextOp: nat, action: Persist)
    requires Grown(p0, r0, p, r, nextOp, action)
    ensures Find(p.batches, p.lastId) == Some(|p0.batches|)
  {
    hide FlyingOk;
    FlyingIds(p, r, nextOp);
    var k := Find(p.batches, p.lastId);
    assert k.Some?;
  }

  lemma FlyingIds(p: Flight, r: map<nat, bool>, nextOp: nat)
    requires FlyingOk(p, r, nextOp)
    ensures DistinctIds(p.batches) && FlightOk(p) && nextOp !in p.ops && nextOp !in r
  {
  }

  lemma SyncsWithWrite(p: Flight, id: nat, op: nat, k: nat)
    requires SyncsOk(p) && FlightOk(p) && op !in p.ops && Find(p.batches, id) == Some(k) && !p.batches[k].syncIssued
    ensures SyncsOk(NotedWrite(p, id, op))
  {
    hide FlightOk;
    assert p.batches[k] in p.batches;
    var q := NotedWrite(p, id, op);
    forall b | b in q.batches ensures exists c :: c in p.batches && c.id == b.id && c.syncIssued == b.syncIssued {
      if b in p.batches { assert b in p.batches; } else { assert p.batches[k] in p.batches; }
    }
    FlightDistinct(p);
    forall c | c in p.batches && c.id == id ensures !c.syncIssued {
      var j :| 0 <= j < |p.batches| && p.batches[j] == c;
    }
  }

  lemma FlightDistinct(p: Flight)
    requires FlightOk(p)
    ensures DistinctIds(p.batches)
  {
  }

  lemma GrowWrite(p0: Flight, r0: map<nat, bool>, p: Flight, r: map<nat, bool>, nextOp: nat, action: Persist, ok: bool)
    requires Grown(p0, r0, p, r, nextOp, action) && forall op :: op in p0.ops ==> op < nextOp
    ensures Grown(p0, r0, NotedWrite(p, p.lastId, nextOp), r[nextOp := ok], nextOp + 1, action)
  {
    LastBatch(p0, r0, p, r, nextOp, action);
    FlyingIds(p, r, nextOp);
    NotedWriteOk(p, p.lastId, nextOp);
    SyncsWithWrite(p, p.lastId, nextOp, |p0.batches|);
    hide FlightOk, SyncsOk;
    var q := NotedWrite(p, p.lastId, nextOp);
    assert q.batches[..|p0.batches|] == p.batches[..|p0.batches|];
  }

  lemma GrowHard(p0: Flight, r0: map<nat, bool>, p: Flight, r: map<nat, bool>, nextOp: nat, action: Persist,
                 hs: HardState)
    requires Grown(p0, r0, p, r, nextOp, action)
    ensures Grown(p0, r0, NotedHard(p, p.lastId, hs), r, nextOp, action)
  {
    LastBatch(p0, r0, p, r, nextOp, action);
    var q := NotedHard(p, p.lastId, hs);
    assert q.batches[..|p0.batches|] == p.batches[..|p0.batches|];
    forall b | b in q.batches
      ensures exists c ::
        c in p.batches && c.id == b.id && c.syncIssued == b.syncIssued && c.outstanding == b.outstanding
    {
      if b !in p.batches { assert p.batches[|p0.batches|] in p.batches; }
    }
  }

  /** The file and the flight while a batch for the entries after the first `cap` is being written. */
  ghost predicate During(w1: Wal, w: Wal, action: Persist) {
    && WalOk(w1) && w1.log <= w.log && FileOk(w.file)
    && Grown(w1.flight, w1.results, w.flight, w.results, w.nextOp, action) && w1.nextOp <= w.nextOp
    && KeepsTo(|w1.log|, w1.file, w1.log, w.file, w.log)
    && w.durableIndex == w1.durableIndex && w.parked == w1.parked && w.durableTerm == w1.durableTerm
  }

  lemma FlyingOps(p: Flight, r: map<nat, bool>, nextOp: nat)
    requires FlyingOk(p, r, nextOp)
    ensures forall op :: op in p.ops ==> op in r && op < nextOp
  {
  }

  lemma DuringStart(w1: Wal, es: seq<Entry>, action: Persist)
    requires WalOk(w1)
    ensures During(w1, w1.(log := w1.log + es, flight := Started(w1.flight, action)), action)
  {
    hide FileOk, FlyingOk, BatchesBacked, ParkedBacked, ClaimBacked, KeepsTo, Grown;
    GrowStart(w1.flight, w1.results, w1.nextOp, action);
    KeepsPrefix(|w1.log|, w1.file, w1.log, w1.log + es);
  }

  lemma DuringWrite(w1: Wal, w: Wal, action: Persist, kind: WriteKind, error: bool)
    requires During(w1, w, action) && Beyond(kind, w.log, |w1.log|)
    ensures During(w1, Write(w, w.flight.lastId, kind, error), action)
  {
    hide FlyingOk, BatchesBacked, ParkedBacked, ClaimBacked, KeepsTo, Grown, Beyond, FileOk, Applied, NotedWrite;
    FlyingOps(w1.flight, w1.results, w1.nextOp);
    GrowWrite(w1.flight, w1.results, w.flight, w.results, w.nextOp, action, !error);
    KeepsIssue(|w1.log|, w1.file, w1.log, w.file, w.log, kind, error);
    IssueKeepsFile(w.file, kind);
  }

  lemma DuringHard(w1: Wal, w: Wal, action: Persist, hw: HardWrite, error: bool)
    requires During(w1, w, action)
    ensures During(w1, WriteHard(w, w.flight.lastId, hw, error), action)
  {
    hide FlyingOk, BatchesBacked, ParkedBacked, ClaimBacked, KeepsTo, Grown, FileOk, NotedHard, Write;
    GrowHard(w1.flight, w1.results, w.flight, w.results, w.nextOp, action, hw.hs);
    var v := w.(flight := NotedHard(w.flight, w.flight.lastId, hw.hs));
    GrownId(w1.flight, w1.results, w.flight, w.results, w.nextOp, action);
    GrownId(w1.flight, w1.results, v.flight, v.results, v.nextOp, action);
    DuringWrite(w1, v, action, Data((hw.hs.seqno % 2) * SLOT_SIZE, hw.bytes), error);
  }

  lemma GrownId(p0: Flight, r0: map<nat, bool>, p: Flight, r: map<nat, bool>, nextOp: nat, action: Persist)
    requires Grown(p0, r0, p, r, nextOp, action)
    ensures p.lastId == p0.lastId + 1 && FlyingOk(p, r, nextOp)
  {
  }

  lemma GrownBatch(p0: Flight, r0: map<nat, bool>, p: Flight, r: map<nat, bool>, nextOp: nat, action: Persist,
                   b: DiskBatch)
    requires Grown(p0, r0, p, r, nextOp, action) && b in p.batches
    ensures NewBatch(b, p.lastId, action)
      || (b in p0.batches && (Healthy(p.ops, r, b.id) ==> Healthy(p0.ops, r0, b.id)))
  {
    hide FlyingOk;
    var k :| 0 <= k < |p.batches| && p.batches[k] == b;
    if k < |p0.batches| { assert p.batches[..|p0.batches|][k] == b; }
  }

  lemma DuringEnd(w1: Wal, w: Wal, action: Persist)
    requires During(w1, w, action)
    requires action.LogDurable? && Healthy(w.flight.ops, w.results, w.flight.lastId) ==>
      AllInCache(w.file, w.log, action.from, action.index)
    ensures WalOk(w)
  {
    hide FlyingOk, ParkedBacked, ClaimBacked, KeepsTo, Grown, FileOk, Healthy, AllInCache, AllBacked;
    GrownId(w1.flight, w1.results, w.flight, w.results, w.nextOp, action);
    KeptParked(w1.file, w1.log, w.file, w.log, w1.parked);
    KeptClaim(w1.file, w1.log, w.file, w.log, w1.durableIndex, w1.durableTerm);
    forall b | b in w.flight.batches ensures BatchBacked(w.file, w.log, w.flight.ops, w.results, b) {
      GrownBatch(w1.flight, w1.results, w.flight, w.results, w.nextOp, action, b);
      if b in w1.flight.batches
        && (Healthy(w.flight.ops, w.results, b.id) ==> Healthy(w1.flight.ops, w1.results, b.id)) {
        assert BatchBacked(w1.file, w1.log, w1.flight.ops, w1.results, b);
        KeptBatch(w1.file, w1.log, w.file, w.log, w1.flight.ops, w1.results, w.flight.ops, w.results, b, b);
      }
    }
  }

  // ---- storing entries -------------------------------------------------------------------------------

  lemma {:induction false} RecordsConcat(a: seq<Entry>, b: seq<Entry>)
    ensures Records(a + b) == Records(a) + Records(b)
  {
    hide Record;
    if |a| == 0 {
      assert a + b == b;
    } else {
      RecordsConcat(a[1..], b);
      assert (a + b)[1..] == a[1..] + b;
    }
  }

  lemma OneOfRecords(es: seq<Entry>, k: nat)
    requires k < |es|
    ensures var lo := |Records(es[..k])|; var hi := lo + |Record(es[k])|;
      hi <= |Records(es)| && Records(es)[lo..hi] == Record(es[k])
  {
    hide Record;
    var rest := es[k + 1..];
    assert es == es[..k] + ([es[k]] + rest);
    RecordsConcat(es[..k], [es[k]] + rest);
    assert ([es[k]] + rest)[1..] == rest;
  }

  lemma HoldsInside(buf: seq<byte>, at: nat, bytes: seq<byte>, lo: nat, hi: nat)
    requires Holds(buf, at, bytes) && lo <= hi <= |bytes|
    ensures Holds(buf, at + lo, bytes[lo..hi])
  {
    forall k | lo <= k < hi ensures buf[at + k] == bytes[k] { assert buf[at..at + |bytes|][k] == buf[at + k]; }
    assert buf[at + lo..at + hi] == bytes[lo..hi];
  }

  lemma OffsetAfter(log: seq<Entry>, es: seq<Entry>, k: nat)
    requires k <= |es|
    ensures Offset(log + es, |log| + k) == Offset(log, |log|) + |Records(es[..k])|
  {
    hide Record;
    assert (log + es)[..|log| + k] == log + es[..k] && log[..|log|] == log;
    RecordsConcat(log, es[..k]);
  }

  lemma RecordWithin(log: seq<Entry>, es: seq<Entry>, buf: seq<byte>, i: nat)
    requires Holds(buf, Offset(log, |log|), Records(es)) && |log| < i <= |log| + |es|
    ensures RecordIn(buf, log + es, i)
  {
    hide Record, Records, Holds, Offset;
    var k := i - |log| - 1;
    var lo := |Records(es[..k])|;
    OffsetAfter(log, es, k);
    OneOfRecords(es, k);
    HoldsInside(buf, Offset(log, |log|), Records(es), lo, lo + |Record(es[k])|);
  }

  lemma NewInCache(log: seq<Entry>, es: seq<Entry>, f: File)
    ensures AllInCache(Issued(f, Data(Offset(log, |log|), Records(es))), log + es, |log| + 1, |log| + |es|)
  {
    hide RecordIn, Applied;
    var g := Issued(f, Data(Offset(log, |log|), Records(es)));
    WrittenHolds(f.cache, Offset(log, |log|), Records(es));
    forall i: nat | |log| + 1 <= i <= |log| + |es|
      ensures RecordIn(g.cache, log + es, i) { RecordWithin(log, es, g.cache, i); }
  }

  lemma NewestOp(p0: Flight, r0: map<nat, bool>, p: Flight, r: map<nat, bool>, nextOp: nat, action: Persist, ok: bool)
    requires Grown(p0, r0, p, r, nextOp, action)
    ensures Healthy(NotedWrite(p, p.lastId, nextOp).ops, r[nextOp := ok], p.lastId) ==> ok
  {
    hide FlyingOk;
    LastBatch(p0, r0, p, r, nextOp, action);
    var ops := NotedWrite(p, p.lastId, nextOp).ops;
    assert nextOp in ops && ops[nextOp] == (p.lastId, WriteOp);
  }

  lemma StoreOk(w: Wal, cut: Option<nat>, es: seq<Entry>, hw: Option<HardWrite>, reply: Reply, errors: Errors)
    requires WalOk(w) && (cut.Some? ==> 0 < cut.value <= |w.log|)
    ensures WalOk(Store(w, cut, es, hw, reply, errors))
  {
    hide WalOk, During, Truncated, Write, WriteHard, Started, Records, Beyond, AllInCache, Healthy;
    var w1 := if cut.Some? then Truncated(w, cut.value) else w;
    if cut.Some? { TruncatedOk(w, cut.value); }
    var action := LogDurable(|w1.log| + 1, |w1.log| + |es|, reply.verified, reply.to, reply.term);
    var w2 := w1.(log := w1.log + es, flight := Started(w1.flight, action));
    var id := w2.flight.lastId;
    DuringStart(w1, es, action);
    var w3 := if hw.Some? then WriteHard(w2, id, hw.value, errors.hard) else w2;
    if hw.Some? { DuringHard(w1, w2, action, hw.value, errors.hard); WriteHardLog(w2, id, hw.value, errors.hard); }
    var kind := SetLen(Offset(w1.log, |w1.log|));
    BeyondEnd(w1.log, es);
    DuringId(w1, w2, action);
    DuringId(w1, w3, action);
    var w4 := if cut.Some? then Write(w3, id, kind, errors.cut) else w3;
    if cut.Some? { DuringWrite(w1, w3, action, kind, errors.cut); WriteLog(w3, id, kind, errors.cut); }
    DuringId(w1, w4, action);
    var w5 := Write(w4, id, Data(Offset(w1.log, |w1.log|), Records(es)), errors.records);
    DuringWrite(w1, w4, action, Data(Offset(w1.log, |w1.log|), Records(es)), errors.records);
    StoredRecords(w1, w4, es, action, errors.records);
    DuringEnd(w1, w5, action);
  }

  lemma WriteLog(w: Wal, id: nat, kind: WriteKind, error: bool)
    ensures Write(w, id, kind, error).log == w.log
  {
  }

  lemma WriteHardLog(w: Wal, id: nat, hw: HardWrite, error: bool)
    ensures WriteHard(w, id, hw, error).log == w.log
  {
  }

  lemma DuringId(w1: Wal, w: Wal, action: Persist)
    requires During(w1, w, action)
    ensures w.flight.lastId == w1.flight.lastId + 1 && |w1.log| <= |w.log|
  {
    hide WalOk, KeepsTo, FlyingOk;
  }

  /** The end of the old log is beyond all of it, in the new log too. */
  lemma BeyondEnd(log: seq<Entry>, es: seq<Entry>)
    ensures Beyond(SetLen(Offset(log, |log|)), log + es, |log|)
    ensures Beyond(Data(Offset(log, |log|), Records(es)), log + es, |log|)
  {
    OffsetPrefix(log, log + es, |log|);
  }

  lemma StoredRecords(w1: Wal, w: Wal, es: seq<Entry>, action: Persist, error: bool)
    requires During(w1, w, action) && w.log == w1.log + es
    ensures var v := Write(w, w.flight.lastId, Data(Offset(w1.log, |w1.log|), Records(es)), error);
      v.flight.lastId == w.flight.lastId &&
      (Healthy(v.flight.ops, v.results, v.flight.lastId) ==> AllInCache(v.file, v.log, |w1.log| + 1, |w1.log| + |es|))
  {
    hide WalOk, KeepsTo, Grown, Records, AllInCache, Healthy, Issued;
    NewestOp(w1.flight, w1.results, w.flight, w.results, w.nextOp, action, !error);
    NewInCache(w1.log, es, w.file);
  }

  lemma StoreHardOk(w: Wal, action: Persist, hw: HardWrite, error: bool)
    requires WalOk(w) && (action.LogDurable? ==> action.from > action.index)
    ensures WalOk(StoreHard(w, action, hw, error))
  {
    hide WalOk, During, WriteHard, Started, Healthy;
    DuringStart(w, [], action);
    var v := w.(log := w.log + [], flight := Started(w.flight, action));
    assert w.log + [] == w.log;
    DuringId(w, v, action);
    DuringHard(w, v, action, hw, error);
    DuringEnd(w, StoreHard(w, action, hw, error), action);
  }

  // ---- completions ----------------------------------------------------------------------------------------

  lemma AdvancedOk(w: Wal)
    requires WalOk(w)
    ensures WalOk(Advanced(w))
  {
    hide FileOk, FlyingOk, BatchesBacked, Backed, Reach, Above;
    var cap := LastIndexAtMost(w.log, w.durableTerm);
    ReachFacts(w.durableIndex, w.parked, cap);
    AboveFacts(w.parked, Reach(w.durableIndex, w.parked, cap));
    var d := Reach(w.durableIndex, w.parked, cap);
    forall i: nat | 0 < i <= d ensures Backed(w.file, w.log, i) {
      if i > w.durableIndex {
        assert Covered(w.parked, i);
        var r :| r in w.parked && r.0 <= i <= r.1;
        assert AllBacked(w.file, w.log, r.0, r.1);
      }
    }
    if d > 0 {
      assert Backed(w.file, w.log, d);
      BackedInside(w.file, w.log, d);
    }
  }

  lemma ReachFacts(at: nat, parked: seq<(nat, nat)>, cap: nat)
    ensures var d := Reach(at, parked, cap);
      at <= d && (d <= at || d <= cap) && forall i :: at < i <= d ==> Covered(parked, i)
  {
  }

  lemma AboveFacts(parked: seq<(nat, nat)>, at: nat)
    ensures forall r :: r in Above(parked, at) ==> r in parked
  {
  }

  lemma NotedOk(w: Wal, hard: Option<HardState>)
    requires WalOk(w)
    ensures WalOk(Noted(w, hard)) && Noted(w, hard).file == w.file && Noted(w, hard).log == w.log
  {
    hide FileOk, FlyingOk, BatchesBacked, ParkedBacked, AllBacked, Advanced;
    if hard.Some? {
      var v := if hard.value.seqno >= w.durableHard.seqno then w.(durableHard := hard.value) else w;
      if hard.value.term > v.durableTerm {
        AdvancedOk(v.(durableTerm := hard.value.term));
        AdvancedSame(v.(durableTerm := hard.value.term));
      }
    }
  }

  lemma AdvancedSame(w: Wal)
    ensures Advanced(w).file == w.file && Advanced(w).log == w.log
  {
  }

  lemma ClaimedOk(w: Wal, action: Persist)
    requires WalOk(w) && (action.LogDurable? ==> AllBacked(w.file, w.log, action.from, action.index))
    ensures WalOk(Claimed(w, action))
  {
    hide FileOk, FlyingOk, BatchesBacked, ClaimBacked, Backed, Advanced;
    if action.LogDurable? {
      var index := Min(action.index, |w.log|);
      if index > w.durableIndex {
        assert AllBacked(w.file, w.log, action.from, index);
        AdvancedOk(w.(parked := w.parked + [(action.from, index)]));
      }
    }
  }

  /** Losing one operation that succeeded leaves a batch as healthy as it was. */
  lemma HealthyWithout(ops: map<nat, (nat, OpKind)>, results: map<nat, bool>, op: nat, id: nat)
    requires op in ops && op in results && (ops[op].0 == id ==> results[op])
    ensures Healthy(ops - {op}, results - {op}, id) ==> Healthy(ops, results, id)
  {
    assert forall o :: o in ops && o != op ==> o in ops - {op};
  }

  /**
   What is left in flight after a completion was in flight before it, and does not belong to the
   operation if it failed.
  */
  ghost predicate Left(p: Flight, op: nat, ok: bool, c: DiskBatch) {
    exists b :: b in p.batches && b.id == c.id && b.action == c.action && b.syncIssued == c.syncIssued
      && (op in p.ops && p.ops[op].0 == b.id ==> ok && p.ops[op].1 == WriteOp)
  }

  lemma CompletedLeft(p: Flight, op: nat, ok: bool)
    requires FlightOk(p)
    ensures var q := Completed(p, op, ok).0; q.ops == p.ops - {op} && forall c :: c in q.batches ==> Left(p, op, ok, c)
  {
    var q := Completed(p, op, ok).0;
    hide Outstanding;
    if op !in p.ops { assert p.ops - {op} == p.ops; }
    forall c | c in q.batches ensures Left(p, op, ok, c) {
      if op in p.ops {
        LeftOne(p, op, ok, c);
      } else {
        assert c in p.batches;
      }
    }
  }

  lemma LeftOne(p: Flight, op: nat, ok: bool, c: DiskBatch)
    requires DistinctIds(p.batches) && op in p.ops && c in Completed(p, op, ok).0.batches
    ensures Left(p, op, ok, c)
  {
    var (id, kind) := p.ops[op];
    var at := Find(p.batches, id);
    if ok && at.Some? && kind == WriteOp {
      var k := at.value;
      if c.id == id {
        assert p.batches[k] in p.batches;
        assert forall j :: 0 <= j < |p.batches| && j != k ==> p.batches[j].id != id;
      } else {
        assert c in p.batches;
      }
    } else {
      assert c in p.batches;
    }
  }

  lemma SyncsLeft(p: Flight, op: nat, ok: bool)
    requires FlightOk(p) && SyncsOk(p)
    ensures SyncsOk(Completed(p, op, ok).0)
  {
    hide FlightOk;
    CompletedLeft(p, op, ok);
    hide Completed;
    var q := Completed(p, op, ok).0;
    forall c, o | c in q.batches && o in q.ops && q.ops[o].0 == c.id ensures q.ops[o].1 == SyncOp <==> c.syncIssued {
      assert Left(p, op, ok, c);
    }
  }

  /** Everything but the event's own consequence. */
  lemma CompletedKeeps(w: Wal, op: nat)
    requires WalOk(w) && op in w.results
    ensures WalOk(w.(flight := Completed(w.flight, op, w.results[op]).0, results := w.results - {op}))
  {
    hide FileOk, ParkedBacked, ClaimBacked, BatchBacked;
    var ok := w.results[op];
    var q := Completed(w.flight, op, ok).0;
    CompletedOk(w.flight, op, ok);
    SyncsLeft(w.flight, op, ok);
    CompletedLeft(w.flight, op, ok);
    hide Completed, FlightOk, SyncsOk;
    assert w.log <= w.log && w.log[..|w.log|] == w.log;
    KeepsPrefix(|w.log|, w.file, w.log, w.log);
    hide KeepsTo;
    forall c | c in q.batches ensures BatchBacked(w.file, w.log, q.ops, w.results - {op}, c) {
      LeftBacked(w, op, q, c);
    }
  }

  lemma LeftBacked(w: Wal, op: nat, q: Flight, c: DiskBatch)
    requires BatchesBacked(w.file, w.log, w.flight, w.results) && op in w.results
    requires FlyingOk(w.flight, w.results, w.nextOp)
    requires q.ops == w.flight.ops - {op} && Left(w.flight, op, w.results[op], c)
    ensures BatchBacked(w.file, w.log, q.ops, w.results - {op}, c)
  {
    hide BatchBacked, Healthy;
    var b :| b in w.flight.batches && b.id == c.id && b.action == c.action && b.syncIssued == c.syncIssued
      && (op in w.flight.ops && w.flight.ops[op].0 == b.id ==> w.results[op] && w.flight.ops[op].1 == WriteOp);
    assert BatchBacked(w.file, w.log, w.flight.ops, w.results, b);
    KeepsPrefix(|w.log|, w.file, w.log, w.log);
    if op in w.flight.ops { HealthyWithout(w.flight.ops, w.results, op, b.id); }
    else { OpsWithout(w.flight.ops, w.results, op, b.id); }
    KeptBatch(w.file, w.log, w.file, w.log, w.flight.ops, w.results, q.ops, w.results - {op}, b, c);
  }

  lemma OpsWithout(ops: map<nat, (nat, OpKind)>, results: map<nat, bool>, op: nat, id: nat)
    requires op !in ops
    ensures Healthy(ops - {op}, results - {op}, id) ==> Healthy(ops, results, id)
  {
    assert ops - {op} == ops;
  }

  /** A batch whose sync reports success had nothing else to wait for: its entries are backed. */
  lemma DoneIsBacked(w: Wal, op: nat)
    requires WalOk(w) && op in w.results && Completed(w.flight, op, w.results[op]).1.Done?
    ensures var action := Completed(w.flight, op, w.results[op]).1.action;
      action.LogDurable? ==> AllBacked(w.file, w.log, action.from, action.index)
  {
    hide FileOk, ParkedBacked, ClaimBacked, AllBacked, AllInCache;
    var p := w.flight;
    var (id, kind) := p.ops[op];
    var k := Find(p.batches, id).value;
    var b := p.batches[k];
    assert b in p.batches;
    assert BatchBacked(w.file, w.log, p.ops, w.results, b);
    assert b.syncIssued;
    forall o | o in p.ops && p.ops[o].0 == id ensures o in w.results && w.results[o] { assert o == op; }
  }

  /** A batch whose writes were all confirmed has its entries in the cache. */
  lemma ConfirmedIsCached(p: Flight, f: File, log: seq<Entry>, results: map<nat, bool>, k: nat)
    requires FlightOk(p) && SyncsOk(p) && BatchesBacked(f, log, p, results) && k < |p.batches|
    requires p.batches[k].outstanding == 0 && !p.batches[k].syncIssued && p.batches[k].action.LogDurable?
    ensures AllInCache(f, log, p.batches[k].action.from, p.batches[k].action.index)
    ensures forall op :: op in p.ops ==> p.ops[op].0 != p.batches[k].id
  {
    hide AllBacked, AllInCache;
    var b := p.batches[k];
    assert b in p.batches;
    assert BatchBacked(f, log, p.ops, results, b);
    NoOps(p, b);
  }

  lemma NoOps(p: Flight, b: DiskBatch)
    requires FlightOk(p) && SyncsOk(p) && b in p.batches && b.outstanding == 0 && !b.syncIssued
    ensures forall op :: op in p.ops ==> p.ops[op].0 != b.id
  {
    assert Outstanding(p.ops, b.id) == {};
    forall op | op in p.ops
      ensures p.ops[op].0 != b.id { assert p.ops[op] == (b.id, WriteOp) ==> op in Outstanding(p.ops, b.id); }
  }

  lemma SyncKeepsFile(f: File)
    requires FileOk(f)
    ensures FileOk(Synced(f))
  {
  }

  lemma SyncKeepsTo(f: File, log: seq<Entry>)
    requires FileOk(f)
    ensures KeepsTo(|log|, f, log, Synced(f), log)
  {
    hide Backed, RecordIn;
    forall i: nat | 0 < i <= |log|
      ensures (Backed(f, log, i) ==> Backed(Synced(f), log, i))
      ensures (RecordIn(f.cache, log, i) ==> RecordIn(Synced(f).cache, log, i))
    {
      if Backed(f, log, i) { BackedIsCached(f, log, i); SyncBacks(f, log, i); }
      if RecordIn(f.cache, log, i) { SyncBacks(f, log, i); }
    }
  }

  lemma SyncBacksAll(f: File, log: seq<Entry>, from: nat, to: nat)
    requires FileOk(f) && AllInCache(f, log, from, to)
    ensures AllBacked(Synced(f), log, from, to)
  {
    hide Backed, RecordIn;
    forall i: nat | 0 < i && from <= i <= to ensures Backed(Synced(f), log, i) {
      assert RecordIn(f.cache, log, i);
      SyncBacks(f, log, i);
    }
  }

  lemma SyncFlying(p: Flight, results: map<nat, bool>, nextOp: nat, k: nat, ok: bool)
    requires FlyingOk(p, results, nextOp) && k < |p.batches| && p.batches[k].outstanding == 0
    requires !p.batches[k].syncIssued
    ensures FlyingOk(NotedSync(p, p.batches[k].id, nextOp), results[nextOp := ok], nextOp + 1)
    ensures NotedSync(p, p.batches[k].id, nextOp) ==
      p.(batches := p.batches[k := p.batches[k].(syncIssued := true)],
         ops := p.ops[nextOp := (p.batches[k].id, SyncOp)])
  {
    var id := p.batches[k].id;
    assert p.batches[k] in p.batches;
    NoOps(p, p.batches[k]);
    NotedSyncOk(p, id, nextOp);
    FlyingIds(p, results, nextOp);
    var q := NotedSync(p, id, nextOp);
    hide FlightOk, Outstanding;
    FindAt(p.batches, k);
    forall b, op | b in q.batches && op in q.ops && q.ops[op].0 == b.id
      ensures q.ops[op].1 == SyncOp <==> b.syncIssued
    {
      if b.id == id {
        assert op == nextOp;
        assert forall j :: 0 <= j < |p.batches| && j != k ==> p.batches[j].id != id;
      } else {
        assert b in p.batches;
      }
    }
  }

  lemma FindAt(bs: seq<DiskBatch>, k: nat)
    requires DistinctIds(bs) && k < |bs|
    ensures Find(bs, bs[k].id) == Some(k)
  {
  }

  lemma SyncOk(w: Wal, k: nat, error: bool)
    requires WalOk(w) && k < |w.flight.batches| && w.flight.batches[k].outstanding == 0
    requires !w.flight.batches[k].syncIssued
    ensures WalOk(Sync(w, w.flight.batches[k].id, error))
  {
    hide FileOk, FlyingOk, ParkedBacked, ClaimBacked, BatchBacked, Synced, NotedSync, KeepsTo;
    var b0 := w.flight.batches[k];
    var v := Sync(w, b0.id, error);
    SyncFlying(w.flight, w.results, w.nextOp, k, !error);
    SyncKeepsFile(w.file);
    KeepsPrefix(|w.log|, w.file, w.log, w.log);
    SyncKeepsTo(w.file, w.log);
    KeptParked(w.file, w.log, v.file, w.log, w.parked);
    KeptClaim(w.file, w.log, v.file, w.log, w.durableIndex, w.durableTerm);
    FlyingOps(w.flight, w.results, w.nextOp);
    FlyingIds(w.flight, w.results, w.nextOp);
    forall b | b in v.flight.batches ensures BatchBacked(v.file, w.log, v.flight.ops, v.results, b) {
      if b.id == b0.id {
        assert b == b0.(syncIssued := true);
        SyncedBatch(w, k, error);
      } else {
        assert b in w.flight.batches && BatchBacked(w.file, w.log, w.flight.ops, w.results, b);
        OtherHealthy(w.flight.ops, w.results, w.nextOp, b0.id, b.id, !error);
        KeptBatch(w.file, w.log, v.file, w.log, w.flight.ops, w.results, v.flight.ops, v.results, b, b);
      }
    }
  }

  lemma OtherHealthy(ops: map<nat, (nat, OpKind)>, results: map<nat, bool>, nextOp: nat, id: nat, other: nat, ok: bool)
    requires nextOp !in ops && id != other && forall op :: op in ops ==> op in results
    ensures Healthy(ops[nextOp := (id, SyncOp)], results[nextOp := ok], other) ==> Healthy(ops, results, other)
  {
    assert forall op :: op in ops ==> op in ops[nextOp := (id, SyncOp)];
  }

  lemma SyncedBatch(w: Wal, k: nat, error: bool)
    requires WalOk(w) && k < |w.flight.batches| && w.flight.batches[k].outstanding == 0
    requires !w.flight.batches[k].syncIssued
    ensures var b := w.flight.batches[k];
      BatchBacked(if error then w.file else Synced(w.file), w.log, w.flight.ops[w.nextOp := (b.id, SyncOp)],
                  w.results[w.nextOp := !error], b.(syncIssued := true))
  {
    hide FileOk, ParkedBacked, ClaimBacked, AllBacked, AllInCache, Synced, FlightOk, SyncsOk;
    var b := w.flight.batches[k];
    if b.action.LogDurable? && !error {
      ConfirmedIsCached(w.flight, w.file, w.log, w.results, k);
      SyncBacksAll(w.file, w.log, b.action.from, b.action.index);
    }
    assert w.nextOp in w.flight.ops[w.nextOp := (b.id, SyncOp)];
  }

  lemma NeedSyncBatch(p: Flight, op: nat, ok: bool)
    requires Completed(p, op, ok).1.NeedSync?
    ensures var (q, ev) := Completed(p, op, ok);
      exists k ::
        0 <= k < |q.batches| && q.batches[k].id == ev.id && q.batches[k].outstanding == 0 && !q.batches[k].syncIssued
  {
    var (q, ev) := Completed(p, op, ok);
    var k := Find(p.batches, ev.id).value;
    assert q.batches[k].id == ev.id && q.batches[k].outstanding == 0;
  }

  lemma OnStorageOk(w: Wal, op: nat, error: bool)
    requires WalOk(w) && op in w.results
    ensures WalOk(OnStorage(w, op, error))
  {
    hide WalOk, Completed, Sync, Claimed, Noted;
    var (flight, ev) := Completed(w.flight, op, w.results[op]);
    var v := w.(flight := flight, results := w.results - {op});
    CompletedKeeps(w, op);
    match ev {
      case Nothing =>
      case Failed => FailedOk(v);
      case NeedSync(id) =>
        NeedSyncBatch(w.flight, op, w.results[op]);
        var k :|
          0 <= k < |flight.batches| && flight.batches[k].id == id && flight.batches[k].outstanding == 0
            && !flight.batches[k].syncIssued;
        SyncOk(v, k, error);
      case Done(action, hard) =>
        DoneIsBacked(w, op);
        NotedOk(v, hard);
        ClaimedOk(Noted(v, hard), action);
    }
  }

  lemma FailedOk(w: Wal)
    requires WalOk(w)
    ensures WalOk(w.(failed := true))
  {
  }

  // ---- crashes and recovery ----------------------------------------------------------------------------------

  function LogRegion(img: seq<byte>): seq<byte> {
    if |img| > LOG_REGION then img[LOG_REGION..] else []
  }

  /** The log a node comes back with: the records in its file, up to the term its hard state names. */
  function RecoveredLogOf(img: seq<byte>, term: nat): seq<Entry> {
    var es := Recover(LogRegion(img), 1, 0);
    es[..LastIndexAtMost(es, term)]
  }

  function Restarted(img: seq<byte>, hs: HardState): Wal {
    var log := RecoveredLogOf(img, hs.term);
    Wal(log, File(img, img, []), EMPTY, map[], 1, |log|, [], hs.term, hs, false)
  }

  lemma {:induction false} RecordsHeld(buf: seq<byte>, log: seq<Entry>, i: nat)
    requires i <= |log| && forall k :: 0 < k <= i ==> RecordIn(buf, log, k)
    ensures Offset(log, i) <= |buf| || i == 0
    ensures i > 0 ==> buf[LOG_REGION..Offset(log, i)] == Records(log[..i])
  {
    hide Record, Records;
    if i > 0 {
      RecordsHeld(buf, log, i - 1);
      assert RecordIn(buf, log, i);
      OffsetNext(log, i);
      assert log[..i] == log[..i - 1] + [log[i - 1]];
      RecordsAppend(log[..i - 1], log[i - 1]);
      var at, end := Offset(log, i - 1), Offset(log, i);
      if i > 1 {
        assert buf[LOG_REGION..end] == buf[LOG_REGION..at] + buf[at..end];
      } else {
        NoRecords(log);
      }
    }
  }

  lemma NoRecords(log: seq<Entry>)
    ensures log[..0] == [] && Records(log[..0]) == []
  {
  }

  lemma {:induction false} ChainPrefix(es: seq<Entry>, k: nat, next: nat, term: nat)
    requires Chain(es, next, term) && k <= |es|
    ensures Chain(es[..k], next, term)
    decreases k
  {
    hide Storable;
    if k > 0 {
      ChainPrefix(es[1..], k - 1, next + 1, es[0].term);
      assert es[..k][1..] == es[1..][..k - 1];
    }
  }

  /** The durable entries' records are in every image a crash can leave, one after another. */
  lemma ClaimsInImage(w: Wal, img: seq<byte>)
    requires WalOk(w) && CrashImage(w.file, img)
    ensures Records(w.log[..w.durableIndex]) <= LogRegion(img)
  {
    hide Holds, Record, Spares, FlyingOk, BatchesBacked, ParkedBacked, CrashImage;
    var d := w.durableIndex;
    forall i | 0 < i <= d ensures RecordIn(img, w.log, i) {
      assert Backed(w.file, w.log, i);
      OffsetNext(w.log, i);
      CrashSpares(w.file, img, Offset(w.log, i - 1), Record(w.log[i - 1]));
    }
    RecordsHeld(img, w.log, d);
    if d == 0 { NoRecords(w.log); } else { RegionPrefix(img, Offset(w.log, d), Records(w.log[..d])); }
  }

  lemma RegionPrefix(img: seq<byte>, end: nat, bytes: seq<byte>)
    requires LOG_REGION <= end <= |img| && img[LOG_REGION..end] == bytes
    ensures bytes <= LogRegion(img)
  {
    if end > LOG_REGION { assert img[LOG_REGION..][..end - LOG_REGION] == img[LOG_REGION..end]; }
  }

  lemma TermCutKeeps(es: seq<Entry>, all: seq<Entry>, term: nat)
    requires es <= all && forall i :: 0 <= i < |es| ==> es[i].term <= term
    ensures es <= all[..LastIndexAtMost(all, term)]
  {
    assert forall i :: 0 <= i < |es| ==> all[i] == es[i];
  }

  /**
   Every claim is backed: whatever batches overlapped, failed or were truncated, and whatever a crash
   does to the unsynced writes, the records of the entries claimed durable are at the front of the log
   file. They come back exactly when each reads back (a record over the limit does not) and the
   hard state that comes back knows their terms.
  */
  lemma ClaimsSurviveCrashes(w: Wal, img: seq<byte>, hs: HardState)
    requires WalOk(w) && CrashImage(w.file, img)
    ensures w.log[..w.durableIndex] <= Restarted(img, hs).log
      <==> Chain(w.log[..w.durableIndex], 1, 0) && forall i :: 0 <= i < w.durableIndex ==> w.log[i].term <= hs.term
  {
    hide Chain, FileOk, FlyingOk, BatchesBacked, ParkedBacked, AllBacked, CrashImage, Records, Recover, LogRegion;
    ClaimsInImage(w, img);
    var d, region := w.durableIndex, LogRegion(img);
    var es, all := w.log[..d], Recover(LogRegion(img), 1, 0);
    if Chain(es, 1, 0) && forall i :: 0 <= i < d ==> w.log[i].term <= hs.term {
      var junk := region[|Records(es)|..];
      assert region == Records(es) + junk;
      RecoverKeepsPrefix(es, junk, 1, 0);
      TermCutKeeps(es, all, hs.term);
    }
    if es <= all[..LastIndexAtMost(all, hs.term)] {
      RecoverFrom(region, 1, 0);
      ChainPrefix(all, d, 1, 0);
      assert all[..d] == es;
      assert forall i :: 0 <= i < d ==> w.log[i] == all[i];
    }
  }

  lemma {:induction false} RecordsPrefix(es: seq<Entry>, k: nat)
    requires k <= |es|
    ensures Records(es[..k]) <= Records(es)
  {
    hide Record;
    if k > 0 {
      RecordsPrefix(es[1..], k - 1);
      assert es[..k][0] == es[0] && es[..k][1..] == es[1..][..k - 1];
    }
  }

  /** A recovered node's claims are backed again. */
  lemma RestartedOk(img: seq<byte>, hs: HardState)
    ensures WalOk(Restarted(img, hs))
  {
    hide Records, Recover, RecordIn, Chain;
    var w := Restarted(img, hs);
    var region := LogRegion(img);
    var es := Recover(region, 1, 0);
    RecoverFrom(region, 1, 0);
    RecordsPrefix(es, |w.log|);
    assert Records(w.log) <= region;
    forall i: nat | 0 < i <= |w.log| ensures RecordIn(img, w.log, i) { RecordAt(img, w.log, i); }
    assert BatchesBacked(w.file, w.log, w.flight, w.results);
  }

  lemma RecordAt(img: seq<byte>, log: seq<Entry>, i: nat)
    requires Records(log) <= LogRegion(img) && 0 < i <= |log|
    ensures RecordIn(img, log, i)
  {
    hide Record, Records, Holds;
    var lo := |Records(log[..i - 1])|;
    OneOfRecords(log, i - 1);
    RecordSize(log[i - 1]);
    var region := LogRegion(img);
    RegionHolds(img, Records(log));
    HoldsInside(img, LOG_REGION, Records(log), lo, lo + |Record(log[i - 1])|);
  }

  lemma RegionHolds(img: seq<byte>, bytes: seq<byte>)
    requires bytes <= LogRegion(img) && |bytes| > 0
    ensures Holds(img, LOG_REGION, bytes)
  {
    assert img[LOG_REGION..][..|bytes|] == bytes;
    forall k | 0 <= k < |bytes|
      ensures img[LOG_REGION + k] == bytes[k] { assert img[LOG_REGION..][k] == img[LOG_REGION + k]; }
    assert img[LOG_REGION..LOG_REGION + |bytes|] == bytes;
  }

  // ---- runs -----------------------------------------------------------------------------------------------------

  datatype WalAction =
    | Take(cut: Option<nat>, es: seq<Entry>, hw: Option<HardWrite>, reply: Reply, errors: Errors)
    | Vote(action: Persist, hard: HardWrite, error: bool)
    | Storage(op: nat, syncError: bool)
    | PowerLoss(img: seq<byte>, back: HardState)

  ghost predicate WalEnabled(w: Wal, a: WalAction) {
    match a
    case Take(cut, _, _, _, _) => !w.failed && (cut.Some? ==> 0 < cut.value <= |w.log|)
    case Vote(action, _, _) => !w.failed && (action.LogDurable? ==> action.from > action.index)
    case Storage(op, _) => !w.failed && op in w.results
    case PowerLoss(img, _) => CrashImage(w.file, img)
  }

  ghost function WalNext(w: Wal, a: WalAction): Wal
    requires WalEnabled(w, a)
  {
    match a
    case Take(cut, es, hw, reply, errors) => Store(w, cut, es, hw, reply, errors)
    case Vote(action, hard, error) => StoreHard(w, action, hard, error)
    case Storage(op, error) => OnStorage(w, op, error)
    case PowerLoss(img, back) => Restarted(img, back)
  }

  /** A run that begins with whatever was on the disk. */
  ghost predicate WalRun(ws: seq<Wal>, acts: seq<WalAction>) {
    && |ws| == |acts| + 1
    && (exists img, hs :: ws[0] == Restarted(img, hs))
    && forall i :: 0 <= i < |acts| ==> WalEnabled(ws[i], acts[i]) && ws[i + 1] == WalNext(ws[i], acts[i])
  }

  lemma WalStepOk(w: Wal, a: WalAction)
    requires WalOk(w) && WalEnabled(w, a)
    ensures WalOk(WalNext(w, a))
  {
    hide WalOk, Store, StoreHard, OnStorage, Restarted, CrashImage;
    match a {
      case Take(cut, es, hw, reply, errors) => StoreOk(w, cut, es, hw, reply, errors);
      case Vote(action, hard, error) => StoreHardOk(w, action, hard, error);
      case Storage(op, error) => OnStorageOk(w, op, error);
      case PowerLoss(img, back) => RestartedOk(img, back);
    }
  }

  lemma {:induction false} WalRunOk(ws: seq<Wal>, acts: seq<WalAction>, i: nat)
    requires WalRun(ws, acts) && i < |ws|
    ensures WalOk(ws[i])
    decreases i
  {
    hide WalOk, WalEnabled, WalNext, Restarted;
    if i == 0 {
      var img, hs :| ws[0] == Restarted(img, hs);
      RestartedOk(img, hs);
    } else {
      WalRunOk(ws, acts, i - 1);
      assert ws[i - 1 + 1] == WalNext(ws[i - 1], acts[i - 1]);
      WalStepOk(ws[i - 1], acts[i - 1]);
    }
  }

  /**
   In every state of every run, through any number of crashes, what is claimed durable would survive a
   crash, exactly when its records read back and the hard state that comes back knows their terms.
  */
  lemma DurableClaimsHold(ws: seq<Wal>, acts: seq<WalAction>, i: nat, img: seq<byte>, hs: HardState)
    requires WalRun(ws, acts) && i < |ws| && CrashImage(ws[i].file, img)
    ensures var (log, d) := (ws[i].log, ws[i].durableIndex);
      && d <= |log| && (forall k :: 0 <= k < d ==> log[k].term <= ws[i].durableTerm)
      && (log[..d] <= Restarted(img, hs).log <==>
          Chain(log[..d], 1, 0) && forall k :: 0 <= k < d ==> log[k].term <= hs.term)
  {
    WalRunOk(ws, acts, i);
    ClaimInside(ws[i]);
    hide WalOk, WalRun, CrashImage, Chain, Restarted;
    ClaimsSurviveCrashes(ws[i], img, hs);
  }

  lemma ClaimInside(w: Wal)
    requires WalOk(w)
    ensures w.durableIndex <= |w.log| && forall k :: 0 <= k < w.durableIndex ==> w.log[k].term <= w.durableTerm
  {
  }
}
