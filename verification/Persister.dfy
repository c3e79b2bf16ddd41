/**
 Write, confirm, sync, confirm: the batches of writes a node has in flight. A sync is issued only
 when every write of its batch was confirmed, and one failed operation takes its batch with it.
*/
module Persister {
  import opened Types
  import opened RaftSpec

  datatype OpKind = WriteOp | SyncOp

  datatype DiskBatch = DiskBatch(id: nat, outstanding: nat, syncIssued: bool, action: Persist, hard: Option<HardState>)

  datatype Flight = Flight(lastId: nat, batches: seq<DiskBatch>, ops: map<nat, (nat, OpKind)>)

  datatype BatchEvent = Nothing | NeedSync(id: nat) | Done(action: Persist, hard: Option<HardState>) | Failed

  const EMPTY := Flight(0, [], map[])

  /** The position of batch `id`, if it is in flight. */
  function Find(bs: seq<DiskBatch>, id: nat): (r: Option<nat>)
    ensures r.Some? ==> r.value < |bs| && bs[r.value].id == id && forall k :: 0 <= k < r.value ==> bs[k].id != id
    ensures r.None? ==> forall k :: 0 <= k < |bs| ==> bs[k].id != id
  {
    if |bs| == 0 then None
    else if bs[0].id == id then Some(0)
    else
      match Find(bs[1..], id)
      case None => assert forall k :: 1 <= k < |bs| ==> bs[k] == bs[1..][k - 1]; None
      case Some(k) => assert forall j :: 1 <= j < k + 1 ==> bs[j] == bs[1..][j - 1]; Some(k + 1)
  }

  function Without(bs: seq<DiskBatch>, id: nat): (r: seq<DiskBatch>)
    ensures forall b :: b in r <==> b in bs && b.id != id
  {
    if |bs| == 0 then [] else (if bs[0].id == id then [] else [bs[0]]) + Without(bs[1..], id)
  }

  function Started(p: Flight, action: Persist): Flight {
    p.(lastId := p.lastId + 1, batches := p.batches + [DiskBatch(p.lastId + 1, 0, false, action, None)])
  }

  function NotedWrite(p: Flight, id: nat, op: nat): Flight {
    var ops := p.ops[op := (id, WriteOp)];
    match Find(p.batches, id)
    case None => p.(ops := ops)
    case Some(k) =>
      p.(batches := p.batches[k := p.batches[k].(outstanding := p.batches[k].outstanding + 1)], ops := ops)
  }

  function NotedHard(p: Flight, id: nat, hs: HardState): Flight {
    match Find(p.batches, id)
    case None => p
    case Some(k) => p.(batches := p.batches[k := p.batches[k].(hard := Some(hs))])
  }

  function NotedSync(p: Flight, id: nat, op: nat): Flight {
    var ops := p.ops[op := (id, SyncOp)];
    match Find(p.batches, id)
    case None => p.(ops := ops)
    case Some(k) => p.(batches := p.batches[k := p.batches[k].(syncIssued := true)], ops := ops)
  }

  /** An operation completed. */
  function Completed(p: Flight, op: nat, ok: bool): (Flight, BatchEvent) {
    if op !in p.ops then (p, Nothing)
    else
      var (id, kind) := p.ops[op];
      var q := p.(ops := p.ops - {op});
      if !ok then (q.(batches := Without(q.batches, id)), Failed)
      else
        match Find(q.batches, id)
        case None => (q, Nothing)
        case Some(k) =>
          var b := q.batches[k];
          if kind == SyncOp then (q.(batches := q.batches[..k] + q.batches[k + 1..]), Done(b.action, b.hard))
          else
            var c := b.(outstanding := if b.outstanding > 0 then b.outstanding - 1 else 0);
            (q.(batches := q.batches[k := c]), if c.outstanding == 0 && !b.syncIssued then NeedSync(id) else Nothing)
  }

  function Clamped(p: Flight, cap: nat): Flight {
    p.(batches :=
       seq(|p.batches|, k requires 0 <= k < |p.batches| => p.batches[k].(action := Clamp(p.batches[k].action, cap))))
  }

  /** Every operation a batch waits for is on its way, and no other is. */
  function Outstanding(ops: map<nat, (nat, OpKind)>, id: nat): set<nat> {
    set op | op in ops && ops[op] == (id, WriteOp)
  }

  ghost predicate DistinctIds(bs: seq<DiskBatch>) {
    forall a, b :: 0 <= a < b < |bs| ==> bs[a].id != bs[b].id
  }

  ghost predicate FlightOk(p: Flight) {
    && DistinctIds(p.batches)
    && (forall b :: b in p.batches ==> b.id <= p.lastId && b.outstanding == |Outstanding(p.ops, b.id)|)
    && (forall op :: op in p.ops ==> p.ops[op].0 <= p.lastId)
  }

  class Persister {
    var lastId: nat
    var batches: seq<DiskBatch>
    var ops: map<nat, (nat, OpKind)>

    ghost function View(): Flight
      reads this
    {
      Flight(lastId, batches, ops)
    }

    constructor ()
      ensures View() == EMPTY
    {
      lastId, batches, ops := 0, [], map[];
    }

    method Start(action: Persist) returns (id: nat)
      modifies this
      ensures View() == Started(old(View()), action) && id == lastId
    {
      lastId := lastId + 1;
      batches := batches + [DiskBatch(lastId, 0, false, action, None)];
      id := lastId;
    }

    /** The batch's position, found by scanning. */
    method Position(id: nat) returns (r: Option<nat>)
      ensures r == Find(batches, id)
    {
      for k := 0 to |batches|
        invariant forall j :: 0 <= j < k ==> batches[j].id != id
      {
        if batches[k].id == id { return Some(k); }
      }
      r := None;
    }

    method NoteWrite(id: nat, op: nat)
      modifies this
      ensures View() == NotedWrite(old(View()), id, op)
    {
      var at := Position(id);
      if at.Some? {
        var k := at.value;
        batches := batches[k := batches[k].(outstanding := batches[k].outstanding + 1)];
      }
      ops := ops[op := (id, WriteOp)];
    }

    method NoteHardState(id: nat, hs: HardState)
      modifies this
      ensures View() == NotedHard(old(View()), id, hs)
    {
      var at := Position(id);
      if at.Some? { batches := batches[at.value := batches[at.value].(hard := Some(hs))]; }
    }

    method NoteSync(id: nat, op: nat)
      modifies this
      ensures View() == NotedSync(old(View()), id, op)
    {
      var at := Position(id);
      if at.Some? { batches := batches[at.value := batches[at.value].(syncIssued := true)]; }
      ops := ops[op := (id, SyncOp)];
    }

    method OnComplete(op: nat, ok: bool) returns (ev: BatchEvent)
      requires FlightOk(View())
      modifies this
      ensures (View(), ev) == Completed(old(View()), op, ok)
    {
      if op !in ops { return Nothing; }
      var (id, kind) := ops[op];
      ghost var before := View();
      ops := ops - {op};
      if !ok {
        Retain(id);
        return Failed;
      }
      var at := Position(id);
      if at.None? { return Nothing; }
      var k := at.value;
      var b := batches[k];
      if kind == SyncOp {
        batches := batches[..k] + batches[k + 1..];
        return Done(b.action, b.hard);
      }
      assert b in before.batches && op in Outstanding(before.ops, id);
      assert b.outstanding > 0;
      batches := batches[k := b.(outstanding := b.outstanding - 1)];
      ev := if b.outstanding - 1 == 0 && !b.syncIssued then NeedSync(id) else Nothing;
    }

    /** Drop the batch `id`. */
    method Retain(id: nat)
      modifies this`batches
      ensures batches == Without(old(batches), id)
    {
      var kept: seq<DiskBatch> := [];
      for k := 0 to |batches|
        invariant batches == old(batches)
        invariant kept == Without(batches[..k], id)
      {
        WithoutAppend(batches[..k], batches[k], id);
        assert batches[..k + 1] == batches[..k] + [batches[k]];
        if batches[k].id != id { kept := kept + [batches[k]]; }
      }
      assert batches[..|batches|] == batches;
      batches := kept;
    }

    method ClampAll(cap: nat)
      modifies this
      ensures View() == Clamped(old(View()), cap)
    {
      ghost var all := Clamped(View(), cap).batches;
      for k := 0 to |batches|
        invariant lastId == old(lastId) && ops == old(ops) && |batches| == |old(batches)|
        invariant batches == all[..k] + old(batches)[k..]
      {
        batches := batches[k := batches[k].(action := Clamp(batches[k].action, cap))];
      }
    }
  }

  lemma {:induction false} WithoutAppend(bs: seq<DiskBatch>, b: DiskBatch, id: nat)
    ensures Without(bs + [b], id) == Without(bs, id) + (if b.id == id then [] else [b])
  {
    hide Without;
    if |bs| > 0 {
      WithoutAppend(bs[1..], b, id);
      WithoutFirst(bs, id);
      WithoutFirst(bs + [b], id);
      assert (bs + [b])[1..] == bs[1..] + [b];
    } else {
      assert bs + [b] == [b] && [b][1..] == [];
      WithoutFirst([b], id);
      WithoutNone(id);
      assert [b][1..] == bs;
    }
  }

  lemma WithoutNone(id: nat)
    ensures Without([], id) == []
  {
  }

  lemma WithoutFirst(bs: seq<DiskBatch>, id: nat)
    requires |bs| > 0
    ensures Without(bs, id) == (if bs[0].id == id then [] else [bs[0]]) + Without(bs[1..], id)
  {
  }

  // ---- what the flight keeps -----------------------------------------------------------

  lemma StartedOk(p: Flight, action: Persist)
    requires FlightOk(p)
    ensures FlightOk(Started(p, action))
  {
    var q := Started(p, action);
    assert Outstanding(p.ops, p.lastId + 1) == {};
  }

  lemma OutstandingWith(ops: map<nat, (nat, OpKind)>, op: nat, id: nat, owner: nat)
    requires op !in ops
    ensures |Outstanding(ops[op := (owner, WriteOp)], id)| == |Outstanding(ops, id)| + (if id == owner then 1 else 0)
  {
    if id == owner {
      assert Outstanding(ops[op := (owner, WriteOp)], id) == Outstanding(ops, id) + {op};
    } else {
      assert Outstanding(ops[op := (owner, WriteOp)], id) == Outstanding(ops, id);
    }
  }

  lemma NotedWriteOk(p: Flight, id: nat, op: nat)
    requires FlightOk(p) && op !in p.ops && id <= p.lastId
    ensures FlightOk(NotedWrite(p, id, op))
  {
    hide Outstanding;
    var q := NotedWrite(p, id, op);
    forall b | b in q.batches ensures b.id <= q.lastId && b.outstanding == |Outstanding(q.ops, b.id)| {
      OutstandingWith(p.ops, op, b.id, id);
    }
  }

  lemma NotedSyncOk(p: Flight, id: nat, op: nat)
    requires FlightOk(p) && op !in p.ops && id <= p.lastId
    ensures FlightOk(NotedSync(p, id, op))
  {
    var q := NotedSync(p, id, op);
    forall b | b in q.batches ensures b.id <= q.lastId && b.outstanding == |Outstanding(q.ops, b.id)| {
      assert Outstanding(q.ops, b.id) == Outstanding(p.ops, b.id);
    }
  }

  lemma {:induction false} WithoutKeepsDistinct(bs: seq<DiskBatch>, id: nat)
    requires DistinctIds(bs)
    ensures DistinctIds(Without(bs, id))
  {
    if |bs| > 0 {
      WithoutKeepsDistinct(bs[1..], id);
      var rest := Without(bs[1..], id);
      forall b | b in rest ensures b.id != bs[0].id { assert b in bs[1..]; }
    }
  }

  lemma CompletedOk(p: Flight, op: nat, ok: bool)
    requires FlightOk(p)
    ensures FlightOk(Completed(p, op, ok).0)
  {
    hide Outstanding, Find, Without;
    var q := Completed(p, op, ok).0;
    if op in p.ops {
      var (id, kind) := p.ops[op];
      CompletedBatches(p, op, ok);
      forall b | b in q.batches ensures b.id <= q.lastId && b.outstanding == |Outstanding(q.ops, b.id)| {
        OutstandingWithout(p.ops, op, b.id);
      }
    }
  }

  lemma OutstandingWithout(ops: map<nat, (nat, OpKind)>, op: nat, id: nat)
    requires op in ops
    ensures |Outstanding(ops - {op}, id)| == |Outstanding(ops, id)| - (if ops[op] == (id, WriteOp) then 1 else 0)
  {
    if ops[op] == (id, WriteOp) {
      assert Outstanding(ops - {op}, id) == Outstanding(ops, id) - {op};
    } else {
      assert Outstanding(ops - {op}, id) == Outstanding(ops, id);
    }
  }

  /** `c` is a batch from before the completion of `op`, waiting for one write less if that was its write. */
  ghost predicate FromBefore(p: Flight, op: nat, c: DiskBatch)
    requires op in p.ops
  {
    exists b ::
      b in p.batches && b.id == c.id && c.outstanding == b.outstanding - (if p.ops[op] == (b.id, WriteOp) then 1 else 0)
  }

  lemma KeptFromBefore(p: Flight, op: nat, c: DiskBatch)
    requires op in p.ops && c in p.batches && p.ops[op] != (c.id, WriteOp)
    ensures FromBefore(p, op, c)
  {
  }

  lemma CountedFromBefore(p: Flight, op: nat, k: nat)
    requires op in p.ops && k < |p.batches| && p.ops[op] == (p.batches[k].id, WriteOp)
    requires forall b :: b in p.batches ==> b.outstanding == |Outstanding(p.ops, b.id)|
    ensures p.batches[k].outstanding > 0
    ensures FromBefore(p, op, p.batches[k].(outstanding := p.batches[k].outstanding - 1))
  {
    assert p.batches[k] in p.batches && op in Outstanding(p.ops, p.batches[k].id);
  }

  lemma CompletedBatches(p: Flight, op: nat, ok: bool)
    requires DistinctIds(p.batches) && op in p.ops
    requires forall b :: b in p.batches ==> b.outstanding == |Outstanding(p.ops, b.id)|
    ensures var q := Completed(p, op, ok).0;
      && q.lastId == p.lastId && q.ops == p.ops - {op} && DistinctIds(q.batches)
      && forall c :: c in q.batches ==> FromBefore(p, op, c)
  {
    hide FromBefore, Outstanding;
    var q := Completed(p, op, ok).0;
    var (id, kind) := p.ops[op];
    WithoutKeepsDistinct(p.batches, id);
    var at := Find(p.batches, id);
    if ok && at.Some? && kind == WriteOp { CountedFromBefore(p, op, at.value); }
    forall c | c in q.batches ensures FromBefore(p, op, c) {
      if c.id != id || kind == SyncOp { KeptFromBefore(p, op, c); }
    }
  }

  // ---- what is noted and told ----------------------------------------------------------------

  /** The batch at position `k` is the one by that number. */
  ghost predicate BatchAt(p: Flight, id: nat, k: nat) { k < |p.batches| && p.batches[k].id == id }

  lemma FindsBatch(p: Flight, id: nat, k: nat)
    requires DistinctIds(p.batches) && BatchAt(p, id, k)
    ensures Find(p.batches, id) == Some(k)
  {
  }

  /** A new batch waits for nothing yet; writes, hard state and sync are noted with theirs, and nothing else changes. */
  lemma NotedWithBatch(p: Flight, id: nat, k: nat, op: nat, action: Persist, hs: HardState)
    requires FlightOk(p) && BatchAt(p, id, k)
    ensures var b := p.batches[k];
      && Started(p, action) ==
         Flight(p.lastId + 1, p.batches + [DiskBatch(p.lastId + 1, 0, false, action, None)], p.ops)
      && NotedWrite(p, id, op) ==
         Flight(p.lastId, p.batches[k := b.(outstanding := b.outstanding + 1)], p.ops[op := (id, WriteOp)])
      && NotedHard(p, id, hs) == Flight(p.lastId, p.batches[k := b.(hard := Some(hs))], p.ops)
      && NotedSync(p, id, op) == Flight(p.lastId, p.batches[k := b.(syncIssued := true)], p.ops[op := (id, SyncOp)])
  {
    FindsBatch(p, id, k);
  }

  /**
   What a completion tells. A failure ends its batch, whatever else the batch waits for. A write that was
   the last of its batch on the way asks for the sync, once; a sync is the end of its batch, whose action
   and hard state are due. An operation of a batch that is gone, or of none, tells nothing.
  */
  lemma CompletionTells(p: Flight, op: nat, ok: bool, k: nat)
    requires FlightOk(p) && op in p.ops && BatchAt(p, p.ops[op].0, k)
    ensures var (q, ev) := Completed(p, op, ok);
      var (b, others) := (p.batches[k], p.batches[..k] + p.batches[k + 1..]);
      && q.lastId == p.lastId && q.ops == p.ops - {op}
      && if !ok then ev == Failed && q.batches == others
         else if p.ops[op].1 == SyncOp then ev == Done(b.action, b.hard) && q.batches == others
         else
           && q.batches == p.batches[k := b.(outstanding := |Outstanding(q.ops, b.id)|)]
           && ev == if Outstanding(q.ops, b.id) == {} && !b.syncIssued then NeedSync(b.id) else Nothing
  {
    hide Find, Without, Outstanding;
    var id := p.ops[op].0;
    FindsBatch(p, id, k);
    OutstandingWithout(p.ops, op, id);
    OneLess(p, op, id);
    WithoutOne(p.batches, id, k);
  }

  lemma OneLess(p: Flight, op: nat, id: nat)
    requires op in p.ops && p.ops[op].0 == id
    ensures p.ops[op].1 == WriteOp ==> |Outstanding(p.ops, id)| > 0
    ensures |Outstanding(p.ops - {op}, id)| == 0 <==> Outstanding(p.ops - {op}, id) == {}
  {
    if p.ops[op].1 == WriteOp { assert op in Outstanding(p.ops, id); }
  }

  lemma {:induction false} WithoutOne(bs: seq<DiskBatch>, id: nat, k: nat)
    requires DistinctIds(bs) && k < |bs| && bs[k].id == id
    ensures Without(bs, id) == bs[..k] + bs[k + 1..]
  {
    hide Without;
    WithoutFirst(bs, id);
    if k == 0 {
      WithoutAbsent(bs[1..], id);
      assert bs[..0] == [];
    } else {
      assert bs[0].id != id;
      WithoutOne(bs[1..], id, k - 1);
      SkipOne(bs, k);
    }
  }

  lemma SkipOne(bs: seq<DiskBatch>, k: nat)
    requires 0 < k < |bs|
    ensures [bs[0]] + (bs[1..][..k - 1] + bs[1..][k - 1 + 1..]) == bs[..k] + bs[k + 1..]
  {
  }

  lemma {:induction false} WithoutAbsent(bs: seq<DiskBatch>, id: nat)
    requires forall b :: b in bs ==> b.id != id
    ensures Without(bs, id) == bs
  {
    if |bs| == 0 {
      WithoutNone(id);
    } else {
      WithoutFirst(bs, id);
      hide Without;
      WithoutAbsent(bs[1..], id);
    }
  }

  /** What is left of a batch that is gone, or nothing at all, changes no batch; a failure of it is still told. */
  lemma StrayCompletion(p: Flight, op: nat, ok: bool)
    requires op in p.ops ==> forall b :: b in p.batches ==> b.id != p.ops[op].0
    ensures var (q, ev) := Completed(p, op, ok);
      q == p.(ops := p.ops - {op}) && ev == if op in p.ops && !ok then Failed else Nothing
  {
    if op in p.ops { WithoutAbsent(p.batches, p.ops[op].0); } else { assert p.ops - {op} == p.ops; }
  }
}
