/**
 One file of the simulated disk: what is durable, what the running node sees, and the writes in
 between. A crash loses, tears and reorders unsynced writes at will.
*/
module Disk {
  import opened Types

  datatype WriteKind = Data(offset: nat, bytes: seq<byte>) | SetLen(len: nat)

  datatype File = File(durable: seq<byte>, cache: seq<byte>, pending: seq<WriteKind>)

  function Zeros(n: nat): (z: seq<byte>)
    ensures |z| == n
  {
    seq(n, _ => 0)
  }

  /** Cut or zero-extended to `len`. */
  function Resized(buf: seq<byte>, len: nat): (r: seq<byte>)
    ensures |r| == len
  {
    if len <= |buf| then buf[..len] else buf + Zeros(len - |buf|)
  }

  /** A write past the end leaves a hole of zeros. */
  function Applied(buf: seq<byte>, w: WriteKind): (r: seq<byte>)
  {
    match w
    case SetLen(len) => Resized(buf, len)
    case Data(offset, bytes) =>
      var end := offset + |bytes|;
      var room := if |buf| < end then Resized(buf, end) else buf;
      room[..offset] + bytes + room[end..]
  }

  function AppliedAll(buf: seq<byte>, ws: seq<WriteKind>): seq<byte> {
    if |ws| == 0 then buf else Applied(AppliedAll(buf, ws[..|ws| - 1]), ws[|ws| - 1])
  }

  /** The cache is the durable bytes with every pending write applied. */
  ghost predicate FileOk(f: File) { f.cache == AppliedAll(f.durable, f.pending) }

  function Issued(f: File, w: WriteKind): File {
    File(f.durable, Applied(f.cache, w), f.pending + [w])
  }

  function Synced(f: File): File {
    File(AppliedAll(f.durable, f.pending), f.cache, [])
  }

  // ---- crashes -----------------------------------------------------------------------

  /** What becomes of an unsynced write. `Torn` keeps the first `keep` bytes of its data. */
  datatype Fate = Lost | Torn(keep: nat) | Landed

  function Resolve1(buf: seq<byte>, w: WriteKind, fate: Fate): seq<byte> {
    match fate
    case Lost => buf
    case Landed => Applied(buf, w)
    case Torn(keep) =>
      if w.SetLen? then Applied(buf, w)
      else if 0 < keep <= |w.bytes| then Applied(buf, Data(w.offset, w.bytes[..keep]))
      else buf
  }

  function Resolve(buf: seq<byte>, ws: seq<WriteKind>, fates: seq<Fate>): seq<byte>
    requires |ws| == |fates|
  {
    if |ws| == 0 then buf
    else Resolve1(Resolve(buf, ws[..|ws| - 1], fates[..|ws| - 1]), ws[|ws| - 1], fates[|ws| - 1])
  }

  /** An image a crash can leave: the pending writes in any order, each with any fate. */
  ghost predicate CrashImage(f: File, img: seq<byte>) {
    exists order: seq<WriteKind>, fates: seq<Fate> ::
      multiset(order) == multiset(f.pending) && |fates| == |order| && img == Resolve(f.durable, order, fates)
  }

  // ---- the file of a running disk ---------------------------------------------------------

  class SimFile {
    var durable: seq<byte>
    var cache: seq<byte>
    var pending: seq<WriteKind>

    ghost function View(): File
      reads this
    {
      File(durable, cache, pending)
    }

    constructor ()
      ensures View() == File([], [], []) && FileOk(View())
    {
      durable, cache, pending := [], [], [];
    }

    /** A write that fails never reaches the cache. */
    method Issue(w: WriteKind, error: bool) returns (ok: bool)
      requires FileOk(View())
      modifies this
      ensures FileOk(View()) && ok == !error
      ensures View() == if ok then Issued(old(View()), w) else old(View())
    {
      if error { return false; }
      IssueKeepsFile(View(), w);
      cache := Applied(cache, w);
      pending := pending + [w];
      ok := true;
    }

    /** Nothing stays unsynced: what is durable afterwards is the file as the node sees it. */
    method Sync(error: bool) returns (ok: bool)
      requires FileOk(View())
      modifies this
      ensures FileOk(View()) && ok == !error
      ensures View() == if ok then Synced(old(View())) else old(View())
      ensures ok ==> durable == cache == old(cache)
    {
      if error { return false; }
      var covered := pending;
      pending := [];
      ghost var before := durable;
      for k := 0 to |covered|
        invariant durable == AppliedAll(before, covered[..k]) && cache == old(cache) && pending == []
      {
        assert covered[..k + 1][..k] == covered[..k];
        durable := Applied(durable, covered[k]);
      }
      assert covered[..|covered|] == covered;
      ok := true;
    }

    /** Power loss, with the pending writes shuffled into `order`. */
    method Crash(order: seq<WriteKind>, fates: seq<Fate>)
      requires multiset(order) == multiset(pending) && |fates| == |order|
      modifies this
      ensures CrashImage(old(View()), durable) && cache == durable && pending == []
    {
      pending := [];
      ghost var before := durable;
      for k := 0 to |order|
        invariant durable == Resolve(before, order[..k], fates[..k]) && pending == []
      {
        assert order[..k + 1][..k] == order[..k] && fates[..k + 1][..k] == fates[..k];
        durable := Resolve1(durable, order[k], fates[k]);
      }
      assert order[..|order|] == order && fates[..|fates|] == fates;
      cache := durable;
    }
  }

  lemma IssueKeepsFile(f: File, w: WriteKind)
    requires FileOk(f)
    ensures FileOk(Issued(f, w))
  {
    assert (f.pending + [w])[..|f.pending|] == f.pending;
  }

  // ---- ranges that no write touches ----------------------------------------------------------

  /** The bytes from `lo` to `hi` are out of the write's reach. */
  predicate Spares(w: WriteKind, lo: nat, hi: nat) {
    match w
    case Data(offset, bytes) => hi <= offset || offset + |bytes| <= lo
    case SetLen(len) => hi <= len
  }

  predicate Holds(buf: seq<byte>, lo: nat, bytes: seq<byte>) {
    lo + |bytes| <= |buf| && buf[lo..lo + |bytes|] == bytes
  }

  lemma AppliedSpares(buf: seq<byte>, w: WriteKind, lo: nat, bytes: seq<byte>)
    requires Holds(buf, lo, bytes) && Spares(w, lo, lo + |bytes|)
    ensures Holds(Applied(buf, w), lo, bytes)
  {
    var r := Applied(buf, w);
    var hi := lo + |bytes|;
    assert |r| >= hi;
    forall k | lo <= k < hi ensures r[k] == buf[k] {}
    assert r[lo..hi] == buf[lo..hi];
  }

  lemma Resolve1Spares(buf: seq<byte>, w: WriteKind, fate: Fate, lo: nat, bytes: seq<byte>)
    requires Holds(buf, lo, bytes) && Spares(w, lo, lo + |bytes|)
    ensures Holds(Resolve1(buf, w, fate), lo, bytes)
  {
    hide Applied, Holds;
    AppliedSpares(buf, w, lo, bytes);
    if fate.Torn? && w.Data? && 0 < fate.keep <= |w.bytes| {
      AppliedSpares(buf, Data(w.offset, w.bytes[..fate.keep]), lo, bytes);
    }
  }

  lemma {:induction false} ResolveSpares(buf: seq<byte>, ws: seq<WriteKind>, fates: seq<Fate>, lo: nat,
                                         bytes: seq<byte>)
    requires |ws| == |fates| && Holds(buf, lo, bytes) && forall w :: w in ws ==> Spares(w, lo, lo + |bytes|)
    ensures Holds(Resolve(buf, ws, fates), lo, bytes)
  {
    hide Holds, Spares, Resolve1;
    if |ws| > 0 {
      var n := |ws| - 1;
      assert ws[n] in ws;
      forall w | w in ws[..n] ensures w in ws {}
      ResolveSpares(buf, ws[..n], fates[..n], lo, bytes);
      Resolve1Spares(Resolve(buf, ws[..n], fates[..n]), ws[n], fates[n], lo, bytes);
    }
  }

  /** Durable bytes that no pending write reaches survive every crash. */
  lemma CrashSpares(f: File, img: seq<byte>, lo: nat, bytes: seq<byte>)
    requires CrashImage(f, img) && Holds(f.durable, lo, bytes)
    requires forall w :: w in f.pending ==> Spares(w, lo, lo + |bytes|)
    ensures Holds(img, lo, bytes)
  {
    hide Holds, Spares, Resolve1;
    var order: seq<WriteKind>, fates: seq<Fate> :|
      multiset(order) == multiset(f.pending) && |fates| == |order| && img == Resolve(f.durable, order, fates);
    forall w | w in order ensures w in f.pending { assert w in multiset(order); }
    ResolveSpares(f.durable, order, fates, lo, bytes);
  }

  lemma {:induction false} ResolveLanded(buf: seq<byte>, ws: seq<WriteKind>)
    ensures Resolve(buf, ws, seq(|ws|, _ => Landed)) == AppliedAll(buf, ws)
  {
    if |ws| > 0 {
      ResolveLanded(buf, ws[..|ws| - 1]);
      assert seq(|ws|, _ => Landed)[..|ws| - 1] == seq(|ws| - 1, _ => Landed);
    }
  }

  /** The image in which everything landed is what the node saw. */
  lemma CacheIsCrashImage(f: File)
    requires FileOk(f)
    ensures CrashImage(f, f.cache)
  {
    ResolveLanded(f.durable, f.pending);
  }

  /** Data written reads back. */
  lemma WrittenHolds(buf: seq<byte>, offset: nat, bytes: seq<byte>)
    ensures Holds(Applied(buf, Data(offset, bytes)), offset, bytes)
  {
  }
}
