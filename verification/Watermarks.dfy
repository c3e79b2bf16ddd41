/**
 The incremental invariant checker. It looks only at entries above per-node watermarks, and a
 watermark goes back to zero when the node truncates, restarts or is down. If logs change otherwise
 only by appending and compacting, it reports a disagreement in some observation exactly when two
 observations of the run disagree, as a full rescan would.
*/
module Watermarks {
  import opened Types

  /** What is seen of one node: its log begins after `snapshot`. */
  datatype NodeView = NodeView(id: NodeId, incarnation: nat, truncations: nat, up: bool, snapshot: nat, log: seq<Entry>,
                               commit: nat, applied: nat)

  /** The three things checked: entries of a log, committed entries, applied entries. */
  datatype Kind = Logged | Committed | Applied

  /** Logged entries are filed by index and term, the others by index alone. */
  type Key = (nat, nat)

  type Table = map<Key, Entry>

  function Last(v: NodeView): nat { v.snapshot + |v.log| }

  function Smaller(a: nat, b: nat): nat { if a <= b then a else b }
  function Larger(a: nat, b: nat): nat { if a >= b then a else b }

  /** The index up to which the kind speaks. */
  function UpTo(kind: Kind, v: NodeView): nat {
    match kind
    case Logged => Last(v)
    case Committed => Smaller(v.commit, Last(v))
    case Applied => Smaller(v.applied, Last(v))
  }

  function EntryAt(v: NodeView, i: nat): Entry
    requires v.snapshot < i <= Last(v)
  {
    v.log[i - v.snapshot - 1]
  }

  function KeyAt(kind: Kind, v: NodeView, i: nat): Key
    requires v.snapshot < i <= Last(v)
  {
    (i, if kind.Logged? then EntryAt(v, i).term else 0)
  }

  /**
   The entry at position `p` of the log says that `key` holds `e`: as an entry of the log it is filed by its
   index and term; as a committed one, or an applied one, by its index, up to which it must be so.
  */
  ghost predicate SaysHere(kind: Kind, v: NodeView, p: nat, key: Key, e: Entry) {
    && p < |v.log| && e == v.log[p]
    && var i := v.snapshot + p + 1;
      match kind
      case Logged => key == (i, e.term)
      case Committed => key == (i, 0) && i <= v.commit
      case Applied => key == (i, 0) && i <= v.applied
  }

  /** A node that is up says so. */
  ghost predicate Says(kind: Kind, v: NodeView, key: Key, e: Entry) {
    v.up && exists p :: SaysHere(kind, v, p, key, e)
  }

  // ---- one table ------------------------------------------------------------------------

  /** File what the view says of `from` and up, in order; the flag tells whether something known differed. */
  function Scan(kind: Kind, v: NodeView, from: nat, table: Table): (r: (Table, bool))
    requires v.snapshot < from
    decreases UpTo(kind, v) + 1 - from
  {
    if from > UpTo(kind, v) then (table, false)
    else
      var key, e := KeyAt(kind, v, from), EntryAt(v, from);
      var rest := Scan(kind, v, from + 1, if key in table then table else table[key := e]);
      (rest.0, rest.1 || (key in table && table[key] != e))
  }

  /** Nothing filed changes, everything from `from` on is filed, and nothing else. */
  lemma {:induction false} ScanFiles(kind: Kind, v: NodeView, from: nat, table: Table)
    requires v.snapshot < from
    ensures var t := Scan(kind, v, from, table).0;
      && (forall k :: k in table ==> k in t && t[k] == table[k])
      && (forall i: nat {:trigger KeyAt(kind, v, i)} :: from <= i <= UpTo(kind, v) ==> KeyAt(kind, v, i) in t)
      && (forall k :: k in t && k !in table ==>
            exists i: nat :: from <= i <= UpTo(kind, v) && k == KeyAt(kind, v, i) && t[k] == EntryAt(v, i))
    decreases UpTo(kind, v) + 1 - from
  {
    if from <= UpTo(kind, v) {
      var key, e := KeyAt(kind, v, from), EntryAt(v, from);
      ScanFiles(kind, v, from + 1, if key in table then table else table[key := e]);
    }
  }

  /** The flag is raised exactly when something in the range differs from what is known. */
  lemma {:induction false} ScanFlags(kind: Kind, v: NodeView, from: nat, table: Table)
    requires v.snapshot < from
    ensures Scan(kind, v, from, table).1
        <==> exists i: nat ::
               from <= i <= UpTo(kind, v) && KeyAt(kind, v, i) in table && table[KeyAt(kind, v, i)] != EntryAt(v, i)
    decreases UpTo(kind, v) + 1 - from
  {
    if from <= UpTo(kind, v) {
      var key, e := KeyAt(kind, v, from), EntryAt(v, from);
      var next := if key in table then table else table[key := e];
      ScanFlags(kind, v, from + 1, next);
      forall i: nat | from < i <= UpTo(kind, v)
        ensures (KeyAt(kind, v, i) in next && next[KeyAt(kind, v, i)] != EntryAt(v, i)) <==>
                (KeyAt(kind, v, i) in table && table[KeyAt(kind, v, i)] != EntryAt(v, i))
      {}
    }
  }

  // ---- watermarks ---------------------------------------------------------------------------

  datatype Track = Track(incarnation: nat, truncations: nat, marks: map<Kind, nat>)

  const NO_MARKS: map<Kind, nat> := map[Logged := 0, Committed := 0, Applied := 0]

  function MarkOf(t: Track, kind: Kind): nat { if kind in t.marks then t.marks[kind] else 0 }

  function TrackOf(tracks: map<NodeId, Track>, id: NodeId): Track {
    if id in tracks then tracks[id] else Track(0, 0, NO_MARKS)
  }

  /** Forget how far a node was checked: its log may have changed below that. */
  predicate Flagged(t: Track, v: NodeView) { t.incarnation != v.incarnation || t.truncations != v.truncations }

  /** Where the scan resumes. */
  function Resume(t: Track, v: NodeView, kind: Kind): (from: nat)
    ensures v.snapshot < from
  {
    Larger(if Flagged(t, v) then 0 else MarkOf(t, kind), v.snapshot) + 1
  }

  /** The watermark after the scan. */
  function MarkAfter(t: Track, v: NodeView, kind: Kind): nat {
    if !v.up then 0
    else if UpTo(kind, v) >= Resume(t, v, kind) then UpTo(kind, v)
    else if !kind.Logged? then Resume(t, v, kind) - 1
    else if Flagged(t, v) then 0
    else MarkOf(t, kind)
  }

  /** While a node is up and nothing of its log was replaced, no index is looked at twice. */
  lemma NothingTwice(t: Track, v: NodeView, w: NodeView, kind: Kind, i: nat)
    requires v.up && v.incarnation == w.incarnation && v.truncations == w.truncations
    requires v.snapshot < i <= UpTo(kind, v)
    ensures i < Resume(TrackAfter(t, v), w, kind)
  {
    match kind case Logged => case Committed => case Applied =>
  }

  /** After a restart or a truncation, or while it was down, everything is looked at again. */
  lemma AllAgain(t: Track, v: NodeView, w: NodeView, kind: Kind)
    requires v.incarnation != w.incarnation || v.truncations != w.truncations || !v.up
    ensures Resume(TrackAfter(t, v), w, kind) == w.snapshot + 1
  {
    match kind case Logged => case Committed => case Applied =>
  }

  function TrackAfter(t: Track, v: NodeView): Track {
    Track(v.incarnation, v.truncations,
          map[Logged := MarkAfter(t, v, Logged), Committed := MarkAfter(t, v, Committed),
              Applied := MarkAfter(t, v, Applied)])
  }

  function TableIn(tables: map<Kind, Table>, kind: Kind): Table {
    if kind in tables then tables[kind] else map[]
  }

  class Checker {
    var tables: map<Kind, Table>
    var nodes: map<NodeId, Track>

    function TableOf(kind: Kind): Table
      reads this
    {
      TableIn(tables, kind)
    }

    constructor ()
      ensures nodes == map[] && forall kind :: TableOf(kind) == map[]
    {
      tables, nodes := map[], map[];
    }

    /** Look at one node, and say of each kind whether something known is contradicted. */
    method CheckNode(v: NodeView) returns (flags: set<Kind>)
      modifies this
      ensures forall kind :: var t := TrackOf(old(nodes), v.id);
        var r := if v.up then Scan(kind, v, Resume(t, v, kind), old(TableOf(kind))) else (old(TableOf(kind)), false);
        TableOf(kind) == r.0 && (kind in flags <==> r.1)
      ensures nodes == old(nodes)[v.id := TrackAfter(TrackOf(old(nodes), v.id), v)]
    {
      hide Scan, Resume;
      var t := TrackOf(nodes, v.id);
      nodes := nodes[v.id := TrackAfter(t, v)];
      flags := {};
      if !v.up { return; }
      var a, fa := ScanNode(Logged, v, Resume(t, v, Logged), TableOf(Logged));
      var b, fb := ScanNode(Committed, v, Resume(t, v, Committed), TableOf(Committed));
      var c, fc := ScanNode(Applied, v, Resume(t, v, Applied), TableOf(Applied));
      tables := map[Logged := a, Committed := b, Applied := c];
      flags := (if fa then {Logged} else {}) + (if fb then {Committed} else {}) + (if fc then {Applied} else {});
      forall kind: Kind
        ensures (TableOf(kind), kind in flags) == Scan(kind, v, Resume(t, v, kind), old(TableOf(kind)))
      {
        match kind case Logged => case Committed => case Applied =>
      }
    }

    /** The table of the kind and the watermarks are those of a check of the first `m` observations. */
    ghost predicate CaughtUpOn(kind: Kind, vs: seq<NodeView>, m: nat)
      requires m <= |vs|
      reads this
    {
      After(kind, vs, m).tracks == nodes && After(kind, vs, m).table == TableOf(kind)
    }

    ghost predicate CaughtUp(vs: seq<NodeView>, m: nat)
      requires m <= |vs|
      reads this
    {
      CaughtUpOn(Logged, vs, m) && CaughtUpOn(Committed, vs, m) && CaughtUpOn(Applied, vs, m)
    }

    /**
     Look at the next observations of a run: what is flagged is exactly what they contradict, in what was
     said before or in one another.
    */
    method Observe(views: seq<NodeView>, ghost vs: seq<NodeView>, ghost m: nat) returns (flags: set<Kind>)
      requires m + |views| <= |vs| && views == vs[m..m + |views|] && CaughtUp(vs, m)
      modifies this
      ensures CaughtUp(vs, m + |views|)
      ensures Disciplined(vs) ==>
        forall kind :: Disagree(kind, vs, m + |views|) <==> Disagree(kind, vs, m) || kind in flags
    {
      hide Disagree, Disciplined, After;
      flags := {};
      ghost var at := m;
      for k := 0 to |views|
        invariant at == m + k && CaughtUp(vs, at)
        invariant FlaggedSince(Logged, vs, m, at, flags) && FlaggedSince(Committed, vs, m, at, flags)
        invariant FlaggedSince(Applied, vs, m, at, flags)
      {
        assert views[k] == vs[at];
        var more := CheckNext(views[k], vs, at);
        flags := flags + more;
        at := at + 1;
      }
      assert at == m + |views|;
      if Disciplined(vs) {
        forall kind: Kind ensures Disagree(kind, vs, m + |views|) <==> Disagree(kind, vs, m) || kind in flags {
          ReportsIffDisagreement(kind, vs, m);
          ReportsIffDisagreement(kind, vs, m + |views|);
          match kind case Logged => case Committed => case Applied =>
        }
      }
    }

    /** Look at the next observation of a run. */
    method CheckNext(v: NodeView, ghost vs: seq<NodeView>, ghost m: nat) returns (flags: set<Kind>)
      requires m < |vs| && v == vs[m] && CaughtUp(vs, m)
      modifies this
      ensures CaughtUp(vs, m + 1)
      ensures FlaggedSince(Logged, vs, m, m + 1, flags) && FlaggedSince(Committed, vs, m, m + 1, flags)
      ensures FlaggedSince(Applied, vs, m, m + 1, flags)
    {
      hide Scan, Resume, After;
      ghost var tracks, was := nodes, tables;
      flags := CheckNode(v);
      OneMore(Logged, vs, m, tracks, TableIn(was, Logged), nodes, TableOf(Logged), Logged in flags);
      OneMore(Committed, vs, m, tracks, TableIn(was, Committed), nodes, TableOf(Committed), Committed in flags);
      OneMore(Applied, vs, m, tracks, TableIn(was, Applied), nodes, TableOf(Applied), Applied in flags);
    }

    method ScanNode(kind: Kind, v: NodeView, from: nat, table: Table) returns (t: Table, flag: bool)
      requires v.snapshot < from
      ensures (t, flag) == Scan(kind, v, from, table)
    {
      t, flag := table, false;
      var i := from;
      while i <= UpTo(kind, v)
        invariant from <= i
        invariant Scan(kind, v, from, table) == (Scan(kind, v, i, t).0, flag || Scan(kind, v, i, t).1)
        decreases UpTo(kind, v) + 1 - i
      {
        var key, e := KeyAt(kind, v, i), EntryAt(v, i);
        if key in t {
          if t[key] != e { flag := true; }
        } else {
          t := t[key := e];
        }
        i := i + 1;
      }
    }
  }

  // ---- runs of observations -----------------------------------------------------------------------

  /** The state of the check of one kind after the first `m` observations. */
  datatype State = State(tracks: map<NodeId, Track>, table: Table, flagged: bool)

  function After(kind: Kind, vs: seq<NodeView>, m: nat): State
    requires m <= |vs|
  {
    if m == 0 then State(map[], map[], false)
    else
      var s := After(kind, vs, m - 1);
      var v := vs[m - 1];
      var t := TrackOf(s.tracks, v.id);
      var r := if v.up then Scan(kind, v, Resume(t, v, kind), s.table) else (s.table, false);
      State(s.tracks[v.id := TrackAfter(t, v)], r.0, s.flagged || r.1)
  }

  /** The check has a flag of the kind after `n` observations if it had one after `m` or `flags` has it. */
  ghost predicate FlaggedSince(kind: Kind, vs: seq<NodeView>, m: nat, n: nat, flags: set<Kind>)
    requires m <= n <= |vs|
  {
    After(kind, vs, n).flagged <==> After(kind, vs, m).flagged || kind in flags
  }

  /** What checking one more observation makes of tracks and table is what comes after it. */
  lemma OneMore(kind: Kind, vs: seq<NodeView>, m: nat, tracks: map<NodeId, Track>, table: Table,
                tracks': map<NodeId, Track>, table': Table, flag: bool)
    requires m < |vs| && After(kind, vs, m).tracks == tracks && After(kind, vs, m).table == table
    requires var v := vs[m]; var t := TrackOf(tracks, v.id);
      && tracks' == tracks[v.id := TrackAfter(t, v)]
      && (table', flag) == if v.up then Scan(kind, v, Resume(t, v, kind), table) else (table, false)
    ensures var s := After(kind, vs, m + 1);
      s.tracks == tracks' && s.table == table' && (s.flagged <==> After(kind, vs, m).flagged || flag)
  {
    hide Scan, Resume, TrackAfter;
  }

  /** The last observation of the node before the `m`-th, if any. */
  function Before(vs: seq<NodeView>, m: nat, id: NodeId): (p: Option<nat>)
    requires m <= |vs|
    ensures p.Some? ==> p.value < m && vs[p.value].id == id
  {
    if m == 0 then None else if vs[m - 1].id == id then Some(m - 1) else Before(vs, m - 1, id)
  }

  /** From `u` to `v` the log was appended to or compacted, and nothing else. */
  ghost predicate Grew(u: NodeView, v: NodeView) {
    && u.snapshot <= v.snapshot && Last(u) <= Last(v)
    && forall i: nat {:trigger EntryAt(u, i)} :: v.snapshot < i <= Last(u) ==> EntryAt(v, i) == EntryAt(u, i)
  }

  /** Between two observations of a node that are not flagged apart, its log only grew. */
  ghost predicate Disciplined(vs: seq<NodeView>) {
    forall m {:trigger vs[m]} :: 0 <= m < |vs| && vs[m].up ==>
      match Before(vs, m, vs[m].id)
      case None => true
      case Some(p) =>
        vs[p].up && vs[p].incarnation == vs[m].incarnation && vs[p].truncations == vs[m].truncations ==>
          Grew(vs[p], vs[m])
  }

  /** Two of the first `m` observations say different things of one key. */
  ghost predicate Disagree(kind: Kind, vs: seq<NodeView>, m: nat)
    requires m <= |vs|
  {
    exists i: nat, j: nat, key: Key, d: Entry, e: Entry ::
      i < m && j < m && Says(kind, vs[i], key, d) && Says(kind, vs[j], key, e) && d != e
  }

  /** Some of the first `m` observations says so. */
  ghost predicate Said(kind: Kind, vs: seq<NodeView>, m: nat, key: Key, e: Entry)
    requires m <= |vs|
  {
    exists i: nat :: i < m && Says(kind, vs[i], key, e)
  }

  /** What is filed was said; and while nothing was flagged, what was said is filed. */
  ghost predicate Filed(kind: Kind, vs: seq<NodeView>, m: nat)
    requires m <= |vs|
  {
    var s := After(kind, vs, m);
    && (forall k :: k in s.table ==> Said(kind, vs, m, k, s.table[k]))
    && (!s.flagged ==> forall k, e :: Said(kind, vs, m, k, e) ==> k in s.table && s.table[k] == e)
  }

  /** Below the watermark of a node, all that its last observation holds was said before. */
  ghost predicate MarksOk(kind: Kind, vs: seq<NodeView>, m: nat)
    requires m <= |vs|
  {
    var tracks := After(kind, vs, m).tracks;
    forall id {:trigger TrackOf(tracks, id)} :: MarkOk(kind, vs, m, id, TrackOf(tracks, id))
  }

  ghost predicate MarkOk(kind: Kind, vs: seq<NodeView>, m: nat, id: NodeId, t: Track)
    requires m <= |vs|
  {
    match Before(vs, m, id)
    case None => MarkOf(t, kind) == 0
    case Some(p) =>
      && t.incarnation == vs[p].incarnation && t.truncations == vs[p].truncations
      && (MarkOf(t, kind) > 0 ==> vs[p].up && MarkOf(t, kind) <= Last(vs[p]))
      && forall i: nat {:trigger EntryAt(vs[p], i)} :: vs[p].snapshot < i <= MarkOf(t, kind) && i <= Last(vs[p])
           ==> Said(kind, vs, m, KeyAt(kind, vs[p], i), EntryAt(vs[p], i))
  }

  // ---- the proof -------------------------------------------------------------------------------------

  lemma SaidGrows(kind: Kind, vs: seq<NodeView>, m: nat, key: Key, e: Entry)
    requires m < |vs|
    ensures Said(kind, vs, m + 1, key, e) <==> Said(kind, vs, m, key, e) || Says(kind, vs[m], key, e)
  {
    hide Says;
    if Said(kind, vs, m, key, e) {
      var i: nat :| i < m && Says(kind, vs[i], key, e);
      assert i < m + 1;
    }
  }

  /** Below the point where the scan resumes, everything was said before. */
  lemma SkippedWasSaid(kind: Kind, vs: seq<NodeView>, m: nat, i: nat)
    requires m < |vs| && Disciplined(vs) && MarksOk(kind, vs, m) && vs[m].up
    requires vs[m].snapshot < i <= Last(vs[m])
    requires i < Resume(TrackOf(After(kind, vs, m).tracks, vs[m].id), vs[m], kind)
    ensures Said(kind, vs, m, KeyAt(kind, vs[m], i), EntryAt(vs[m], i))
  {
    hide Said;
    var v := vs[m];
    var t := TrackOf(After(kind, vs, m).tracks, v.id);
    assert MarkOk(kind, vs, m, v.id, t);
    var p := Before(vs, m, v.id);
    if p.Some? {
      var u := vs[p.value];
      assert Grew(u, v);
      assert EntryAt(v, i) == EntryAt(u, i);
    }
  }

  lemma ScannedWasSaid(kind: Kind, vs: seq<NodeView>, m: nat)
    requires m < |vs| && vs[m].up && Filed(kind, vs, m)
    requires Disciplined(vs) && MarksOk(kind, vs, m)
    ensures Filed(kind, vs, m + 1)
  {
    hide Said, Says, Disciplined, MarksOk, Resume;
    var n := m + 1;
    var s, s' := After(kind, vs, m), After(kind, vs, n);
    var v := vs[m];
    var from := Resume(TrackOf(s.tracks, v.id), v, kind);
    ResumeAbove(TrackOf(s.tracks, v.id), v, kind);
    ScanFiles(kind, v, from, s.table);
    ScanFlags(kind, v, from, s.table);
    forall k | k in s'.table ensures Said(kind, vs, n, k, s'.table[k]) {
      SaidGrows(kind, vs, m, k, s'.table[k]);
      if k !in s.table {
        var i: nat :| from <= i <= UpTo(kind, v) && k == KeyAt(kind, v, i) && s'.table[k] == EntryAt(v, i);
        SaysAt(kind, v, i);
      }
    }
    if !s'.flagged {
      forall k, e | Said(kind, vs, n, k, e) ensures k in s'.table && s'.table[k] == e {
        SaidGrows(kind, vs, m, k, e);
        if !Said(kind, vs, m, k, e) { NewIsFiled(kind, vs, m, k, e, from); }
      }
    }
  }

  lemma ResumeAbove(t: Track, v: NodeView, kind: Kind)
    ensures v.snapshot < Resume(t, v, kind)
  {
  }

  lemma SaysAt(kind: Kind, v: NodeView, i: nat)
    requires v.up && v.snapshot < i <= UpTo(kind, v)
    ensures Says(kind, v, KeyAt(kind, v, i), EntryAt(v, i))
  {
    assert SaysHere(kind, v, i - v.snapshot - 1, KeyAt(kind, v, i), EntryAt(v, i));
  }

  /** What is said is said at some index that the scan comes to. */
  lemma SaidWhere(kind: Kind, v: NodeView, key: Key, e: Entry) returns (i: nat)
    requires Says(kind, v, key, e)
    ensures v.snapshot < i <= UpTo(kind, v) && key == KeyAt(kind, v, i) && e == EntryAt(v, i)
  {
    var p :| SaysHere(kind, v, p, key, e);
    i := v.snapshot + p + 1;
  }

  /** What the new observation says is filed after an unflagged scan. */
  lemma NewIsFiled(kind: Kind, vs: seq<NodeView>, m: nat, k: Key, e: Entry, from: nat)
    requires m < |vs| && vs[m].up && Disciplined(vs) && MarksOk(kind, vs, m) && Filed(kind, vs, m)
    requires from == Resume(TrackOf(After(kind, vs, m).tracks, vs[m].id), vs[m], kind)
    requires !After(kind, vs, m + 1).flagged && Says(kind, vs[m], k, e)
    ensures var table := After(kind, vs, m + 1).table; k in table && table[k] == e
  {
    hide Said, Disciplined, MarksOk, Resume;
    var s, s' := After(kind, vs, m), After(kind, vs, m + 1);
    var v := vs[m];
    ResumeAbove(TrackOf(s.tracks, v.id), v, kind);
    ScanFiles(kind, v, from, s.table);
    ScanFlags(kind, v, from, s.table);
    var i := SaidWhere(kind, v, k, e);
    if i < from {
      SkippedWasSaid(kind, vs, m, i);
    } else {
      assert k in s'.table;
      if k !in s.table {
        var j: nat :| from <= j <= UpTo(kind, v) && k == KeyAt(kind, v, j) && s'.table[k] == EntryAt(v, j);
      }
    }
  }

  lemma MarksStep(kind: Kind, vs: seq<NodeView>, m: nat)
    requires m < |vs| && Disciplined(vs) && MarksOk(kind, vs, m)
    ensures MarksOk(kind, vs, m + 1)
  {
    hide Said, Disciplined, MarkOk;
    var s, s' := After(kind, vs, m), After(kind, vs, m + 1);
    forall id ensures MarkOk(kind, vs, m + 1, id, TrackOf(s'.tracks, id)) {
      assert MarkOk(kind, vs, m, id, TrackOf(s.tracks, id));
      if id != vs[m].id {
        OtherMark(kind, vs, m, id, TrackOf(s.tracks, id));
      } else {
        OwnMark(kind, vs, m);
      }
    }
  }

  lemma OtherMark(kind: Kind, vs: seq<NodeView>, m: nat, id: NodeId, t: Track)
    requires m < |vs| && id != vs[m].id && MarkOk(kind, vs, m, id, t)
    ensures MarkOk(kind, vs, m + 1, id, t)
  {
    hide Said;
    var p := Before(vs, m, id);
    assert Before(vs, m + 1, id) == p;
    if p.Some? {
      forall i: nat {:trigger EntryAt(vs[p.value], i)} | vs[p.value].snapshot < i <= MarkOf(t, kind)
        && i <= Last(vs[p.value])
        ensures Said(kind, vs, m + 1, KeyAt(kind, vs[p.value], i), EntryAt(vs[p.value], i))
      {
        SaidGrows(kind, vs, m, KeyAt(kind, vs[p.value], i), EntryAt(vs[p.value], i));
      }
    }
  }

  lemma OwnMark(kind: Kind, vs: seq<NodeView>, m: nat)
    requires m < |vs| && Disciplined(vs) && MarksOk(kind, vs, m)
    ensures MarkOk(kind, vs, m + 1, vs[m].id, TrackAfter(TrackOf(After(kind, vs, m).tracks, vs[m].id), vs[m]))
  {
    hide Said, Disciplined, MarksOk, Resume, MarkOk;
    var v := vs[m];
    var t := TrackOf(After(kind, vs, m).tracks, v.id);
    var t' := TrackAfter(t, v);
    assert Before(vs, m + 1, v.id) == Some(m);
    MarkIs(t, v, kind);
    if v.up {
      MarkInside(kind, vs, m);
      forall i: nat {:trigger EntryAt(v, i)} | v.snapshot < i <= MarkOf(t', kind) && i <= Last(v)
        ensures Said(kind, vs, m + 1, KeyAt(kind, v, i), EntryAt(v, i))
      {
        SaidGrows(kind, vs, m, KeyAt(kind, v, i), EntryAt(v, i));
        if i < Resume(t, v, kind) {
          SkippedWasSaid(kind, vs, m, i);
        } else {
          MarkReached(t, v, kind);
          SaysAt(kind, v, i);
        }
      }
    }
    MarkOkFrom(kind, vs, m, t');
  }

  lemma MarkIs(t: Track, v: NodeView, kind: Kind)
    ensures MarkOf(TrackAfter(t, v), kind) == MarkAfter(t, v, kind)
  {
    hide MarkAfter;
    match kind case Logged => case Committed => case Applied =>
  }

  /** Above the point of resumption, a mark is what the kind speaks up to. */
  lemma MarkReached(t: Track, v: NodeView, kind: Kind)
    ensures v.up && MarkAfter(t, v, kind) >= Resume(t, v, kind) ==> MarkAfter(t, v, kind) == UpTo(kind, v)
  {
  }

  lemma MarkInside(kind: Kind, vs: seq<NodeView>, m: nat)
    requires m < |vs| && vs[m].up && Disciplined(vs) && MarksOk(kind, vs, m)
    ensures MarkAfter(TrackOf(After(kind, vs, m).tracks, vs[m].id), vs[m], kind) <= Last(vs[m])
  {
    hide Said;
    var v := vs[m];
    var t := TrackOf(After(kind, vs, m).tracks, v.id);
    assert MarkOk(kind, vs, m, v.id, t);
    var p := Before(vs, m, v.id);
    if p.Some? && !Flagged(t, v) && MarkOf(t, kind) > 0 { assert Grew(vs[p.value], v); }
  }

  lemma MarkOkFrom(kind: Kind, vs: seq<NodeView>, m: nat, t: Track)
    requires m < |vs| && Before(vs, m + 1, vs[m].id) == Some(m)
    requires t.incarnation == vs[m].incarnation && t.truncations == vs[m].truncations
    requires MarkOf(t, kind) > 0 ==> vs[m].up && MarkOf(t, kind) <= Last(vs[m])
    requires forall i: nat {:trigger EntryAt(vs[m], i)} :: vs[m].snapshot < i <= MarkOf(t, kind) && i <= Last(vs[m])
               ==> Said(kind, vs, m + 1, KeyAt(kind, vs[m], i), EntryAt(vs[m], i))
    ensures MarkOk(kind, vs, m + 1, vs[m].id, t)
  {
    hide Said;
  }

  lemma {:induction false} MarksHold(kind: Kind, vs: seq<NodeView>, m: nat)
    requires m <= |vs| && Disciplined(vs)
    ensures MarksOk(kind, vs, m)
  {
    hide Disciplined;
    if m == 0 {
      NoMarks(kind, vs);
    } else {
      hide MarksOk;
      MarksHold(kind, vs, m - 1);
      MarksStep(kind, vs, m - 1);
    }
  }

  lemma NoMarks(kind: Kind, vs: seq<NodeView>)
    ensures MarksOk(kind, vs, 0)
  {
  }

  lemma DownStep(kind: Kind, vs: seq<NodeView>, m: nat)
    requires m < |vs| && !vs[m].up && Filed(kind, vs, m)
    ensures Filed(kind, vs, m + 1)
  {
    hide Said;
    var n := m + 1;
    var s, s' := After(kind, vs, m), After(kind, vs, n);
    assert s'.table == s.table && s'.flagged == s.flagged;
    forall k | k in s'.table ensures Said(kind, vs, n, k, s'.table[k]) { SaidGrows(kind, vs, m, k, s'.table[k]); }
    if !s'.flagged {
      forall k, e | Said(kind, vs, n, k, e) ensures k in s'.table && s'.table[k] == e { SaidGrows(kind, vs, m, k, e); }
    }
  }

  lemma {:induction false} FiledHolds(kind: Kind, vs: seq<NodeView>, m: nat)
    requires m <= |vs| && Disciplined(vs)
    ensures Filed(kind, vs, m)
  {
    hide Disciplined, Said, MarksOk;
    if m == 0 {
      NothingFiled(kind, vs);
    } else {
      FiledHolds(kind, vs, m - 1);
      MarksHold(kind, vs, m - 1);
      if vs[m - 1].up { ScannedWasSaid(kind, vs, m - 1); } else { DownStep(kind, vs, m - 1); }
    }
  }

  lemma NothingFiled(kind: Kind, vs: seq<NodeView>)
    ensures Filed(kind, vs, 0)
  {
  }

  /** A flag is a disagreement with something said before. */
  lemma {:induction false} FlagIsDisagreement(kind: Kind, vs: seq<NodeView>, m: nat)
    requires m <= |vs| && Disciplined(vs) && After(kind, vs, m).flagged
    ensures Disagree(kind, vs, m)
    decreases m
  {
    hide Disciplined, Says, Resume;
    var n := m - 1;
    var s := After(kind, vs, n);
    if s.flagged {
      FlagIsDisagreement(kind, vs, n);
      var i: nat, j: nat, key: Key, d: Entry, e: Entry :|
        i < n && j < n && Says(kind, vs[i], key, d) && Says(kind, vs[j], key, e) && d != e;
      assert i < m && j < m;
    } else {
      var v := vs[n];
      var from := Resume(TrackOf(s.tracks, v.id), v, kind);
      ResumeAbove(TrackOf(s.tracks, v.id), v, kind);
      ScanFlags(kind, v, from, s.table);
      var i: nat :|
        from <= i <= UpTo(kind, v) && KeyAt(kind, v, i) in s.table && s.table[KeyAt(kind, v, i)] != EntryAt(v, i);
      FiledHolds(kind, vs, n);
      var key := KeyAt(kind, v, i);
      assert Said(kind, vs, n, key, s.table[key]);
      var j: nat :| j < n && Says(kind, vs[j], key, s.table[key]);
      SaysAt(kind, v, i);
      assert j < m && n < m && Says(kind, vs[j], key, s.table[key]) && Says(kind, vs[n], key, EntryAt(v, i));
    }
  }

  /** The checker reports a disagreement in a run exactly when two observations of the run disagree. */
  lemma ReportsIffDisagreement(kind: Kind, vs: seq<NodeView>, m: nat)
    requires m <= |vs| && Disciplined(vs)
    ensures After(kind, vs, m).flagged <==> Disagree(kind, vs, m)
  {
    hide Disciplined, Says, After;
    FiledHolds(kind, vs, m);
    if After(kind, vs, m).flagged {
      FlagIsDisagreement(kind, vs, m);
    } else if i: nat, j: nat, key: Key, d: Entry, e: Entry :|
      i < m && j < m && Says(kind, vs[i], key, d) && Says(kind, vs[j], key, e) && d != e {
      SaidBoth(kind, vs, m, i, j, key, d, e);
    }
  }

  lemma SaidBoth(kind: Kind, vs: seq<NodeView>, m: nat, i: nat, j: nat, key: Key, d: Entry, e: Entry)
    requires m <= |vs| && i < m && j < m && Says(kind, vs[i], key, d) && Says(kind, vs[j], key, e)
    ensures Said(kind, vs, m, key, d) && Said(kind, vs, m, key, e)
  {
    hide Says;
  }
}
