/**
 Membership changes. The configuration in force is the newest membership entry of the log, or what
 the snapshot or the start configured; it survives compaction; and since a leader changes one
 server at a time, any majority of one configuration meets any majority of the next.
*/
module Membership {
  import opened Types

  // ---- lists of members ------------------------------------------------------------------

  function SetOf(ms: seq<NodeId>): set<NodeId> { set m | m in ms }

  function InsertMember(ms: seq<NodeId>, m: NodeId): seq<NodeId> {
    if |ms| == 0 || m < ms[0] then [m] + ms
    else if m == ms[0] then ms
    else [ms[0]] + InsertMember(ms[1..], m)
  }

  /** Sorted, each member once. */
  function Canonical(ms: seq<NodeId>): seq<NodeId> {
    if |ms| == 0 then [] else InsertMember(Canonical(ms[1..]), ms[0])
  }

  ghost predicate Ascending(ms: seq<NodeId>) { forall i, j :: 0 <= i < j < |ms| ==> ms[i] < ms[j] }

  lemma {:induction false} InsertKeeps(ms: seq<NodeId>, m: NodeId)
    requires Ascending(ms)
    ensures Ascending(InsertMember(ms, m)) && forall x :: x in InsertMember(ms, m) <==> x in ms || x == m
  {
    if |ms| > 0 && m > ms[0] {
      InsertKeeps(ms[1..], m);
      var r := InsertMember(ms[1..], m);
      assert ms == [ms[0]] + ms[1..];
      forall x | x in r ensures x > ms[0] {}
      forall i | 0 <= i < |r| ensures r[i] > ms[0] { assert r[i] in r; }
    }
  }

  lemma {:induction false} CanonicalIs(ms: seq<NodeId>)
    ensures Ascending(Canonical(ms)) && forall x :: x in Canonical(ms) <==> x in ms
  {
    if |ms| > 0 {
      CanonicalIs(ms[1..]);
      InsertKeeps(Canonical(ms[1..]), ms[0]);
      assert ms == [ms[0]] + ms[1..];
    }
  }

  /** How many of `a` are missing from `b`. */
  function Missing(a: seq<NodeId>, b: seq<NodeId>): nat {
    if |a| == 0 then 0 else Missing(a[..|a| - 1], b) + (if a[|a| - 1] in b then 0 else 1)
  }

  lemma {:induction false} MissingNone(a: seq<NodeId>, b: seq<NodeId>)
    requires Missing(a, b) == 0
    ensures forall m :: m in a ==> m in b
  {
    if |a| > 0 {
      MissingNone(a[..|a| - 1], b);
      assert a == a[..|a| - 1] + [a[|a| - 1]];
    }
  }

  lemma {:induction false} MissingOne(a: seq<NodeId>, b: seq<NodeId>) returns (x: NodeId)
    requires Missing(a, b) == 1
    ensures x in a && x !in b && forall m :: m in a ==> m == x || m in b
  {
    assert a == a[..|a| - 1] + [a[|a| - 1]];
    if a[|a| - 1] in b {
      x := MissingOne(a[..|a| - 1], b);
    } else {
      x := a[|a| - 1];
      MissingNone(a[..|a| - 1], b);
    }
  }

  // ---- majorities ------------------------------------------------------------------------------

  /** One server more or one less. */
  ghost predicate OneApart(a: set<NodeId>, b: set<NodeId>) {
    (exists x :: x !in a && b == a + {x}) || (exists x :: x !in b && a == b + {x})
  }

  ghost predicate Majority(q: set<NodeId>, ms: set<NodeId>) { q <= ms && |q| >= |ms| / 2 + 1 }

  lemma SubsetSize(a: set<NodeId>, b: set<NodeId>)
    requires a <= b
    ensures |a| <= |b|
  {
    assert b == a + (b - a);
  }

  /** Majorities of neighbouring configurations have a server in common. */
  lemma MajoritiesMeet(a: set<NodeId>, b: set<NodeId>, p: set<NodeId>, q: set<NodeId>)
    requires OneApart(a, b) && Majority(p, a) && Majority(q, b)
    ensures p * q != {}
  {
    if p * q == {} {
      assert |p + q| == |p| + |q|;
      var big := if |a| > |b| then a else b;
      if x :| x !in a && b == a + {x} { assert |b| == |a| + 1; SubsetSize(p + q, b); }
      else { var y :| y !in b && a == b + {y}; assert |a| == |b| + 1; SubsetSize(p + q, a); }
    }
  }

  // ---- the configuration in force -----------------------------------------------------------------

  /** The newest membership entry among `log[..k]`, by position, or none. */
  function Newest(log: seq<Entry>, k: nat): (p: Option<nat>)
    requires k <= |log|
    ensures p.Some? ==>
      p.value < k && log[p.value].cmd.op.SetMembers? && forall i :: p.value < i < k ==> !log[i].cmd.op.SetMembers?
    ensures p.None? ==> forall i :: 0 <= i < k ==> !log[i].cmd.op.SetMembers?
  {
    if k == 0 then None
    else if log[k - 1].cmd.op.SetMembers? then Some(k - 1)
    else Newest(log, k - 1)
  }

  /** The members in force after the first `k` entries of a log that starts out with `base`. */
  function InForce(base: seq<NodeId>, log: seq<Entry>, k: nat): seq<NodeId>
    requires k <= |log|
  {
    match Newest(log, k) case None => base case Some(p) => log[p].cmd.op.members
  }

  /** No membership entry is empty. */
  ghost predicate NonEmptyChanges(log: seq<Entry>) {
    forall i :: 0 <= i < |log| && log[i].cmd.op.SetMembers? ==> log[i].cmd.op.members != []
  }

  /** Every membership entry changes the configuration before it by one server. */
  ghost predicate Chained(base: seq<NodeId>, log: seq<Entry>) {
    forall i ::
      0 <= i < |log| && log[i].cmd.op.SetMembers? ==>
        OneApart(SetOf(InForce(base, log, i)), SetOf(log[i].cmd.op.members))
  }

  lemma {:induction false} NewestPrefix(log: seq<Entry>, log': seq<Entry>, k: nat)
    requires k <= |log| && k <= |log'| && log[..k] == log'[..k]
    ensures Newest(log, k) == Newest(log', k)
  {
    if k > 0 {
      assert log[k - 1] == log[..k][k - 1] == log'[..k][k - 1] == log'[k - 1];
      assert log[..k - 1] == log[..k][..k - 1] == log'[..k][..k - 1] == log'[..k - 1];
      NewestPrefix(log, log', k - 1);
    }
  }

  lemma InForcePrefix(base: seq<NodeId>, log: seq<Entry>, log': seq<Entry>, k: nat)
    requires k <= |log| && k <= |log'| && log[..k] == log'[..k]
    ensures InForce(base, log, k) == InForce(base, log', k)
  {
    NewestPrefix(log, log', k);
    if Newest(log, k).Some? { assert log[..k][Newest(log, k).value] == log'[..k][Newest(log, k).value]; }
  }

  /** A truncated log, and any log the same up to there, is chained as far. */
  lemma ChainedPrefix(base: seq<NodeId>, log: seq<Entry>, k: nat)
    requires k <= |log| && Chained(base, log)
    ensures Chained(base, log[..k])
  {
    forall i | 0 <= i < k && log[..k][i].cmd.op.SetMembers?
      ensures OneApart(SetOf(InForce(base, log[..k], i)), SetOf(log[..k][i].cmd.op.members))
    {
      assert log[..k][..i] == log[..i];
      InForcePrefix(base, log, log[..k], i);
    }
  }

  lemma ChainedAppend(base: seq<NodeId>, log: seq<Entry>, e: Entry)
    requires Chained(base, log)
    requires e.cmd.op.SetMembers? ==> OneApart(SetOf(InForce(base, log, |log|)), SetOf(e.cmd.op.members))
    ensures Chained(base, log + [e])
  {
    var l := log + [e];
    forall i | 0 <= i < |l| && l[i].cmd.op.SetMembers?
      ensures OneApart(SetOf(InForce(base, l, i)), SetOf(l[i].cmd.op.members))
    {
      assert l[..i] == log[..i];
      InForcePrefix(base, log, l, i);
    }
  }

  lemma {:induction false} NewestDropped(log: seq<Entry>, d: nat, k: nat)
    requires d <= k <= |log|
    ensures Newest(log[d..], k - d) ==
      (match Newest(log, k) case None => None case Some(p) => if p >= d then Some(p - d) else None)
    decreases k
  {
    if k > d { NewestDropped(log, d, k - 1); }
  }

  /** Dropping a prefix and starting from the members in force at its end changes no configuration after it. */
  lemma CompactionKeepsInForce(base: seq<NodeId>, log: seq<Entry>, d: nat, k: nat)
    requires d <= k <= |log|
    ensures InForce(InForce(base, log, d), log[d..], k - d) == InForce(base, log, k)
  {
    NewestDropped(log, d, k);
    var p := Newest(log, k);
    if p.Some? && p.value < d { NewestBefore(log, d, k); }
    if p.None? { NewestBefore(log, d, k); }
  }

  lemma {:induction false} NewestBefore(log: seq<Entry>, d: nat, k: nat)
    requires d <= k <= |log| && (Newest(log, k).Some? ==> Newest(log, k).value < d)
    ensures Newest(log, d) == Newest(log, k)
    decreases k
  {
    if d < k { NewestBefore(log, d, k - 1); }
  }

  lemma CompactionKeepsChain(base: seq<NodeId>, log: seq<Entry>, d: nat)
    requires d <= |log| && Chained(base, log)
    ensures Chained(InForce(base, log, d), log[d..])
  {
    hide InForce, OneApart;
    forall i | 0 <= i < |log| - d && log[d..][i].cmd.op.SetMembers?
      ensures OneApart(SetOf(InForce(InForce(base, log, d), log[d..], i)), SetOf(log[d..][i].cmd.op.members))
    {
      CompactionKeepsInForce(base, log, d, d + i);
      assert log[d..][i] == log[d + i];
    }
  }

  /** Majorities of consecutive configurations of a chained log meet. */
  lemma NeighboursMeet(base: seq<NodeId>, log: seq<Entry>, i: nat, p: set<NodeId>, q: set<NodeId>)
    requires Chained(base, log) && i < |log|
    requires Majority(p, SetOf(InForce(base, log, i))) && Majority(q, SetOf(InForce(base, log, i + 1)))
    ensures p * q != {}
  {
    if log[i].cmd.op.SetMembers? {
      MajoritiesMeet(SetOf(InForce(base, log, i)), SetOf(InForce(base, log, i + 1)), p, q);
    } else {
      SameMeet(SetOf(InForce(base, log, i)), p, q);
    }
  }

  lemma SameMeet(ms: set<NodeId>, p: set<NodeId>, q: set<NodeId>)
    requires Majority(p, ms) && Majority(q, ms)
    ensures p * q != {}
  {
    if p * q == {} {
      assert |p + q| == |p| + |q|;
      SubsetSize(p + q, ms);
    }
  }

  ghost predicate Sound(base: seq<NodeId>, log: seq<Entry>) { NonEmptyChanges(log) && Chained(base, log) }

  /** `members` and `index` are the configuration in force and where it was set. */
  ghost predicate AtHand(base: seq<NodeId>, log: seq<Entry>, snapshot: nat, members: seq<NodeId>, index: nat) {
    && members == InForce(base, log, |log|)
    && index == (match Newest(log, |log|) case None => 0 case Some(p) => snapshot + p + 1)
  }

  lemma SoundPrefix(base: seq<NodeId>, log: seq<Entry>, k: nat)
    requires k <= |log| && Sound(base, log)
    ensures Sound(base, log[..k])
  {
    ChainedPrefix(base, log, k);
  }

  lemma SoundSuffix(base: seq<NodeId>, log: seq<Entry>, d: nat, snapshot: nat, members: seq<NodeId>, index: nat)
    requires d <= |log| && Sound(base, log) && base != [] && AtHand(base, log, snapshot, members, index)
    ensures var ms := InForce(base, log, d);
      ms != [] && Sound(ms, log[d..]) && InForce(ms, log[d..], |log| - d) == members
  {
    hide Chained;
    CompactionKeepsChain(base, log, d);
    CompactionKeepsInForce(base, log, d, |log|);
  }

  lemma SoundAppend(base: seq<NodeId>, log: seq<Entry>, e: Entry, snapshot: nat, members: seq<NodeId>, index: nat)
    requires Sound(base, log) && AtHand(base, log, snapshot, members, index)
    requires e.cmd.op.SetMembers? && e.cmd.op.members != [] && OneApart(SetOf(members), SetOf(e.cmd.op.members))
    ensures Sound(base, log + [e]) && AtHand(base, log + [e], snapshot, e.cmd.op.members, snapshot + |log| + 1)
  {
    ChainedAppend(base, log, e);
  }

  /** Past the newest change there is none. */
  lemma NewestCommitted(base: seq<NodeId>, log: seq<Entry>, snapshot: nat, members: seq<NodeId>, index: nat,
                        commit: nat)
    requires AtHand(base, log, snapshot, members, index) && index <= commit
    ensures forall p :: 0 <= p < |log| && log[p].cmd.op.SetMembers? ==> snapshot + p + 1 <= commit
  {
  }

  // ---- the node's configuration ------------------------------------------------------------------

  const CONFIG_CLIENT: nat := 0xFFFF_FFFE

  class ConfigNode {
    const initialMembers: seq<NodeId>
    /** Empty until a snapshot answers for the membership. */
    var snapshotMembers: seq<NodeId>
    var snapshotIndex: nat
    var snapshotTerm: nat
    var log: seq<Entry>
    var members: seq<NodeId>
    /** Index of the newest membership entry, or zero. */
    var configIndex: nat
    var term: nat
    var commitIndex: nat

    function Base(): seq<NodeId>
      reads this
    {
      if snapshotMembers == [] then initialMembers else snapshotMembers
    }

    /** The members kept at hand are those in force. */
    ghost predicate Valid()
      reads this
    {
      initialMembers != [] && Sound(Base(), log) && AtHand(Base(), log, snapshotIndex, members, configIndex)
    }

    constructor (initial: seq<NodeId>)
      requires initial != []
      ensures Valid() && log == [] && members == initial && snapshotIndex == 0
    {
      initialMembers := initial;
      snapshotMembers, snapshotIndex, snapshotTerm, log := [], 0, 0, [];
      members, configIndex, term, commitIndex := initial, 0, 0, 0;
    }

    /** Scan back for the newest membership entry at or below `index`. */
    method ConfigAt(index: nat) returns (ms: seq<NodeId>, at: nat)
      requires snapshotIndex <= index
      ensures var k := if index - snapshotIndex < |log| then index - snapshotIndex else |log|;
        ms == InForce(Base(), log, k)
          && at == (match Newest(log, k) case None => 0 case Some(p) => snapshotIndex + p + 1)
    {
      var i: nat := if index - snapshotIndex < |log| then index - snapshotIndex else |log|;
      ghost var k := i;
      while i > 0
        invariant i <= k <= |log| && Newest(log, i) == Newest(log, k)
      {
        if log[i - 1].cmd.op.SetMembers? { return log[i - 1].cmd.op.members, snapshotIndex + i; }
        i := i - 1;
      }
      return Base(), 0;
    }

    method RefreshConfig()
      modifies this`members, this`configIndex
      ensures AtHand(Base(), log, snapshotIndex, members, configIndex)
    {
      members, configIndex := ConfigAt(snapshotIndex + |log|);
    }

    /** Take in entries after which the log is a beginning of the leader's: what chains the leader's log chains it. */
    method Append(es: seq<Entry>, ghost leader: seq<Entry>)
      requires Valid() && Sound(Base(), leader) && log + es <= leader
      modifies this`log, this`members, this`configIndex
      ensures Valid() && log == old(log) + es
    {
      hide Sound, AtHand;
      SoundPrefix(Base(), leader, |log + es|);
      assert leader[..|log + es|] == log + es;
      log := log + es;
      RefreshConfig();
    }

    /** A truncated membership entry takes its configuration with it. */
    method TruncateFrom(at: nat)
      requires Valid() && snapshotIndex < at <= snapshotIndex + |log|
      modifies this`log, this`members, this`configIndex
      ensures Valid() && log == old(log)[..at - snapshotIndex - 1]
    {
      hide Sound, AtHand;
      SoundPrefix(Base(), log, at - snapshotIndex - 1);
      log := log[..at - snapshotIndex - 1];
      RefreshConfig();
    }

    /** A durable snapshot replaces the entries up to `index`, and answers for their membership. */
    method CompactTo(index: nat)
      requires Valid() && snapshotIndex < index <= snapshotIndex + |log|
      modifies this`snapshotMembers, this`snapshotIndex, this`snapshotTerm, this`log, this`members, this`configIndex
      ensures Valid() && members == old(members)
      ensures snapshotIndex == index && log == old(log)[index - old(snapshotIndex)..]
    {
      hide Sound, InForce, Newest;
      var d := index - snapshotIndex;
      SoundSuffix(Base(), log, d, snapshotIndex, members, configIndex);
      var ms, at := ConfigAt(index);
      snapshotMembers := ms;
      snapshotTerm := log[d - 1].term;
      log := log[d..];
      snapshotIndex := index;
      RefreshConfig();
    }

    /**
     A change of members is taken only from a leader in whose own term something is committed, one
     server at a time, and after the previous change. So whatever earlier terms left uncommitted is
     settled by then.
    */
    method ProposeMembership(isLeader: bool, wanted: seq<NodeId>) returns (r: Result<nat, string>)
      requires Valid()
      modifies this`log, this`members, this`configIndex
      ensures Valid()
      ensures r.Ok? <==>
        && isLeader && OwnTermAt(snapshotIndex, snapshotTerm, old(log), commitIndex, term)
        && old(configIndex) <= commitIndex && wanted != []
        && |SetOf(wanted) - SetOf(old(members))| + |Lacking(old(members), wanted)| == 1
      ensures r.Ok? ==>
        Ascending(members) && SetOf(members) == SetOf(wanted) && OneApart(SetOf(old(members)), SetOf(members))
      ensures r.Ok? ==>
        && r.value == configIndex == snapshotIndex + |old(log)| + 1
        && log == old(log) + [Entry(term, r.value, Command(CONFIG_CLIENT, r.value, SetMembers(members)))]
      ensures r.Ok? ==>
        forall p :: 0 <= p < |old(log)| && old(log)[p].cmd.op.SetMembers? ==> snapshotIndex + p + 1 <= commitIndex
      ensures r.Ok? && TermsInOrder(snapshotTerm, old(log)) ==>
        forall p :: 0 <= p < |old(log)| && old(log)[p].term < term ==> snapshotIndex + p + 1 <= commitIndex
      ensures r.Err? ==> log == old(log) && members == old(members)
    {
      hide Sound, AtHand, Canonical, Missing, SetOf, Lacking, Ascending, OneApart, OwnTermAt, TermsInOrder;
      if !isLeader { return Err("not the leader"); }
      if !OwnTermCommitted() { return Err("no entry of this term committed yet"); }
      if configIndex > commitIndex { return Err("a membership change is already in progress"); }
      var ms := Canonical(wanted);
      CanonicalIs(wanted);
      CanonicalEmpty(wanted);
      if ms == [] { return Err("a cluster needs at least one member"); }
      var changes := Missing(ms, members) + Missing(members, ms);
      ChangesAre(wanted, ms, members);
      if changes != 1 { return Err("change exactly one server at a time"); }
      OneChange(members, ms);
      NewestCommitted(Base(), log, snapshotIndex, members, configIndex, commitIndex);
      if TermsInOrder(snapshotTerm, log) { EarlierSettled(snapshotIndex, snapshotTerm, log, commitIndex, term); }
      var index := snapshotIndex + |log| + 1;
      var e := Entry(term, index, Command(CONFIG_CLIENT, index, SetMembers(ms)));
      SoundAppend(Base(), log, e, snapshotIndex, members, configIndex);
      log := log + [e];
      RefreshConfig();
      AtHandOnce(Base(), log, snapshotIndex, members, configIndex, ms, index);
      r := Ok(index);
    }

    /** The term at the commit index; the entry may be in the snapshot. */
    predicate OwnTermCommitted()
      reads this
      ensures OwnTermCommitted() <==> OwnTermAt(snapshotIndex, snapshotTerm, log, commitIndex, term)
    {
      if commitIndex == 0 then term == 0
      else if commitIndex == snapshotIndex then snapshotTerm == term
      else snapshotIndex < commitIndex <= snapshotIndex + |log| && log[commitIndex - snapshotIndex - 1].term == term
    }
  }

  /** The entry at index `i`, in the log or the last of the snapshot, is of that term; index 0 is of term 0. */
  ghost predicate OwnTermAt(snapshot: nat, snapshotTerm: nat, log: seq<Entry>, i: nat, term: nat) {
    || (i == 0 && term == 0)
    || (i == snapshot > 0 && snapshotTerm == term)
    || (i > snapshot && i - snapshot <= |log| && log[i - snapshot - 1].term == term)
  }

  ghost predicate TermsInOrder(first: nat, log: seq<Entry>) {
    && (forall p :: 0 <= p < |log| ==> first <= log[p].term)
    && forall p, q :: 0 <= p <= q < |log| ==> log[p].term <= log[q].term
  }

  /** With an entry of the term committed, all of earlier terms is. */
  lemma EarlierSettled(snapshot: nat, snapshotTerm: nat, log: seq<Entry>, commit: nat, term: nat)
    requires OwnTermAt(snapshot, snapshotTerm, log, commit, term) && TermsInOrder(snapshotTerm, log)
    ensures forall p :: 0 <= p < |log| && log[p].term < term ==> snapshot + p + 1 <= commit
  {
  }

  /** The places in `a` of those not in `b`. */
  function Lacking(a: seq<NodeId>, b: seq<NodeId>): set<nat> { set i: nat | i < |a| && a[i] !in b }

  lemma {:induction false} MissingCounts(a: seq<NodeId>, b: seq<NodeId>)
    ensures Missing(a, b) == |Lacking(a, b)|
  {
    if |a| > 0 {
      var init := a[..|a| - 1];
      MissingCounts(init, b);
      assert Lacking(a, b) == Lacking(init, b) + (if a[|a| - 1] in b then {} else {|a| - 1});
    }
  }

  /** Of members that are listed in order, the number missing is that of a difference of sets. */
  lemma {:induction false} MissingDiffers(a: seq<NodeId>, b: seq<NodeId>)
    requires Ascending(a)
    ensures Missing(a, b) == |SetOf(a) - SetOf(b)|
  {
    hide SetOf;
    if |a| > 0 {
      var init, x := a[..|a| - 1], a[|a| - 1];
      MissingDiffers(init, b);
      InSetOf(init, x);
      InSetOf(b, x);
      SetOfLast(a);
      assert SetOf(a) - SetOf(b) == (SetOf(init) - SetOf(b)) + (if x in b then {} else {x});
    } else {
      assert SetOf(a) == {} by { SetOfNone(a); }
      assert SetOf(a) - SetOf(b) == {};
    }
  }

  lemma InSetOf(a: seq<NodeId>, x: NodeId)
    ensures x in SetOf(a) <==> x in a
  {
  }

  lemma SetOfNone(a: seq<NodeId>)
    requires |a| == 0
    ensures SetOf(a) == {}
  {
  }

  lemma SetOfLast(a: seq<NodeId>)
    requires |a| > 0
    ensures SetOf(a) == SetOf(a[..|a| - 1]) + {a[|a| - 1]}
  {
    assert a == a[..|a| - 1] + [a[|a| - 1]];
  }

  lemma ChangesAre(wanted: seq<NodeId>, ms: seq<NodeId>, members: seq<NodeId>)
    requires ms == Canonical(wanted)
    ensures SetOf(ms) == SetOf(wanted)
    ensures Missing(ms, members) + Missing(members, ms)
        == |SetOf(wanted) - SetOf(members)| + |Lacking(members, wanted)|
  {
    CanonicalIs(wanted);
    MissingDiffers(ms, members);
    MissingCounts(members, ms);
    assert Lacking(members, ms) == Lacking(members, wanted);
  }

  lemma AtHandOnce(base: seq<NodeId>, log: seq<Entry>, snapshot: nat, a: seq<NodeId>, i: nat, b: seq<NodeId>, j: nat)
    requires AtHand(base, log, snapshot, a, i) && AtHand(base, log, snapshot, b, j)
    ensures a == b && i == j
  {
  }

  lemma CanonicalEmpty(ms: seq<NodeId>)
    ensures Canonical(ms) == [] <==> ms == []
  {
    CanonicalIs(ms);
    if ms != [] { assert ms[0] in Canonical(ms); }
  }

  lemma OneChange(a: seq<NodeId>, b: seq<NodeId>)
    requires Missing(b, a) + Missing(a, b) == 1
    ensures OneApart(SetOf(a), SetOf(b))
  {
    if Missing(b, a) == 1 {
      var x := MissingOne(b, a);
      MissingNone(a, b);
      assert x !in SetOf(a) && SetOf(b) == SetOf(a) + {x};
    } else {
      var x := MissingOne(a, b);
      MissingNone(b, a);
      assert x !in SetOf(b) && SetOf(a) == SetOf(b) + {x};
    }
  }
}
