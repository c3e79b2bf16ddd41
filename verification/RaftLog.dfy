/**
 The log in memory and where its records lie in the file. Appending, cutting and compacting keep every
 surviving entry's byte offset at the place its record was written to.
*/
module RaftLog {
  import opened Types
  import opened RaftSpec
  import opened LogFile

  class RaftLog {
    var entries: seq<Entry>
    /** Where each entry's record begins, and where the next one will. */
    var offsets: seq<nat>
    var end: nat
    var snapshotIndex: nat
    var snapshotTerm: nat
    /** The entries compacted away, whose records still precede the others in the file. */
    ghost var dropped: seq<Entry>

    ghost predicate Valid()
      reads this
    {
      && InOrder(entries, snapshotIndex, snapshotTerm)
      && |offsets| == |entries| && end == |Records(dropped + entries)|
      && forall k :: 0 <= k < |offsets| ==> offsets[k] == |Records(dropped + entries[..k])|
    }

    function LastIndex(): nat
      reads this
    {
      snapshotIndex + |entries|
    }

    function LastTerm(): nat
      reads this
    {
      if |entries| == 0 then snapshotTerm else entries[|entries| - 1].term
    }

    function Get(index: nat): Option<Entry>
      reads this
    {
      if index <= snapshotIndex || index > LastIndex() then None else Some(entries[index - snapshotIndex - 1])
    }

    /** Zero is term zero, the snapshot's last index keeps its term, and below it nothing is known. */
    function TermAt(index: nat): Option<nat>
      reads this
    {
      if index == NO_INDEX then Some(0)
      else if index == snapshotIndex then Some(snapshotTerm)
      else match Get(index) case None => None case Some(e) => Some(e.term)
    }

    /** Where the record for `index` begins; one past the last index gives where the next one goes. */
    function ByteOffsetOf(index: nat): nat
      reads this
      requires |offsets| == |entries|
    {
      if index <= snapshotIndex then 0
      else if index - snapshotIndex - 1 < |offsets| then offsets[index - snapshotIndex - 1]
      else end
    }

    /** The entries behind a snapshot, their records one after another from offset 0. */
    constructor (index: nat, term: nat, es: seq<Entry>)
      requires InOrder(es, index, term)
      ensures Valid() && entries == es && snapshotIndex == index && snapshotTerm == term && dropped == []
    {
      entries, offsets, end, snapshotIndex, snapshotTerm, dropped := [], [], 0, index, term, [];
      new;
      for k := 0 to |es|
        invariant Valid() && entries == es[..k] && snapshotIndex == index && snapshotTerm == term && dropped == []
      {
        assert es[..k + 1] == es[..k] + [es[k]];
        Append(es[k]);
      }
      assert es[..|es|] == es;
    }

    /** The entry must carry the next index and a term that does not fall. */
    method Append(e: Entry)
      requires Valid() && e.index == LastIndex() + 1 && e.term >= LastTerm()
      modifies this
      ensures Valid() && entries == old(entries) + [e] && dropped == old(dropped)
      ensures snapshotIndex == old(snapshotIndex) && snapshotTerm == old(snapshotTerm)
      ensures forall i :: 0 <= i <= old(LastIndex()) + 1 ==> ByteOffsetOf(i) == old(ByteOffsetOf(i))
      ensures end == old(end) + |Record(e)|
    {
      hide Record, Records;
      RecordsAppend(dropped + entries, e);
      assert dropped + (entries + [e]) == dropped + entries + [e];
      ghost var was := entries;
      offsets := offsets + [end];
      end := end + |Record(e)|;
      entries := entries + [e];
      forall k | 0 <= k < |offsets| ensures offsets[k] == |Records(dropped + entries[..k])| {
        assert k <= |was| && entries[..k] == was[..k];
        assert was[..|was|] == was;
      }
      OrderAppend(was, snapshotIndex, snapshotTerm, e);
    }

    /** Keep what is before `index`, and all that the snapshot covers. */
    method TruncateFrom(index: nat)
      requires Valid()
      modifies this`entries, this`offsets, this`end
      ensures Valid()
      ensures var at := Max(index, snapshotIndex + 1);
        entries == if at <= old(LastIndex()) then old(entries)[..at - snapshotIndex - 1] else old(entries)
      ensures forall i :: 0 <= i <= LastIndex() + 1 ==> ByteOffsetOf(i) == old(ByteOffsetOf(i))
    {
      hide Records;
      var at := Max(index, snapshotIndex + 1);
      if at <= LastIndex() {
        var i := at - snapshotIndex - 1;
        ghost var was := entries;
        end := offsets[i];
        entries := entries[..i];
        offsets := offsets[..i];
        forall k | 0 <= k <= i ensures entries[..k] == was[..k] {}
        OrderPrefix(was, snapshotIndex, snapshotTerm, i);
      }
    }

    /**
     Discard what a durable snapshot covers. The file is not touched, and no surviving entry's place in
     it changes.
    */
    method CompactTo(index: nat, term: nat)
      requires Valid()
      requires snapshotIndex < index <= LastIndex() ==> TermAt(index) == Some(term)
      modifies this
      ensures Valid() && LastIndex() == old(LastIndex()) && LastTerm() == old(LastTerm())
      ensures index <= old(snapshotIndex) || index > old(LastIndex()) ==>
        entries == old(entries) && snapshotIndex == old(snapshotIndex)
      ensures old(snapshotIndex) < index <= old(LastIndex()) ==>
        snapshotIndex == index && snapshotTerm == term && entries == old(entries)[index - old(snapshotIndex)..]
      ensures forall i :: i > snapshotIndex ==> ByteOffsetOf(i) == old(ByteOffsetOf(i)) && Get(i) == old(Get(i))
      ensures forall i :: i >= snapshotIndex && i > 0 ==> TermAt(i) == old(TermAt(i))
    {
      hide Records;
      if index <= snapshotIndex || index > LastIndex() { return; }
      var d := index - snapshotIndex;
      ghost var was, dropping := entries, dropped;
      OrderSuffix(entries, snapshotIndex, snapshotTerm, d);
      dropped := dropped + entries[..d];
      entries := entries[d..];
      offsets := offsets[d..];
      snapshotIndex, snapshotTerm := index, term;
      assert dropped + entries == dropping + was;
      forall k | 0 <= k < |offsets| ensures offsets[k] == |Records(dropped + entries[..k])| {
        assert was[..d + k] == was[..d] + was[d..][..k];
        assert dropped + entries[..k] == dropping + was[..d + k];
      }
    }

    /** Up to `limit` entries starting at `index`. */
    method SliceFrom(index: nat, limit: nat) returns (es: seq<Entry>)
      requires Valid()
      ensures |es| == if index <= snapshotIndex || index > LastIndex() then 0 else Min(limit, LastIndex() + 1 - index)
      ensures forall k :: 0 <= k < |es| ==> es[k].index == index + k && es[k] in entries
    {
      if index <= snapshotIndex || index > LastIndex() { return []; }
      var start := index - snapshotIndex - 1;
      var stop := Min(start + limit, |entries|);
      es := entries[start..stop];
      forall k | 0 <= k < |es|
        ensures es[k].index == index + k && es[k] in entries { assert es[k] == entries[start + k]; }
    }

    /** The last index whose term is at most `term`. */
    method LastIndexWithTermAtMost(term: nat) returns (k: nat)
      requires Valid()
      ensures snapshotIndex <= k <= LastIndex()
      ensures forall e :: e in entries ==> (e.index <= k <==> e.term <= term)
    {
      var p := LastIndexAtMost(entries, term);
      k := snapshotIndex + p;
      forall e | e in entries ensures e.index <= k <==> e.term <= term {
        var q :| 0 <= q < |entries| && entries[q] == e;
        if q >= p { assert entries[p].term <= entries[q].term; }
      }
    }
  }

  /** What a log says of an index: the entry that carries it, that entry's term, and where its record lies. */
  lemma EntryKnown(log: RaftLog, k: nat)
    requires log.Valid() && k < |log.entries|
    ensures var e := log.entries[k];
      && log.Get(e.index) == Some(e) && log.TermAt(e.index) == Some(e.term)
      && log.ByteOffsetOf(e.index) == |Records(log.dropped + log.entries[..k])|
      && (k == |log.entries| - 1 ==> log.LastIndex() == e.index && log.LastTerm() == e.term)
  {
    hide Records;
  }

  /** It has no entry for any other index; but index 0 is of term 0, and the snapshot's last index of its term. */
  lemma NothingElseKnown(log: RaftLog, index: nat)
    requires log.Valid() && forall k :: 0 <= k < |log.entries| ==> log.entries[k].index != index
    ensures log.Get(index) == None
    ensures log.TermAt(index) ==
      if index == 0 then Some(0) else if index == log.snapshotIndex then Some(log.snapshotTerm) else None
    ensures |log.entries| == 0 ==> log.LastIndex() == log.snapshotIndex && log.LastTerm() == log.snapshotTerm
    ensures index == log.LastIndex() + 1 ==> log.ByteOffsetOf(index) == |Records(log.dropped + log.entries)|
  {
    hide Records;
  }

  /** Indices follow the snapshot's without a gap, and terms do not fall. */
  ghost predicate InOrder(es: seq<Entry>, index: nat, term: nat) {
    && (forall k :: 0 <= k < |es| ==> es[k].index == index + k + 1 && es[k].term >= term)
    && forall i, j :: 0 <= i <= j < |es| ==> es[i].term <= es[j].term
  }

  lemma OrderAppend(es: seq<Entry>, index: nat, term: nat, e: Entry)
    requires InOrder(es, index, term) && e.index == index + |es| + 1
    requires e.term >= (if |es| == 0 then term else es[|es| - 1].term)
    ensures InOrder(es + [e], index, term)
  {
  }

  lemma OrderPrefix(es: seq<Entry>, index: nat, term: nat, k: nat)
    requires InOrder(es, index, term) && k <= |es|
    ensures InOrder(es[..k], index, term)
  {
  }

  lemma OrderSuffix(es: seq<Entry>, index: nat, term: nat, d: nat)
    requires InOrder(es, index, term) && 0 < d <= |es|
    ensures InOrder(es[d..], index + d, es[d - 1].term)
  {
  }
}
