/**
 Between an unchanging leader and follower, a leader that backs up finds the point where the logs
 agree after at most one rejection per distinct term in the follower's log, plus one.
*/
module Backoff {
  import opened Types
  import opened RaftSpec

  /** Where the leader tries next after the follower rejects `next`. */
  function NextTry(follower: seq<Entry>, next: nat): (n: nat)
    requires next >= 2
    ensures 1 <= n < next
  {
    Max(Min(Max(ConflictHint(follower, next - 1), 1), next - 1), 1)
  }

  /** The follower has the entry before `next` with the leader's term. */
  predicate Accepts(leader: seq<Entry>, follower: seq<Entry>, next: nat)
    requires 1 <= next <= |leader| + 1
  {
    TermAt(follower, next - 1) == TermAt(leader, next - 1)
  }

  /** How many times the follower rejects before it accepts. */
  function Rejections(leader: seq<Entry>, follower: seq<Entry>, next: nat): nat
    requires 1 <= next <= |leader| + 1
    decreases next
  {
    if Accepts(leader, follower, next) then 0 else 1 + Rejections(leader, follower, NextTry(follower, next))
  }

  /** The tries one after another: the follower rejects all but the last, which it accepts. */
  lemma {:induction false} RejectionsAre(leader: seq<Entry>, follower: seq<Entry>, next: nat) returns (tries: seq<nat>)
    requires 1 <= next <= |leader| + 1
    ensures |tries| == Rejections(leader, follower, next) + 1 && tries[0] == next
    ensures forall i :: 0 <= i < |tries| ==>
      1 <= tries[i] <= |leader| + 1 && (Accepts(leader, follower, tries[i]) <==> i == |tries| - 1)
    ensures forall i :: 0 <= i < |tries| - 1 ==> tries[i] >= 2 && tries[i + 1] == NextTry(follower, tries[i])
    decreases next
  {
    hide NextTry;
    if Accepts(leader, follower, next) {
      tries := [next];
    } else {
      var rest := RejectionsAre(leader, follower, NextTry(follower, next));
      tries := [next] + rest;
    }
  }

  /** The terms of the first `k` entries. */
  function Terms(log: seq<Entry>, k: nat): (ts: set<nat>)
    requires k <= |log|
    ensures forall i :: 0 <= i < k ==> log[i].term in ts
  {
    if k == 0 then {} else Terms(log, k - 1) + {log[k - 1].term}
  }

  lemma {:induction false} TermAbsent(log: seq<Entry>, k: nat, t: nat)
    requires k <= |log| && forall i :: 0 <= i < k ==> log[i].term != t
    ensures t !in Terms(log, k)
  {
    if k > 0 { TermAbsent(log, k - 1, t); }
  }

  lemma {:induction false} TermsGrow(log: seq<Entry>, j: nat, k: nat)
    requires j <= k <= |log|
    ensures Terms(log, j) <= Terms(log, k)
    decreases k
  {
    if j < k { TermsGrow(log, j, k - 1); }
  }

  lemma {:induction false} RunShares(log: seq<Entry>, i: nat)
    requires 0 < i <= |log|
    ensures var r := RunStart(log, i);
      0 < r && log[r - 1].term == log[i - 1].term && (r > 1 ==> log[r - 2].term != log[r - 1].term)
  {
    if i > 1 && log[i - 2].term == log[i - 1].term { RunShares(log, i - 1); }
  }

  ghost predicate InTermOrder(log: seq<Entry>) {
    forall i, j :: 0 <= i <= j < |log| ==> log[i].term <= log[j].term
  }

  /** Backing over a run leaves its term behind. */
  lemma RunLeavesTerm(log: seq<Entry>, i: nat)
    requires 0 < i <= |log| && InTermOrder(log)
    ensures var r := RunStart(log, i); 0 < r && |Terms(log, r - 1)| + 1 <= |Terms(log, i)|
  {
    RunShares(log, i);
    var r := RunStart(log, i);
    var t := log[i - 1].term;
    forall k | 0 <= k < r - 1 ensures log[k].term != t { assert log[k].term <= log[r - 2].term <= log[r - 1].term; }
    TermAbsent(log, r - 1, t);
    TermsGrow(log, r - 1, i);
    assert t in Terms(log, i);
    Sizes(Terms(log, r - 1), Terms(log, i), t);
  }

  lemma Sizes(a: set<nat>, b: set<nat>, t: nat)
    requires a <= b && t in b && t !in a
    ensures |a| + 1 <= |b|
  {
    assert b == a + {t} + (b - a - {t});
    assert |a + {t}| == |a| + 1;
  }

  lemma {:induction false} RejectionsInside(leader: seq<Entry>, follower: seq<Entry>, next: nat)
    requires 1 <= next <= |leader| + 1 && next - 1 <= |follower| && InTermOrder(follower)
    ensures Rejections(leader, follower, next) <= |Terms(follower, next - 1)|
    decreases next
  {
    if !Accepts(leader, follower, next) {
      RunLeavesTerm(follower, next - 1);
      RejectionsInside(leader, follower, NextTry(follower, next));
    }
  }

  /** One rejection may say the log is too short; after that, each one leaves a term of the follower's behind. */
  lemma BackoffBound(leader: seq<Entry>, follower: seq<Entry>, next: nat)
    requires 1 <= next <= |leader| + 1 && InTermOrder(follower)
    ensures Rejections(leader, follower, next) <= |Terms(follower, |follower|)| + 1
  {
    var k := if next - 1 <= |follower| then next - 1 else |follower|;
    if next - 1 <= |follower| {
      RejectionsInside(leader, follower, next);
      TermsGrow(follower, next - 1, |follower|);
      SubsetSizes(Terms(follower, next - 1), Terms(follower, |follower|));
    } else if !Accepts(leader, follower, next) {
      assert NextTry(follower, next) == |follower| + 1;
      RejectionsInside(leader, follower, |follower| + 1);
    }
  }

  lemma SubsetSizes(a: set<nat>, b: set<nat>)
    requires a <= b
    ensures |a| <= |b|
  {
    assert b == a + (b - a);
  }

  /** A rejection by a follower of the leader's term sends the leader to the next try, and an acceptance is one. */
  lemma RoundTrip(f: Node, l: Node, entries: seq<Entry>, commit: nat)
    requires l.role == Leader && f.term == l.term && f.id in l.nextIndex && 1 <= l.nextIndex[f.id] <= |l.log| + 1
    requires f.durableTerm >= f.term
    requires f.role == Follower
    ensures var next := l.nextIndex[f.id];
      var prevTerm := TermAt(l.log, next - 1).value;
      var r := OnAppendEntries(f, l.id, l.term, next - 1, prevTerm, entries, commit);
      var hint := ConflictHint(f.log, next - 1);
      && (Accepts(l.log, f.log, next) ==> forall p :: p in r.sent ==> p.msg.AppendEntriesResp? && p.msg.success)
      && (!Accepts(l.log, f.log, next) ==>
            && next >= 2
            && r.sent == {Packet(f.id, l.id, AppendEntriesResp(f.term, false, f.durableIndex, hint))}
            && OnAppendResp(l, f.id, f.term, false, f.durableIndex, hint).node ==
              l.(nextIndex := l.nextIndex[f.id := NextTry(f.log, next)]))
  {
    hide Accept;
    var next := l.nextIndex[f.id];
    var prevTerm := TermAt(l.log, next - 1).value;
    if Accepts(l.log, f.log, next) { AcceptSays(f, l.id, next - 1, entries); }
  }

  lemma AcceptSays(f: Node, from: NodeId, prev: nat, entries: seq<Entry>)
    requires prev <= |f.log|
    ensures forall p :: p in Accept(f, from, prev, entries, false).sent ==> p.msg.AppendEntriesResp? && p.msg.success
  {
    hide FirstNew, Adopt;
  }
}
