/**
 Draining a server: applied entries answer the clients waiting at their index. Every waiting client
 is answered once, with its own command's outcome or with word that it was dropped.
*/
module Server {
  import opened Types
  import opened Linearizability
  import opened StateMachine

  datatype Waiting = Waiting(to: NodeId, reqId: nat, client: nat, seqno: nat)

  /** A reply to whoever waited at `index`. */
  datatype Answer = Answer(index: nat, to: NodeId, reqId: nat, outcome: Outcome)

  /** What the client waiting at the entry's index is told: the outcome if the entry is its own. */
  function Verdict(w: Waiting, e: Entry, outcome: Outcome): (told: Outcome)
    ensures w.client == e.cmd.client && w.seqno == e.cmd.seqno ==> told == outcome
    ensures w.client != e.cmd.client || w.seqno != e.cmd.seqno ==> told == Dropped
  {
    if w.client == e.cmd.client && w.seqno == e.cmd.seqno then outcome else Dropped
  }

  /** The entry is the one that whoever waited there asked for. */
  ghost predicate AskedFor(w: Waiting, e: Entry) { e.cmd.client == w.client && e.cmd.seqno == w.seqno }

  function AnswerTo(index: nat, w: Waiting, outcome: Outcome): Answer { Answer(index, w.to, w.reqId, outcome) }

  /** The answer given at an index, if one was. */
  ghost predicate AnsweredAt(out: seq<Answer>, i: nat, a: Answer) {
    exists k ::
      0 <= k < |out| && out[k] == a && a.index == i && forall j :: 0 <= j < |out| && out[j].index == i ==> j == k
  }

  ghost predicate NotAnswered(out: seq<Answer>, i: nat) { forall k :: 0 <= k < |out| ==> out[k].index != i }

  /** The commands of entries. */
  function Commands(es: seq<Entry>): (cs: seq<Command>)
    ensures |cs| == |es| && forall k :: 0 <= k < |es| ==> cs[k] == es[k].cmd
  {
    seq(|es|, k requires 0 <= k < |es| => es[k].cmd)
  }

  /**
   Of those who waited, these still wait and the others were answered, each once; the answers to
   indices outside `due` say dropped.
  */
  ghost predicate Settled(was: map<nat, Waiting>, now: map<nat, Waiting>, out: seq<Answer>) {
    && (forall i :: i in now ==> i in was && now[i] == was[i] && NotAnswered(out, i))
    && (forall i :: i in was && i !in now ==>
          exists a :: AnsweredAt(out, i, a) && a.to == was[i].to && a.reqId == was[i].reqId)
    && (forall k :: 0 <= k < |out| ==> out[k].index in was && out[k].index !in now)
  }

  lemma SettleOne(was: map<nat, Waiting>, now: map<nat, Waiting>, out: seq<Answer>, i: nat, outcome: Outcome)
    requires Settled(was, now, out) && i in now
    ensures Settled(was, now - {i}, out + [AnswerTo(i, now[i], outcome)])
  {
    var a := AnswerTo(i, now[i], outcome);
    var more := out + [a];
    assert more[|out|] == a;
    assert AnsweredAt(more, i, a);
    forall j | j in was && j !in now - {i}
      ensures exists b :: AnsweredAt(more, j, b) && b.to == was[j].to && b.reqId == was[j].reqId
    {
      if j != i {
        var b :| AnsweredAt(out, j, b) && b.to == was[j].to && b.reqId == was[j].reqId;
        var k :|
          0 <= k < |out| && out[k] == b && b.index == j && forall l :: 0 <= l < |out| && out[l].index == j ==> l == k;
        assert more[k] == b;
        assert AnsweredAt(more, j, b);
      }
    }
  }

  class KvServer {
    var machine: ReplicaMachine
    var waiting: map<nat, Waiting>

    constructor ()
      ensures waiting == map[] && fresh(machine) && machine.View() == FRESH
    {
      machine := new ReplicaMachine();
      waiting := map[];
    }

    /** Tell everyone in `these` that their request was dropped. */
    method DropAll(these: set<nat>, ghost was: map<nat, Waiting>, before: seq<Answer>) returns (out: seq<Answer>)
      requires these <= waiting.Keys && Settled(was, waiting, before)
      modifies this`waiting
      ensures waiting == old(waiting) - these && Settled(was, waiting, out)
      ensures before <= out && forall k :: |before| <= k < |out| ==> out[k].index in these && out[k].outcome == Dropped
    {
      hide Settled;
      out := before;
      var todo := these;
      while todo != {}
        invariant todo <= these && waiting == old(waiting) - (these - todo) && Settled(was, waiting, out)
        invariant before <= out
        invariant forall k :: |before| <= k < |out| ==> out[k].index in these && out[k].outcome == Dropped
        decreases |todo|
      {
        var i :| i in todo;
        SettleOne(was, waiting, out, i, Dropped);
        out := out + [AnswerTo(i, waiting[i], Dropped)];
        waiting := waiting - {i};
        todo := todo - {i};
      }
    }

    /**
     Apply the entries after index `applied`, answer whoever waits at them, and drop those who can
     no longer be answered here: at or below the applied index, or anywhere once leadership is lost.
    */
    method Drain(applied: nat, es: seq<Entry>, leads: bool) returns (out: seq<Answer>)
      requires forall k :: 0 <= k < |es| ==> es[k].index == applied + k + 1
      modifies this`waiting, machine
      ensures machine.View() == Replay(old(machine.View()), Commands(es))
      ensures Settled(old(waiting), waiting, out)
      ensures forall i :: i in waiting ==> leads && i > applied + |es|
      ensures forall i :: i in old(waiting) && leads && i > applied + |es| ==> i in waiting
      ensures forall k :: 0 <= k < |out| ==>
        var i := out[k].index;
        if applied < i <= applied + |es| && AskedFor(old(waiting)[i], es[i - applied - 1])
        then out[k].outcome == Apply(Replay(old(machine.View()), Commands(es)[..i - applied - 1]),
                                     es[i - applied - 1].cmd).1
        else out[k].outcome == Dropped
    {
      hide Settled, Apply, Verdict;
      ghost var was, start := waiting, machine.View();
      var m := machine;
      out := [];
      NothingAnswered(was);
      NoneReplayed(start, es);
      for k := 0 to |es|
        invariant m == machine && m == old(machine) && m.View() == Replay(start, Commands(es)[..k])
        invariant waiting == was - (set i | i in was && applied < i <= applied + k) && Settled(was, waiting, out)
        invariant forall j ::
          0 <= j < |out| ==> applied < out[j].index <= applied + k && RightAnswer(was, start, applied, es, k, out[j])
      {
        var e := es[k];
        OneReplayed(start, es, k);
        var outcome := m.ApplyCommand(e.cmd);
        if e.index in waiting {
          var w := waiting[e.index];
          StillWaits(was, waiting, out, e.index);
          SettleOne(was, waiting, out, e.index, Verdict(w, e, outcome));
          waiting := waiting - {e.index};
          out := out + [AnswerTo(e.index, w, Verdict(w, e, outcome))];
        }
      }
      assert Commands(es)[..|es|] == Commands(es);
      ghost var answered := out;
      var stale := set i | i in waiting && i <= applied + |es|;
      out := DropAll(stale, was, out);
      if !leads { out := DropAll(waiting.Keys, was, out); }
      forall k | 0 <= k < |out| ensures RightAnswer(was, start, applied, es, |es|, out[k]) {
        if k < |answered| { assert out[k] == answered[k]; } else { assert out[k].outcome == Dropped; }
      }
      AnsweredWaited(was, waiting, out);
    }
  }

  /** What an answer says, after the first `k` entries. */
  ghost predicate RightAnswer(was: map<nat, Waiting>, start: Machine, applied: nat, es: seq<Entry>, k: nat, a: Answer)
    requires k <= |es|
  {
    a.index in was
    && if applied < a.index <= applied + k && AskedFor(was[a.index], es[a.index - applied - 1])
       then a.outcome == Apply(Replay(start, Commands(es)[..a.index - applied - 1]), es[a.index - applied - 1].cmd).1
       else a.outcome == Dropped
  }

  lemma NothingAnswered(was: map<nat, Waiting>)
    ensures Settled(was, was, [])
  {
  }

  lemma AnsweredWaited(was: map<nat, Waiting>, now: map<nat, Waiting>, out: seq<Answer>)
    requires Settled(was, now, out)
    ensures forall k :: 0 <= k < |out| ==> out[k].index in was
  {
  }

  lemma StillWaits(was: map<nat, Waiting>, now: map<nat, Waiting>, out: seq<Answer>, i: nat)
    requires Settled(was, now, out) && i in now
    ensures i in was && now[i] == was[i]
  {
  }

  lemma NoneReplayed(start: Machine, es: seq<Entry>)
    ensures Replay(start, Commands(es)[..0]) == start
  {
  }

  lemma OneReplayed(start: Machine, es: seq<Entry>, k: nat)
    requires k < |es|
    ensures Replay(start, Commands(es)[..k + 1]) == Apply(Replay(start, Commands(es)[..k]), es[k].cmd).0
  {
    hide Apply;
    assert Commands(es)[..k + 1][..k] == Commands(es)[..k];
  }
}
