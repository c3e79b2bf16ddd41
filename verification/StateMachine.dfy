/**
 The replicated state machine: a map and one remembered result per client. A command list does
 what its first occurrences do, whatever was repeated or came late; and an image of the machine,
 restored, goes on exactly where the machine was.
*/
module StateMachine {
  import opened Types
  import opened Codec
  import opened EntryCodec
  import opened Linearizability
  import opened Locality
  import opened Wire

  datatype Session = Session(seqno: nat, outcome: Outcome)

  datatype Machine = Machine(state: map<Text, Text>, sessions: map<nat, Session>)

  const FRESH := Machine(map[], map[])

  /** Entries no client sent: they change neither the map nor a session. */
  predicate Internal(c: Command) { c.op.Noop? || c.op.SetMembers? }

  predicate Seen(m: Machine, c: Command) { c.client in m.sessions && m.sessions[c.client].seqno >= c.seqno }

  function Run(state: map<Text, Text>, op: Op): (map<Text, Text>, Outcome) {
    match op
    case Noop => (state, Written)
    case SetMembers(_) => (state, Written)
    case Get(key) => (state, Value(Lookup(state, key)))
    case Put(key, value) => (state[key := value], Written)
    case Delete(key) => (state - {key}, Written)
    case Cas(key, expected, value) =>
      if Lookup(state, key) == expected then (state[key := value], CasDone(true)) else (state, CasDone(false))
  }

  function Apply(m: Machine, c: Command): (Machine, Outcome) {
    if Internal(c) then (m, Written)
    else if Seen(m, c) then (m, m.sessions[c.client].outcome)
    else
      var (state, outcome) := Run(m.state, c.op);
      (Machine(state, m.sessions[c.client := Session(c.seqno, outcome)]), outcome)
  }

  function Replay(m: Machine, cs: seq<Command>): Machine {
    if |cs| == 0 then m else Apply(Replay(m, cs[..|cs| - 1]), cs[|cs| - 1]).0
  }

  lemma {:induction false} ReplayConcat(m: Machine, a: seq<Command>, b: seq<Command>)
    ensures Replay(m, a + b) == Replay(Replay(m, a), b)
  {
    hide Apply;
    if |b| == 0 {
      assert a + b == a;
    } else {
      ReplayConcat(m, a, b[..|b| - 1]);
      assert (a + b)[..|a + b| - 1] == a + b[..|b| - 1];
    }
  }

  // ---- exactly once ----------------------------------------------------------------------

  /** The command's number is above every earlier one of its client. */
  ghost predicate First(cs: seq<Command>, c: Command) {
    !Internal(c) && forall d :: d in cs && !Internal(d) && d.client == c.client ==> d.seqno < c.seqno
  }

  /** The commands that have an effect: those whose number is above all earlier ones of their client. */
  ghost function Firsts(cs: seq<Command>): seq<Command> {
    if |cs| == 0 then []
    else
      var init, c := cs[..|cs| - 1], cs[|cs| - 1];
      Firsts(init) + (if First(init, c) then [c] else [])
  }

  /** The session of a client remembers the highest number of its commands so far. */
  ghost predicate SessionsOf(m: Machine, cs: seq<Command>) {
    forall client :: (client in m.sessions <==> exists d :: d in cs && !Internal(d) && d.client == client)
      && (client in m.sessions ==>
            && (exists d :: d in cs && !Internal(d) && d.client == client && d.seqno == m.sessions[client].seqno)
            && forall d :: d in cs && !Internal(d) && d.client == client ==> d.seqno <= m.sessions[client].seqno)
  }

  lemma SeenIsNotFirst(m: Machine, cs: seq<Command>, c: Command)
    requires SessionsOf(m, cs) && !Internal(c)
    ensures Seen(m, c) <==> !First(cs, c)
  {
  }

  lemma SessionsGrow(m: Machine, cs: seq<Command>, c: Command)
    requires SessionsOf(m, cs)
    ensures SessionsOf(Apply(m, c).0, cs + [c])
  {
    hide Run;
    var n := Apply(m, c).0;
    forall d ensures d in cs + [c] <==> d in cs || d == c {}
    forall client
      ensures (client in n.sessions <==> exists d :: d in cs + [c] && !Internal(d) && d.client == client)
        && (client in n.sessions ==>
              && (exists d ::
                    d in cs + [c] && !Internal(d) && d.client == client && d.seqno == n.sessions[client].seqno)
              && forall d ::
                   d in cs + [c] && !Internal(d) && d.client == client ==> d.seqno <= n.sessions[client].seqno)
    {
      if client == c.client && !Internal(c) {
        assert c in cs + [c];
      }
    }
  }

  lemma {:induction false} ReplaySessions(cs: seq<Command>)
    ensures SessionsOf(Replay(FRESH, cs), cs)
  {
    hide Apply, SessionsOf;
    if |cs| == 0 {
      NoSessions();
    } else {
      ReplaySessions(cs[..|cs| - 1]);
      SessionsGrow(Replay(FRESH, cs[..|cs| - 1]), cs[..|cs| - 1], cs[|cs| - 1]);
      assert cs == cs[..|cs| - 1] + [cs[|cs| - 1]];
    }
  }

  lemma NoSessions()
    ensures SessionsOf(Replay(FRESH, []), [])
  {
  }

  /** Replaying a list is replaying its first occurrences: repeats, late retries and internal entries change nothing. */
  lemma {:induction false} ExactlyOnce(cs: seq<Command>)
    ensures Replay(FRESH, cs) == Replay(FRESH, Firsts(cs))
  {
    if |cs| > 0 {
      var init, c := cs[..|cs| - 1], cs[|cs| - 1];
      ExactlyOnce(init);
      ReplaySessions(init);
      var m := Replay(FRESH, init);
      hide SessionsOf, Run;
      if !Internal(c) { SeenIsNotFirst(m, init, c); }
      if First(init, c) {
        assert Firsts(cs) == Firsts(init) + [c];
        assert Firsts(cs)[..|Firsts(init)|] == Firsts(init);
      } else {
        assert Firsts(cs) == Firsts(init);
      }
    }
  }

  /** No client's number takes effect twice. */
  lemma {:induction false} NoNumberTwice(cs: seq<Command>, i: nat, j: nat)
    requires i < j < |Firsts(cs)| && Firsts(cs)[i].client == Firsts(cs)[j].client
    ensures Firsts(cs)[i].seqno < Firsts(cs)[j].seqno
  {
    var init, c := cs[..|cs| - 1], cs[|cs| - 1];
    if j < |Firsts(init)| {
      NoNumberTwice(init, i, j);
    } else {
      FirstsFrom(init, Firsts(init)[i]);
    }
  }

  lemma {:induction false} FirstsFrom(cs: seq<Command>, c: Command)
    requires c in Firsts(cs)
    ensures c in cs && !Internal(c)
  {
    var init := cs[..|cs| - 1];
    if c in Firsts(init) { FirstsFrom(init, c); }
  }

  /** Of `client`, no command in the list has a higher number. */
  ghost predicate NoneHigher(cs: seq<Command>, client: nat, seqno: nat) {
    forall d :: d in cs && !Internal(d) && d.client == client ==> d.seqno <= seqno
  }

  /**
   A retry never has an effect. It is answered from the session its own command left, and then with that
   command's answer, exactly when no later command of the client has taken effect, which is when none
   with a higher number came in between.
  */
  lemma RetryAnswered(m: Machine, c: Command, later: seq<Command>)
    requires !Internal(c) && !Seen(m, c)
    ensures var n := Replay(Apply(m, c).0, later);
      && Apply(n, c).0 == n && c.client in n.sessions
      && (n.sessions[c.client] == Session(c.seqno, Apply(m, c).1) <==> NoneHigher(later, c.client, c.seqno))
      && (NoneHigher(later, c.client, c.seqno) ==> Apply(n, c).1 == Apply(m, c).1)
  {
    hide Run, NoneHigher;
    SessionNewest(Apply(m, c).0, c.client, later);
    if NoneHigher(later, c.client, c.seqno) { SessionStays(Apply(m, c).0, c.client, c.seqno, later); }
  }

  /** A session's number only grows, and moves exactly when a higher one comes. */
  lemma {:induction false} SessionNewest(m: Machine, client: nat, later: seq<Command>)
    requires client in m.sessions
    ensures var n := Replay(m, later);
      && client in n.sessions && n.sessions[client].seqno >= m.sessions[client].seqno
      && (n.sessions[client].seqno == m.sessions[client].seqno <==> NoneHigher(later, client, m.sessions[client].seqno))
  {
    hide Run;
    if |later| > 0 {
      var init, d := later[..|later| - 1], later[|later| - 1];
      assert later == init + [d];
      SessionNewest(m, client, init);
      forall x ensures x in later <==> x in init || x == d {}
    }
  }

  lemma {:induction false} SessionStays(m: Machine, client: nat, seqno: nat, later: seq<Command>)
    requires client in m.sessions && m.sessions[client].seqno == seqno && NoneHigher(later, client, seqno)
    ensures var n := Replay(m, later); client in n.sessions && n.sessions[client] == m.sessions[client]
  {
    hide Run;
    if |later| > 0 {
      var init, d := later[..|later| - 1], later[|later| - 1];
      assert d in later;
      forall x | x in init ensures x in later {}
      SessionStays(m, client, seqno, init);
    }
  }

  /** A late retry of an older command is answered with the outcome of the client's latest command that took effect. */
  lemma LateRetryAnswered(m: Machine, c: Command, d: Command, later: seq<Command>)
    requires !Internal(c) && !Internal(d) && c.client == d.client && c.seqno <= d.seqno
    requires !Seen(m, d) && NoneHigher(later, d.client, d.seqno)
    ensures var n := Replay(Apply(m, d).0, later); Apply(n, c) == (n, Apply(m, d).1)
  {
    hide Run, NoneHigher;
    SessionStays(Apply(m, d).0, d.client, d.seqno, later);
  }

  /** What a client is told of a fresh command is what the sequential map model says; it takes nothing else. */
  lemma FreshMatchesModel(m: Machine, c: Command, o: Operation)
    requires !Internal(c) && !Seen(m, c) && o.op == c.op && o.outcome.Some?
    ensures StepMap(m.state, o).1 == Apply(m, c).0.state
    ensures StepMap(m.state, o).0 <==> o.outcome == Some(Apply(m, c).1)
  {
  }

  /**
   What a fresh command does: a read gives the key's value, a write or delete leaves the key with the value
   or without one, a compare-and-set does so exactly if the value was the expected one, and says whether.
   No other key changes, and the answer is the client's session.
  */
  lemma FreshDoes(m: Machine, c: Command, key: Text)
    requires KeyOf(c.op).Some? && (c.client in m.sessions ==> m.sessions[c.client].seqno < c.seqno)
    ensures var (n, told) := Apply(m, c);
      var was, now := Lookup(m.state, key), Lookup(n.state, key);
      && n.sessions == m.sessions[c.client := Session(c.seqno, told)]
      && (KeyOf(c.op) != Some(key) ==> now == was)
      && (c.op == Get(key) ==> told == Value(was) && now == was)
      && (c.op.Put? && c.op.key == key ==> told == Written && now == Some(c.op.value))
      && (c.op == Delete(key) ==> told == Written && now == None)
      && (c.op.Cas? && c.op.key == key ==>
            told == CasDone(was == c.op.expected) && now == if was == c.op.expected then Some(c.op.value) else was)
  {
  }

  /** An entry no client sent does nothing. */
  lemma InternalDoesNothing(m: Machine, c: Command)
    requires c.op.Noop? || c.op.SetMembers?
    ensures Apply(m, c) == (m, Written)
  {
  }

  // ---- the machine as a class ------------------------------------------------------------------

  class ReplicaMachine {
    var state: map<Text, Text>
    var sessions: map<nat, Session>

    ghost function View(): Machine
      reads this
    {
      Machine(state, sessions)
    }

    constructor ()
      ensures View() == FRESH
    {
      state, sessions := map[], map[];
    }

    method ApplyCommand(c: Command) returns (outcome: Outcome)
      modifies this
      ensures (View(), outcome) == Apply(old(View()), c)
    {
      if c.op.Noop? || c.op.SetMembers? { return Written; }
      if c.client in sessions {
        var s := sessions[c.client];
        if s.seqno >= c.seqno { return s.outcome; }
      }
      match c.op {
        case Noop => outcome := Written;
        case SetMembers(_) => outcome := Written;
        case Get(key) => outcome := Value(Lookup(state, key));
        case Put(key, value) =>
          state := state[key := value];
          outcome := Written;
        case Delete(key) =>
          state := state - {key};
          outcome := Written;
        case Cas(key, expected, value) =>
          if Lookup(state, key) == expected {
            state := state[key := value];
            outcome := CasDone(true);
          } else {
            outcome := CasDone(false);
          }
      }
      sessions := sessions[c.client := Session(c.seqno, outcome)];
    }

    /**
     A cached answer is what applying any command of that client and number would give, and applying
     it would change nothing. There is one exactly when the client's latest command has that number.
    */
    method Cached(client: nat, seqno: nat) returns (r: Option<Outcome>)
      ensures r.Some? <==> client in sessions && sessions[client].seqno == seqno
      ensures r.Some? ==>
        forall c: Command ::
          !Internal(c) && c.client == client && c.seqno == seqno ==> Apply(View(), c) == (View(), r.value)
    {
      r := None;
      if client in sessions && sessions[client].seqno == seqno { r := Some(sessions[client].outcome); }
    }
  }

  // ---- images -----------------------------------------------------------------------------------

  const MAX_ITEMS: nat := 0x10_0000

  /** `keys` lists the keys of a map, each once. */
  ghost predicate Lists<K(!new), V>(keys: seq<K>, m: map<K, V>) {
    (forall k :: k in keys <==> k in m) && forall i, j :: 0 <= i < j < |keys| ==> keys[i] != keys[j]
  }

  function EncPairs(state: map<Text, Text>, keys: seq<Text>): seq<byte>
    requires forall k :: k in keys ==> k in state
  {
    if |keys| == 0 then [] else EncBytes(keys[0]) + (EncBytes(state[keys[0]]) + EncPairs(state, keys[1..]))
  }

  function EncSessions(sessions: map<nat, Session>, clients: seq<nat>): seq<byte>
    requires forall k :: k in clients ==> k in sessions
  {
    if |clients| == 0 then []
    else
      var s := sessions[clients[0]];
      LE(clients[0], 4) + (LE(s.seqno, 8) + (EncOutcome(s.outcome) + EncSessions(sessions, clients[1..])))
  }

  /** The image with the keys and the clients in the given orders. */
  function Image(m: Machine, keys: seq<Text>, clients: seq<nat>): seq<byte>
    requires (forall k :: k in keys ==> k in m.state) && forall k :: k in clients ==> k in m.sessions
  {
    LE(|keys|, 4) + (EncPairs(m.state, keys) + (LE(|clients|, 4) + EncSessions(m.sessions, clients)))
  }

  function ParsePairs(s: seq<byte>, n: nat, state: map<Text, Text>): Parsed<map<Text, Text>>
    decreases n
  {
    if n == 0 then Ok((state, s))
    else
      var (k, s1) :- ParseStr(s);
      var (v, s2) :- ParseStr(s1);
      ParsePairs(s2, n - 1, state[k := v])
  }

  function ParseSessions(s: seq<byte>, n: nat, sessions: map<nat, Session>): Parsed<map<nat, Session>>
    decreases n
  {
    if n == 0 then Ok((sessions, s))
    else
      var (client, s1) :- ParseU32(s);
      var (seqno, s2) :- ParseU64(s1);
      var (outcome, s3) :- ParseOutcome(s2);
      ParseSessions(s3, n - 1, sessions[client := Session(seqno, outcome)])
  }

  function Restore(s: seq<byte>): Result<Machine, DecodeError> {
    var (keys, s1) :- ParseU32(s);
    if keys > MAX_ITEMS then Err(TooLong)
    else
      var (state, s2) :- ParsePairs(s1, keys, map[]);
      var (clients, s3) :- ParseU32(s2);
      if clients > MAX_ITEMS then Err(TooLong)
      else
        var (sessions, s4) :- ParseSessions(s3, clients, map[]);
        Ok(Machine(state, sessions))
  }

  predicate PairFits(k: Text, v: Text) { Utf8(k) && Utf8(v) && StrFits(k) && StrFits(v) }

  predicate SessionFits(client: nat, s: Session) {
    client < U32 && s.seqno < U64 && OutcomeTyped(s.outcome) && OutcomeFits(s.outcome)
  }

  /** Every part of the machine is within the limits of its fields. */
  ghost predicate PartsFit(m: Machine) {
    && (forall k :: k in m.state ==> PairFits(k, m.state[k]))
    && forall c :: c in m.sessions ==> SessionFits(c, m.sessions[c])
  }

  /** The part of a map that the keys name. */
  function Only<K, V>(m: map<K, V>, keys: seq<K>): map<K, V> { map k | k in keys && k in m :: m[k] }

  lemma OnlyNext<K(!new), V>(acc: map<K, V>, m: map<K, V>, keys: seq<K>)
    requires |keys| > 0 && keys[0] in m
    ensures acc[keys[0] := m[keys[0]]] + Only(m, keys[1..]) == acc + Only(m, keys)
  {
    assert keys == [keys[0]] + keys[1..];
    var a, b := acc[keys[0] := m[keys[0]]] + Only(m, keys[1..]), acc + Only(m, keys);
    forall k ensures k in a <==> k in b {}
    forall k | k in a ensures a[k] == b[k] {}
  }

  lemma PairReads(k: Text, v: Text, rest: seq<byte>)
    requires PairFits(k, v)
    ensures ParseStr(EncBytes(k) + (EncBytes(v) + rest)) == Ok((k, EncBytes(v) + rest))
    ensures ParseStr(EncBytes(v) + rest) == Ok((v, rest))
  {
    hide Utf8;
    StrReads(k, EncBytes(v) + rest);
    StrReads(v, rest);
  }

  lemma {:induction false} PairsRead(state: map<Text, Text>, keys: seq<Text>, rest: seq<byte>, acc: map<Text, Text>)
    requires (forall k :: k in keys ==> k in state && PairFits(k, state[k]))
    ensures ParsePairs(EncPairs(state, keys) + rest, |keys|, acc) == Ok((acc + Only(state, keys), rest))
    decreases |keys|
  {
    hide PairFits, ParseStr, EncBytes;
    if |keys| == 0 {
      assert EncPairs(state, keys) + rest == rest;
      assert acc + Only(state, keys) == acc;
    } else {
      var k, v := keys[0], state[keys[0]];
      assert k in keys;
      PairReads(k, v, EncPairs(state, keys[1..]) + rest);
      assert EncPairs(state, keys) + rest == EncBytes(k) + (EncBytes(v) + (EncPairs(state, keys[1..]) + rest));
      forall x | x in keys[1..] ensures x in state && PairFits(x, state[x]) { assert x in keys; }
      PairsRead(state, keys[1..], rest, acc[k := v]);
      OnlyNext(acc, state, keys);
    }
  }

  lemma SessionReads(client: nat, s: Session, rest: seq<byte>)
    requires SessionFits(client, s)
    ensures ParseU32(LE(client, 4) + (LE(s.seqno, 8) + (EncOutcome(s.outcome) + rest))) ==
      Ok((client, LE(s.seqno, 8) + (EncOutcome(s.outcome) + rest)))
    ensures ParseU64(LE(s.seqno, 8) + (EncOutcome(s.outcome) + rest)) == Ok((s.seqno, EncOutcome(s.outcome) + rest))
    ensures ParseOutcome(EncOutcome(s.outcome) + rest) == Ok((s.outcome, rest))
  {
    hide LE, EncOutcome, ParseOutcome, OutcomeTyped, OutcomeFits, ParseU32, ParseU64;
    U32Reads(client, LE(s.seqno, 8) + (EncOutcome(s.outcome) + rest));
    U64Reads(s.seqno, EncOutcome(s.outcome) + rest);
    OutcomeReadsBefore(s.outcome, rest);
  }

  /** An outcome that fits reads back, whatever follows. */
  lemma OutcomeReadsBefore(o: Outcome, rest: seq<byte>)
    requires OutcomeTyped(o) && OutcomeFits(o)
    ensures ParseOutcome(EncOutcome(o) + rest) == Ok((o, rest))
  {
    hide LE, ParseU32, EncOptStr, ParseOptStr, OptUtf8, OptStrFits;
    match o {
      case Value(v) =>
        OptStrReads(v, rest);
        assert (EncOutcome(o) + rest)[1..] == EncOptStr(v) + rest;
      case CasDone(matched) =>
        BoolReads(matched, rest);
        assert (EncOutcome(o) + rest)[1..] == EncBool(matched) + rest;
      case NotLeader(hint) =>
        var n := if hint.Some? then hint.value else NO_HINT;
        U32Reads(n, rest);
        assert (EncOutcome(o) + rest)[1..] == LE(n, 4) + rest;
      case _ => assert (EncOutcome(o) + rest)[1..] == rest;
    }
  }

  lemma SessionsNext(s: seq<byte>, n: nat, acc: map<nat, Session>, client: nat, x: Session, s1: seq<byte>,
                     s2: seq<byte>, s3: seq<byte>)
    requires n > 0 && ParseU32(s) == Ok((client, s1)) && ParseU64(s1) == Ok((x.seqno, s2))
    requires ParseOutcome(s2) == Ok((x.outcome, s3))
    ensures ParseSessions(s, n, acc) == ParseSessions(s3, n - 1, acc[client := x])
  {
    hide ParseU32, ParseU64, ParseOutcome;
  }

  lemma EncSessionsFirst(sessions: map<nat, Session>, clients: seq<nat>, rest: seq<byte>)
    requires |clients| > 0 && forall c :: c in clients ==> c in sessions
    ensures var c := clients[0]; var s := sessions[c];
      (forall x :: x in clients[1..] ==> x in sessions) &&
      EncSessions(sessions, clients) + rest
        == LE(c, 4) + (LE(s.seqno, 8) + (EncOutcome(s.outcome) + (EncSessions(sessions, clients[1..]) + rest)))
  {
    hide LE, EncOutcome;
  }

  lemma {:induction false} SessionsRead(sessions: map<nat, Session>, clients: seq<nat>, rest: seq<byte>, acc: map<nat,
                                        Session>)
    requires (forall c :: c in clients ==> c in sessions && SessionFits(c, sessions[c]))
    ensures ParseSessions(EncSessions(sessions, clients) + rest, |clients|, acc) ==
      Ok((acc + Only(sessions, clients), rest))
    decreases |clients|
  {
    hide SessionFits, ParseSessions, EncSessions, Only;
    if |clients| == 0 {
      NoSessionsRead(sessions, clients, rest, acc);
    } else {
      var c := clients[0];
      var s, more := sessions[c], EncSessions(sessions, clients[1..]) + rest;
      SessionReads(c, s, more);
      EncSessionsFirst(sessions, clients, rest);
      hide LE, EncOutcome, ParseU32, ParseU64, ParseOutcome;
      var s2 := EncOutcome(s.outcome) + more;
      var s1 := LE(s.seqno, 8) + s2;
      SessionsNext(LE(c, 4) + s1, |clients|, acc, c, s, s1, s2, more);
      forall x | x in clients[1..] ensures x in sessions && SessionFits(x, sessions[x]) { assert x in clients; }
      SessionsRead(sessions, clients[1..], rest, acc[c := s]);
      OnlyNext(acc, sessions, clients);
    }
  }

  lemma NoSessionsRead(sessions: map<nat, Session>, clients: seq<nat>, rest: seq<byte>, acc: map<nat, Session>)
    requires |clients| == 0
    ensures ParseSessions(EncSessions(sessions, clients) + rest, 0, acc) == Ok((acc + Only(sessions, clients), rest))
  {
    assert EncSessions(sessions, clients) + rest == rest;
    assert acc + Only(sessions, clients) == acc;
  }

  // ---- what is restored is within the limits ------------------------------------------------------

  lemma StrParsed(s: seq<byte>)
    ensures ParseStr(s).Ok? ==> Utf8(ParseStr(s).value.0) && StrFits(ParseStr(s).value.0)
  {
    var n := ParseU32(s);
    if n.Ok? && n.value.0 <= MAX_FIELD && n.value.0 <= |n.value.1| {
      assert ParseBytes(s) == Ok((n.value.1[..n.value.0], n.value.1[n.value.0..]));
    }
  }

  lemma OptStrParsed(s: seq<byte>)
    ensures ParseOptStr(s).Ok? ==> OptUtf8(ParseOptStr(s).value.0) && OptStrFits(ParseOptStr(s).value.0)
  {
    hide ParseStr, Utf8;
    if |s| > 0 { StrParsed(s[1..]); }
  }

  lemma OutcomeParsed(s: seq<byte>)
    ensures ParseOutcome(s).Ok? ==> OutcomeTyped(ParseOutcome(s).value.0) && OutcomeFits(ParseOutcome(s).value.0)
  {
    hide ParseOptStr, ParseU32, OptUtf8, OptStrFits;
    if |s| > 0 {
      OptStrParsed(s[1..]);
      IntParsed(s[1..]);
    }
  }

  lemma {:induction false} PairsParsed(s: seq<byte>, n: nat, state: map<Text, Text>)
    requires forall k :: k in state ==> PairFits(k, state[k])
    ensures var r := ParsePairs(s, n, state); r.Ok? ==> forall k :: k in r.value.0 ==> PairFits(k, r.value.0[k])
    decreases n
  {
    hide ParseStr, Utf8, StrFits;
    if n > 0 {
      StrParsed(s);
      var k := ParseStr(s);
      if k.Ok? {
        StrParsed(k.value.1);
        var v := ParseStr(k.value.1);
        if v.Ok? { PairsParsed(v.value.1, n - 1, state[k.value.0 := v.value.0]); }
      }
    }
  }

  lemma {:induction false} SessionsParsed(s: seq<byte>, n: nat, sessions: map<nat, Session>)
    requires forall c :: c in sessions ==> SessionFits(c, sessions[c])
    ensures var r := ParseSessions(s, n, sessions);
      r.Ok? ==> forall c :: c in r.value.0 ==> SessionFits(c, r.value.0[c])
    decreases n
  {
    hide ParseU32, ParseU64, ParseOutcome, OutcomeTyped, OutcomeFits;
    if n > 0 {
      IntParsed(s);
      var c := ParseU32(s);
      if c.Ok? {
        IntParsed(c.value.1);
        var q := ParseU64(c.value.1);
        if q.Ok? {
          OutcomeParsed(q.value.1);
          var o := ParseOutcome(q.value.1);
          if o.Ok? { SessionsParsed(o.value.1, n - 1, sessions[c.value.0 := Session(q.value.0, o.value.0)]); }
        }
      }
    }
  }

  /** Whatever bytes it is given, what the machine restores is within the limits of the fields. */
  lemma RestoreFits(s: seq<byte>)
    ensures Restore(s).Ok? ==> PartsFit(Restore(s).value)
  {
    hide ParseU32, ParsePairs, ParseSessions, PairFits, SessionFits;
    var n := ParseU32(s);
    if n.Ok? {
      PairsParsed(n.value.1, n.value.0, map[]);
      var p := ParsePairs(n.value.1, n.value.0, map[]);
      if p.Ok? {
        var c := ParseU32(p.value.1);
        if c.Ok? { SessionsParsed(c.value.1, c.value.0, map[]); }
      }
    }
  }

  /**
   An image comes back as the machine it was taken of, in whatever order it lists the keys, exactly up
   to the size limits.
  */
  lemma ImageComesBack(m: Machine, keys: seq<Text>, clients: seq<nat>)
    requires Lists(keys, m.state) && Lists(clients, m.sessions) && |keys| < U32 && |clients| < U32
    ensures Restore(Image(m, keys, clients)) == Ok(m) <==> PartsFit(m) && |keys| <= MAX_ITEMS && |clients| <= MAX_ITEMS
  {
    hide PartsFit, Restore, Image;
    RestoreFits(Image(m, keys, clients));
    if PartsFit(m) { FittingComesBack(m, keys, clients); }
  }

  lemma FittingComesBack(m: Machine, keys: seq<Text>, clients: seq<nat>)
    requires Lists(keys, m.state) && Lists(clients, m.sessions) && PartsFit(m) && |keys| < U32 && |clients| < U32
    ensures Restore(Image(m, keys, clients)) == Ok(m) <==> |keys| <= MAX_ITEMS && |clients| <= MAX_ITEMS
  {
    hide PairFits, SessionFits, ParseU32, LE, EncPairs, EncSessions, ParsePairs, ParseSessions;
    var tail := LE(|clients|, 4) + EncSessions(m.sessions, clients);
    U32Reads(|keys|, EncPairs(m.state, keys) + tail);
    PairsRead(m.state, keys, tail, map[]);
    U32Reads(|clients|, EncSessions(m.sessions, clients));
    SessionsRead(m.sessions, clients, [], map[]);
    assert EncSessions(m.sessions, clients) + [] == EncSessions(m.sessions, clients);
    assert map[] + Only(m.state, keys) == m.state;
    assert map[] + Only(m.sessions, clients) == m.sessions;
  }

  // ---- commands keep the machine within limits --------------------------------------------------

  ghost predicate CommandsFit(cs: seq<Command>) {
    forall c :: c in cs ==> CommandTyped(c) && OpFits(c.op)
  }

  lemma ApplyFits(m: Machine, c: Command)
    requires PartsFit(m) && CommandTyped(c) && OpFits(c.op)
    ensures PartsFit(Apply(m, c).0)
  {
    hide Utf8;
  }

  lemma {:induction false} ReplayFits(cs: seq<Command>)
    requires CommandsFit(cs)
    ensures PartsFit(Replay(FRESH, cs))
  {
    hide PartsFit, Apply, CommandTyped, OpFits;
    if |cs| == 0 {
      FreshFits();
    } else {
      assert cs[|cs| - 1] in cs;
      forall c | c in cs[..|cs| - 1] ensures c in cs {}
      ReplayFits(cs[..|cs| - 1]);
      ApplyFits(Replay(FRESH, cs[..|cs| - 1]), cs[|cs| - 1]);
    }
  }

  lemma FreshFits()
    ensures PartsFit(Replay(FRESH, []))
  {
  }

  /** Restoring an image and applying the commands after it is replaying them all. */
  lemma ImageThenSuffix(before: seq<Command>, after: seq<Command>, keys: seq<Text>, clients: seq<nat>)
    requires CommandsFit(before) && Lists(keys, Replay(FRESH, before).state)
    requires Lists(clients, Replay(FRESH, before).sessions)
    requires |keys| <= MAX_ITEMS && |clients| <= MAX_ITEMS
    ensures var r := Restore(Image(Replay(FRESH, before), keys, clients));
      r.Ok? && Replay(r.value, after) == Replay(FRESH, before + after)
  {
    hide Image, Restore, Replay, PartsFit;
    ReplayFits(before);
    ImageComesBack(Replay(FRESH, before), keys, clients);
    ReplayConcat(FRESH, before, after);
  }

  /** The image must carry the sessions: a machine that forgets one applies its client's retry a second time. */
  lemma ForgottenSessionAppliesTwice(m: Machine, c: Command)
    requires !Internal(c) && Seen(m, c) && c.op.Put? && Lookup(m.state, c.op.key) != Some(c.op.value)
    ensures Apply(m, c).0 == m && Apply(m.(sessions := m.sessions - {c.client}), c).0.state != m.state
  {
  }
}
