/**
 The primitive fields of the wire and disk formats: little-endian integers, length-prefixed bytes
 and strings. `Enc` appends to a buffer and `Dec` advances over one; each field has a function that
 says what is written and one that says what is read, and the two undo each other.
*/
module Codec {
  import opened Types

  /** No field is longer than this. */
  const MAX_FIELD: nat := 0x10_0000

  datatype DecodeError = Truncated | BadTag(tag: byte) | BadUtf8 | BadChecksum | TooLong | TrailingBytes

  /** What was read, and the bytes after it. */
  type Parsed<T> = Result<(T, seq<byte>), DecodeError>

  // ---- integers --------------------------------------------------------------------

  function Pow256(n: nat): (p: nat)
    ensures p > 0
  {
    if n == 0 then 1 else 256 * Pow256(n - 1)
  }

  /** The low `n` bytes of `v`, lowest first. */
  function LE(v: nat, n: nat): (s: seq<byte>)
    ensures |s| == n
  {
    if n == 0 then [] else [v % 256] + LE(v / 256, n - 1)
  }

  function FromLE(s: seq<byte>): nat {
    if |s| == 0 then 0 else s[0] + 256 * FromLE(s[1..])
  }

  lemma {:induction false} FromLEOfLE(v: nat, n: nat)
    ensures FromLE(LE(v, n)) == v % Pow256(n)
  {
    if n > 0 {
      FromLEOfLE(v / 256, n - 1);
      assert LE(v, n)[1..] == LE(v / 256, n - 1);
      DivMod(v, Pow256(n - 1));
    }
  }

  lemma DivMod(v: nat, p: nat)
    requires p > 0
    ensures v % (256 * p) == v % 256 + 256 * ((v / 256) % p)
  {
    var q := v / 256;
    var r := v % 256 + 256 * (q % p);
    assert q == p * (q / p) + q % p;
    assert v == 256 * q + v % 256;
    assert v == (256 * p) * (q / p) + r by { assert 256 * (p * (q / p)) == (256 * p) * (q / p); }
    assert r <= 255 + 256 * (p - 1);
    UniqueMod(v, 256 * p, q / p, r);
  }

  lemma MulMonotone(m: nat, a: nat, b: nat)
    requires a < b
    ensures m * a + m <= m * b
  {
    assert m * b == m * a + m * (b - a);
    assert m * (b - a) >= m by { assert b - a >= 1; }
  }

  lemma UniqueMod(v: nat, m: nat, q: nat, r: nat)
    requires m > 0 && r < m && v == m * q + r
    ensures v % m == r
  {
    var q', r' := v / m, v % m;
    assert v == m * q' + r';
    if q' < q { MulMonotone(m, q', q); } else if q < q' { MulMonotone(m, q, q'); }
  }

  lemma {:induction false} LEOfFromLE(s: seq<byte>)
    ensures FromLE(s) < Pow256(|s|) && LE(FromLE(s), |s|) == s
  {
    if |s| > 0 {
      LEOfFromLE(s[1..]);
      assert FromLE(s) % 256 == s[0] && FromLE(s) / 256 == FromLE(s[1..]);
      assert s == [s[0]] + s[1..];
    }
  }

  const U32: nat := 0x1_0000_0000
  const U64: nat := 0x1_0000_0000_0000_0000

  lemma Widths()
    ensures Pow256(4) == U32 && Pow256(8) == U64
  {
    assert Pow256(1) == 256 && Pow256(2) == 65536 && Pow256(3) == 16777216 && Pow256(4) == U32;
    assert Pow256(5) == 256 * U32 && Pow256(6) == 65536 * U32 && Pow256(7) == 16777216 * U32;
  }

  // ---- strings ---------------------------------------------------------------------------

  predicate Tail(s: seq<byte>, k: nat) { k < |s| && 0x80 <= s[k] <= 0xBF }

  /** Length of the well-formed character at the front, by section 4 of RFC 3629; 0 if there is none. */
  function CharLength(s: seq<byte>): (n: nat)
    requires |s| > 0
    ensures n <= |s|
  {
    var b := s[0];
    if b <= 0x7F then 1
    else if 0xC2 <= b <= 0xDF then (if Tail(s, 1) then 2 else 0)
    else if 0xE0 <= b <= 0xEF then
      (if Tail(s, 1) && Tail(s, 2) && (b == 0xE0 ==> s[1] >= 0xA0) && (b == 0xED ==> s[1] <= 0x9F) then 3 else 0)
    else if 0xF0 <= b <= 0xF4 then
      (if Tail(s, 1) && Tail(s, 2) && Tail(s, 3) && (b == 0xF0 ==> s[1] >= 0x90) && (b == 0xF4 ==> s[1] <= 0x8F) then 4
       else 0)
    else 0
  }

  predicate Utf8(s: seq<byte>) {
    |s| == 0 || (CharLength(s) > 0 && Utf8(s[CharLength(s)..]))
  }

  // ---- what is written ------------------------------------------------------------------

  function EncBytes(b: seq<byte>): seq<byte> { LE(|b|, 4) + b }

  function EncOptStr(s: Option<Text>): seq<byte> {
    match s case None => [0] case Some(v) => [1] + EncBytes(v)
  }

  // ---- what is read ----------------------------------------------------------------------

  function ParseTake(s: seq<byte>, n: nat): Parsed<seq<byte>> {
    if n > |s| then Err(Truncated) else Ok((s[..n], s[n..]))
  }

  function ParseU8(s: seq<byte>): Parsed<byte> {
    if |s| < 1 then Err(Truncated) else Ok((s[0], s[1..]))
  }

  function ParseInt(s: seq<byte>, n: nat): Parsed<nat> {
    if |s| < n then Err(Truncated) else Ok((FromLE(s[..n]), s[n..]))
  }

  function ParseU32(s: seq<byte>): Parsed<nat> { ParseInt(s, 4) }
  function ParseU64(s: seq<byte>): Parsed<nat> { ParseInt(s, 8) }

  function ParseBytes(s: seq<byte>): Parsed<seq<byte>> {
    var (n, s1) :- ParseU32(s);
    if n > MAX_FIELD then Err(TooLong) else ParseTake(s1, n)
  }

  function ParseStr(s: seq<byte>): Parsed<Text> {
    var (b, s1) :- ParseBytes(s);
    if Utf8(b) then Ok((b, s1)) else Err(BadUtf8)
  }

  function ParseOptStr(s: seq<byte>): Parsed<Option<Text>> {
    var (t, s1) :- ParseU8(s);
    if t == 0 then Ok((None, s1))
    else if t == 1 then
      var (v, s2) :- ParseStr(s1);
      Ok((Some(v), s2))
    else Err(BadTag(t))
  }

  // ---- reading undoes writing ----------------------------------------------------------------

  lemma IntReads(v: nat, n: nat, rest: seq<byte>)
    requires v < Pow256(n)
    ensures ParseInt(LE(v, n) + rest, n) == Ok((v, rest))
  {
    FromLEOfLE(v, n);
    assert (LE(v, n) + rest)[..n] == LE(v, n) && (LE(v, n) + rest)[n..] == rest;
  }

  lemma U32Reads(v: nat, rest: seq<byte>)
    requires v < U32
    ensures ParseU32(LE(v, 4) + rest) == Ok((v, rest))
  {
    Widths();
    IntReads(v, 4, rest);
  }

  lemma U64Reads(v: nat, rest: seq<byte>)
    requires v < U64
    ensures ParseU64(LE(v, 8) + rest) == Ok((v, rest))
  {
    Widths();
    IntReads(v, 8, rest);
  }

  lemma {:induction false} NumberBelow(s: seq<byte>)
    ensures FromLE(s) < Pow256(|s|)
  {
    if |s| > 0 { NumberBelow(s[1..]); }
  }

  lemma IntParsed(s: seq<byte>)
    ensures ParseU32(s).Ok? ==> ParseU32(s).value.0 < U32
    ensures ParseU64(s).Ok? ==> ParseU64(s).value.0 < U64
  {
    if |s| >= 4 { NumberBelow(s[..4]); }
    if |s| >= 8 { NumberBelow(s[..8]); }
    assert Pow256(4) == U32 && Pow256(8) == U64;
  }

  /** A field reads back exactly when it is within the limit; a longer one is refused or cut short. */
  lemma BytesRead(b: seq<byte>, rest: seq<byte>)
    ensures ParseBytes(EncBytes(b) + rest) == Ok((b, rest)) <==> |b| <= MAX_FIELD
  {
    hide LE, FromLE;
    var s := LE(|b|, 4) + (b + rest);
    assert EncBytes(b) + rest == s;
    FromLEOfLE(|b|, 4);
    Widths();
    assert s[..4] == LE(|b|, 4) && s[4..] == b + rest;
    TakeFront(b, rest);
  }

  lemma TakeFront(b: seq<byte>, rest: seq<byte>)
    ensures (b + rest)[..|b|] == b && (b + rest)[|b|..] == rest
  {
  }

  predicate StrFits(s: Text) { |s| <= MAX_FIELD }

  predicate OptStrFits(s: Option<Text>) { s.Some? ==> StrFits(s.value) }

  predicate OptUtf8(s: Option<Text>) { s.Some? ==> Utf8(s.value) }

  lemma StrReads(s: Text, rest: seq<byte>)
    requires Utf8(s)
    ensures ParseStr(EncBytes(s) + rest) == Ok((s, rest)) <==> StrFits(s)
  {
    BytesRead(s, rest);
  }

  lemma OptStrReads(s: Option<Text>, rest: seq<byte>)
    requires OptUtf8(s)
    ensures ParseOptStr(EncOptStr(s) + rest) == Ok((s, rest)) <==> OptStrFits(s)
  {
    match s {
      case None => assert (EncOptStr(s) + rest)[1..] == rest;
      case Some(v) =>
        StrReads(v, rest);
        assert (EncOptStr(s) + rest)[1..] == EncBytes(v) + rest;
    }
  }

  // ---- what was read is what would be written ---------------------------------------------------

  lemma IntFrom(s: seq<byte>, n: nat)
    requires ParseInt(s, n).Ok?
    ensures var (v, rest) := ParseInt(s, n).value; s == LE(v, n) + rest && v < Pow256(n)
  {
    LEOfFromLE(s[..n]);
    assert s == s[..n] + s[n..];
  }

  lemma BytesFrom(s: seq<byte>)
    requires ParseBytes(s).Ok?
    ensures var (b, rest) := ParseBytes(s).value; s == EncBytes(b) + rest && |b| <= MAX_FIELD
  {
    IntFrom(s, 4);
    var (n, s1) := ParseU32(s).value;
    assert s1 == s1[..n] + s1[n..];
  }

  lemma OptStrFrom(s: seq<byte>)
    requires ParseOptStr(s).Ok?
    ensures var (v, rest) := ParseOptStr(s).value; s == EncOptStr(v) + rest && OptStrFits(v) && OptUtf8(v)
  {
    assert s == [s[0]] + s[1..];
    if s[0] == 1 { BytesFrom(s[1..]); }
  }

  // ---- the encoder -----------------------------------------------------------------------------

  class Enc {
    var buf: seq<byte>

    constructor ()
      ensures buf == []
    {
      buf := [];
    }

    method PutU8(v: byte)
      modifies this
      ensures buf == old(buf) + [v]
    {
      buf := buf + [v];
    }

    /** The low `n` bytes of `v`; what an integer cast would drop is dropped. */
    method PutInt(v: nat, n: nat)
      modifies this
      ensures buf == old(buf) + LE(v, n)
    {
      var left := v;
      for k := 0 to n
        invariant buf + LE(left, n - k) == old(buf) + LE(v, n)
      {
        assert LE(left, n - k) == [left % 256] + LE(left / 256, n - k - 1);
        buf := buf + [left % 256];
        left := left / 256;
      }
    }

    method PutBytes(b: seq<byte>)
      modifies this
      ensures buf == old(buf) + EncBytes(b)
    {
      PutInt(|b|, 4);
      buf := buf + b;
    }

    method PutOptStr(s: Option<Text>)
      modifies this
      ensures buf == old(buf) + EncOptStr(s)
    {
      match s {
        case None => PutU8(0);
        case Some(v) =>
          PutU8(1);
          PutBytes(v);
      }
    }
  }

  // ---- the decoder -----------------------------------------------------------------------------

  class Dec {
    const buf: seq<byte>
    var pos: nat

    ghost predicate Valid()
      reads this
    {
      pos <= |buf|
    }

    /** What is still to be read. */
    ghost function Rest(): seq<byte>
      reads this
      requires Valid()
    {
      buf[pos..]
    }

    /** The reader did what `p` says: the same value and the same rest, or the same error. */
    twostate predicate Did<T(!new)>(new r: Result<T, DecodeError>, new p: Parsed<T>)
      reads this
      requires old(Valid()) && Valid()
    {
      match p
      case Ok(v) => r == Ok(v.0) && Rest() == v.1
      case Err(e) => r == Err(e)
    }

    constructor (buf: seq<byte>)
      ensures Valid() && this.buf == buf && pos == 0 && Rest() == buf
    {
      this.buf := buf;
      pos := 0;
    }

    method Take(n: nat) returns (r: Result<seq<byte>, DecodeError>)
      requires Valid()
      modifies this
      ensures Valid() && Did(r, ParseTake(old(Rest()), n))
    {
      if pos + n > |buf| { return Err(Truncated); }
      r := Ok(buf[pos..pos + n]);
      assert buf[pos..][..n] == buf[pos..pos + n];
      pos := pos + n;
    }

    method GetU8() returns (r: Result<byte, DecodeError>)
      requires Valid()
      modifies this
      ensures Valid() && Did(r, ParseU8(old(Rest())))
    {
      var b :- Take(1);
      r := Ok(b[0]);
    }

    method GetInt(n: nat) returns (r: Result<nat, DecodeError>)
      requires Valid()
      modifies this
      ensures Valid() && Did(r, ParseInt(old(Rest()), n))
    {
      var b :- Take(n);
      var v: nat := 0;
      var k: nat := n;
      assert |b| == n;
      while k > 0
        invariant k <= n && v == FromLE(b[k..])
      {
        k := k - 1;
        assert b[k..][1..] == b[k + 1..];
        v := b[k] + 256 * v;
      }
      r := Ok(v);
    }

    method GetBytes() returns (r: Result<seq<byte>, DecodeError>)
      requires Valid()
      modifies this
      ensures Valid() && Did(r, ParseBytes(old(Rest())))
    {
      var n :- GetInt(4);
      if n > MAX_FIELD { return Err(TooLong); }
      r := Take(n);
    }

    method GetStr() returns (r: Result<Text, DecodeError>)
      requires Valid()
      modifies this
      ensures Valid() && Did(r, ParseStr(old(Rest())))
    {
      var b :- GetBytes();
      r := if Utf8(b) then Ok(b) else Err(BadUtf8);
    }

    method GetOptStr() returns (r: Result<Option<Text>, DecodeError>)
      requires Valid()
      modifies this
      ensures Valid() && Did(r, ParseOptStr(old(Rest())))
    {
      var t :- GetU8();
      if t == 0 { return Ok(None); }
      if t != 1 { return Err(BadTag(t)); }
      var v :- GetStr();
      r := Ok(Some(v));
    }

    method Finish() returns (r: Result<(), DecodeError>)
      requires Valid()
      ensures r == (if Rest() == [] then Ok(()) else Err(TrailingBytes))
    {
      r := if pos == |buf| then Ok(()) else Err(TrailingBytes);
    }
  }
}
