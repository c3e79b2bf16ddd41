/**
 What the strings of the format are: the UTF-8 forms, by section 3 of RFC 3629, of sequences of Unicode
 scalar values, which are the numbers up to 0x10FFFF without the surrogates.
*/
module Unicode {
  import opened Types
  import opened Codec

  predicate Scalar(c: nat) { c <= 0x10_FFFF && !(0xD800 <= c <= 0xDFFF) }

  /** The continuation byte of the low six bits. */
  function More(c: nat): byte { 0x80 + c % 64 }

  function EncodeChar(c: nat): (s: seq<byte>)
    requires Scalar(c)
    ensures 0 < |s| <= 4
  {
    if c < 0x80 then [c]
    else if c < 0x800 then [0xC0 + c / 64, More(c)]
    else if c < 0x1_0000 then [0xE0 + c / 4096, More(c / 64), More(c)]
    else [0xF0 + c / 262144, More(c / 4096), More(c / 64), More(c)]
  }

  ghost predicate Scalars(cs: seq<nat>) { forall k :: 0 <= k < |cs| ==> Scalar(cs[k]) }

  function EncodeText(cs: seq<nat>): seq<byte>
    requires Scalars(cs)
  {
    if |cs| == 0 then [] else EncodeChar(cs[0]) + EncodeText(cs[1..])
  }

  lemma CharReads(c: nat, rest: seq<byte>)
    requires Scalar(c)
    ensures CharLength(EncodeChar(c) + rest) == |EncodeChar(c)|
  {
    if c >= 0x1_0000 { FourRead(c, rest); } else if c >= 0x800 { ThreeRead(c, rest); } else { ShortReads(c, rest); }
  }

  lemma ShortReads(c: nat, rest: seq<byte>)
    requires c < 0x800
    ensures CharLength(EncodeChar(c) + rest) == |EncodeChar(c)|
  {
    var s := EncodeChar(c) + rest;
    if c >= 0x80 { assert s[0] == 0xC0 + c / 64 && s[1] == More(c); }
  }

  lemma ThreeRead(c: nat, rest: seq<byte>)
    requires Scalar(c) && 0x800 <= c < 0x1_0000
    ensures CharLength(EncodeChar(c) + rest) == |EncodeChar(c)|
  {
    var s := EncodeChar(c) + rest;
    assert s[0] == 0xE0 + c / 4096 && s[1] == More(c / 64) && s[2] == More(c);
    assert c / 64 % 64 == c / 64 - 64 * (c / 4096);
  }

  lemma FourRead(c: nat, rest: seq<byte>)
    requires Scalar(c) && c >= 0x1_0000
    ensures CharLength(EncodeChar(c) + rest) == |EncodeChar(c)|
  {
    var s := EncodeChar(c) + rest;
    assert s[0] == 0xF0 + c / 262144 && s[1] == More(c / 4096) && s[2] == More(c / 64) && s[3] == More(c);
    assert c / 4096 % 64 == c / 4096 - 64 * (c / 262144);
  }

  /** A number put together from its high part and six bits. */
  lemma Digits(high: nat, x: nat)
    requires x < 64
    ensures (high * 64 + x) / 64 == high && (high * 64 + x) % 64 == x
  {
  }

  /** The scalar value of the character in front. */
  lemma CharWritten(s: seq<byte>) returns (c: nat)
    requires |s| > 0 && CharLength(s) > 0
    ensures Scalar(c) && s[..CharLength(s)] == EncodeChar(c)
  {
    var b: int := s[0];
    if b <= 0x7F {
      c := b;
    } else if b <= 0xDF {
      c := (b - 0xC0) * 64 + (s[1] as int - 0x80);
    } else {
      c := LongWritten(s);
    }
  }

  /** Numbers put together from six bits at a time come apart again. */
  lemma ThreeDigits(h: nat, x: nat, y: nat)
    requires x < 64 && y < 64
    ensures var c := (h * 64 + x) * 64 + y;
      c % 64 == y && c / 64 == h * 64 + x && c / 64 % 64 == x && c / 4096 == h
  {
    var c := (h * 64 + x) * 64 + y;
    Digits(h * 64 + x, y);
    Digits(h, x);
    assert c / 4096 == c / 64 / 64;
  }

  lemma FourDigits(h: nat, x: nat, y: nat, z: nat)
    requires x < 64 && y < 64 && z < 64
    ensures var c := ((h * 64 + x) * 64 + y) * 64 + z;
      c % 64 == z && c / 64 % 64 == y && c / 4096 % 64 == x && c / 262144 == h
  {
    var c, d := ((h * 64 + x) * 64 + y) * 64 + z, (h * 64 + x) * 64 + y;
    Digits(d, z);
    ThreeDigits(h, x, y);
    assert c / 4096 == c / 64 / 64 && c / 262144 == c / 64 / 4096;
  }

  lemma LongWritten(s: seq<byte>) returns (c: nat)
    requires |s| > 0 && CharLength(s) > 2
    ensures Scalar(c) && s[..CharLength(s)] == EncodeChar(c)
  {
    if CharLength(s) == 3 { c := ThreeWritten(s); } else { c := FourWritten(s); }
  }

  lemma ThreeWritten(s: seq<byte>) returns (c: nat)
    requires |s| > 0 && CharLength(s) == 3
    ensures Scalar(c) && s[..3] == EncodeChar(c)
  {
    var h: int, x: int, y: int := s[0] - 0xE0, s[1] - 0x80, s[2] - 0x80;
    c := (h * 64 + x) * 64 + y;
    ThreeDigits(h, x, y);
  }

  lemma FourWritten(s: seq<byte>) returns (c: nat)
    requires |s| > 0 && CharLength(s) > 3
    ensures CharLength(s) == 4 && Scalar(c) && s[..4] == EncodeChar(c)
  {
    var h: int, x: int, y: int, z: int := s[0] - 0xF0, s[1] - 0x80, s[2] - 0x80, s[3] - 0x80;
    c := ((h * 64 + x) * 64 + y) * 64 + z;
    FourDigits(h, x, y, z);
  }

  /** A string is valid exactly when it is the UTF-8 form of some scalar values. */
  lemma Utf8IsEncoded(s: seq<byte>)
    ensures Utf8(s) <==> exists cs :: Scalars(cs) && EncodeText(cs) == s
  {
    hide Scalar, CharLength, EncodeChar;
    if Utf8(s) { var cs := TextOf(s); }
    if cs :| Scalars(cs) && EncodeText(cs) == s { EncodedIsUtf8(cs); }
  }

  lemma {:induction false} TextOf(s: seq<byte>) returns (cs: seq<nat>)
    requires Utf8(s)
    ensures Scalars(cs) && EncodeText(cs) == s
    decreases |s|
  {
    hide Scalar, EncodeChar, CharLength;
    if |s| == 0 {
      cs := [];
    } else {
      var n := CharLength(s);
      LengthFits(s);
      var c := CharWritten(s);
      var rest := TextOf(s[n..]);
      cs := [c] + rest;
      assert cs[1..] == rest && s == s[..n] + s[n..];
    }
  }

  lemma LengthFits(s: seq<byte>)
    requires |s| > 0
    ensures CharLength(s) <= |s|
  {
  }

  lemma {:induction false} EncodedIsUtf8(cs: seq<nat>)
    requires Scalars(cs)
    ensures Utf8(EncodeText(cs))
  {
    hide Scalar, EncodeChar, CharLength;
    if |cs| > 0 {
      var rest := EncodeText(cs[1..]);
      EncodedIsUtf8(cs[1..]);
      CharReads(cs[0], rest);
      CharSize(cs[0]);
      assert (EncodeChar(cs[0]) + rest)[|EncodeChar(cs[0])|..] == rest;
    }
  }

  lemma CharSize(c: nat)
    requires Scalar(c)
    ensures |EncodeChar(c)| > 0
  {
  }
}
