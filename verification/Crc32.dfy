/**
 The CRC-32 of section 8 of RFC 1952, bit by bit. One byte's step is injective in the register, so
 two messages of one length that differ in exactly one byte never share a checksum.
*/
module Crc32 {
  import opened Types

  const POLY: bv32 := 0xEDB8_8320

  /** One bit: shift right, and fold the polynomial in when a one falls out. */
  function BitStep(crc: bv32): bv32 {
    if crc & 1 == 1 then (crc >> 1) ^ POLY else crc >> 1
  }

  function BitSteps(crc: bv32, k: nat): bv32 {
    if k == 0 then crc else BitStep(BitSteps(crc, k - 1))
  }

  /** The low `k` bits of `v` as bits of a register. */
  function Bits(v: nat, k: nat): bv32 {
    if k == 0 then 0 else (Bits(v / 2, k - 1) << 1) | (if v % 2 == 1 then 1 else 0)
  }

  /** A byte, widened. */
  function Widen(b: byte): bv32 {
    Bits(b, 8)
  }

  function ByteStep(crc: bv32, b: byte): bv32 {
    BitSteps(crc ^ Widen(b), 8)
  }

  function Register(data: seq<byte>): bv32 {
    if |data| == 0 then 0xFFFF_FFFF else ByteStep(Register(data[..|data| - 1]), data[|data| - 1])
  }

  function Crc(data: seq<byte>): bv32 {
    !Register(data)
  }

  method FoldBit(crc: bv32) returns (r: bv32)
    ensures r == BitStep(crc)
  {
    var low := crc & 1;
    var mask: bv32 := 0 - low;
    assert low == 1 ==> mask == 0xFFFF_FFFF;
    assert low != 1 ==> mask == 0;
    r := (crc >> 1) ^ (POLY & mask);
  }

  lemma NoBits(crc: bv32)
    ensures BitSteps(crc, 0) == crc
  {
  }

  lemma NextBit(crc: bv32, k: nat)
    ensures BitSteps(crc, k + 1) == BitStep(BitSteps(crc, k))
  {
  }

  lemma NoByte(data: seq<byte>)
    ensures Register(data[..0]) == 0xFFFF_FFFF
  {
  }

  lemma NextByte(data: seq<byte>, i: nat)
    requires i < |data|
    ensures Register(data[..i + 1]) == ByteStep(Register(data[..i]), data[i])
  {
    hide ByteStep;
    assert data[..i + 1][..i] == data[..i];
  }

  lemma CrcIs(data: seq<byte>)
    ensures Crc(data) == !Register(data)
  {
  }

  lemma ByteIs(crc: bv32, b: byte)
    ensures ByteStep(crc, b) == BitSteps(crc ^ Widen(b), 8)
  {
    hide BitSteps, Widen;
  }

  method FoldByte(crc: bv32, b: byte) returns (r: bv32)
    ensures r == ByteStep(crc, b)
  {
    hide *;
    r := crc ^ Widen(b);
    ghost var start := r;
    ByteIs(crc, b);
    NoBits(start);
    for k := 0 to 8
      invariant r == BitSteps(start, k)
    {
      NextBit(start, k);
      r := FoldBit(r);
    }
  }

  method ComputeCrc(data: seq<byte>) returns (r: bv32)
    ensures r == Crc(data)
  {
    hide *;
    var crc: bv32 := 0xFFFF_FFFF;
    NoByte(data);
    for i := 0 to |data|
      invariant crc == Register(data[..i])
    {
      NextByte(data, i);
      crc := FoldByte(crc, data[i]);
    }
    assert data[..|data|] == data;
    r := !crc;
    CrcIs(data);
  }

  // ---- injectivity -----------------------------------------------------------------

  /** The top bit of the polynomial tells which bit fell out. */
  lemma BitStepInjective(a: bv32, b: bv32)
    requires BitStep(a) == BitStep(b)
    ensures a == b
  {
  }

  lemma {:induction false} BitStepsInjective(a: bv32, b: bv32, k: nat)
    requires BitSteps(a, k) == BitSteps(b, k)
    ensures a == b
  {
    if k > 0 {
      BitStepInjective(BitSteps(a, k - 1), BitSteps(b, k - 1));
      BitStepsInjective(a, b, k - 1);
    }
  }

  lemma WidenInjective(x: byte, y: byte)
    requires Widen(x) == Widen(y)
    ensures x == y
  {
    hide Bits;
    BitsInjective(x, y, 8, 256);
  }

  function Xor(a: bv32, b: bv32): bv32 { a ^ b }

  lemma XorInjective(a: bv32, b: bv32, c: bv32, d: bv32)
    requires Xor(a, c) == Xor(b, d)
    ensures a == b <==> c == d
  {
    if a == b { XorCancels(c, d, a); }
    if c == d { XorCancels(a, b, c); }
  }

  lemma XorCancels(a: bv32, b: bv32, c: bv32)
    ensures a ^ c == b ^ c ==> a == b
    ensures c ^ a == c ^ b ==> a == b
  {
  }

  lemma ByteStepIs(crc: bv32, b: byte)
    ensures ByteStep(crc, b) == BitSteps(Xor(crc, Widen(b)), 8)
  {
    hide BitSteps, Widen;
  }

  /** Different registers stay different over the same byte, and different bytes part equal registers. */
  lemma ByteStepInjective(a: bv32, b: bv32, x: byte, y: byte)
    requires (a == b) != (x == y)
    ensures ByteStep(a, x) != ByteStep(b, y)
  {
    hide *;
    ByteStepIs(a, x);
    ByteStepIs(b, y);
    if ByteStep(a, x) == ByteStep(b, y) {
      BitStepsInjective(Xor(a, Widen(x)), Xor(b, Widen(y)), 8);
      XorInjective(a, b, Widen(x), Widen(y));
      if Widen(x) == Widen(y) { WidenInjective(x, y); }
    }
  }

  function Ones(k: nat): bv32 {
    if k == 0 then 0 else (Ones(k - 1) << 1) | 1
  }

  lemma ShiftIn(x: bv32, i: bv32, m: bv32)
    requires x <= m <= 0xFF && i <= 1
    ensures (x << 1) | i <= (m << 1) | 1
  {
  }

  lemma ShiftInInjective(x: bv32, i: bv32, y: bv32, j: bv32)
    requires x <= 0xFF && y <= 0xFF && i <= 1 && j <= 1 && (x << 1) | i == (y << 1) | j
    ensures x == y && i == j
  {
  }

  lemma OnesSmall(k: nat)
    requires k <= 8
    ensures Ones(k) <= 0xFF
  {
    assert Ones(0) == 0 && Ones(1) == 1 && Ones(2) == 3 && Ones(3) == 7;
    assert Ones(4) == 15 && Ones(5) == 31 && Ones(6) == 63 && Ones(7) == 127 && Ones(8) == 255;
  }

  lemma {:induction false} BitsFit(v: nat, k: nat)
    requires k <= 8
    ensures Bits(v, k) <= Ones(k) <= 0xFF
  {
    OnesSmall(k);
    if k > 0 {
      BitsFit(v / 2, k - 1);
      ShiftIn(Bits(v / 2, k - 1), if v % 2 == 1 then 1 else 0, Ones(k - 1));
    }
  }

  lemma {:induction false} BitsInjective(v: nat, w: nat, k: nat, limit: nat)
    requires k <= 8 && v < limit && w < limit && limit == Power2(k) && Bits(v, k) == Bits(w, k)
    ensures v == w
  {
    if k > 0 {
      BitsFit(v / 2, k - 1);
      BitsFit(w / 2, k - 1);
      ShiftInInjective(Bits(v / 2, k - 1), if v % 2 == 1 then 1 else 0, Bits(w / 2, k - 1),
                       if w % 2 == 1 then 1 else 0);
      BitsInjective(v / 2, w / 2, k - 1, limit / 2);
    }
  }

  function Power2(k: nat): nat {
    if k == 0 then 1 else 2 * Power2(k - 1)
  }

  /** `s` and `t` differ at position `k` and nowhere else. */
  ghost predicate DifferOnlyAt(s: seq<byte>, t: seq<byte>, k: nat) {
    |s| == |t| && k < |s| && s[k] != t[k] && forall j :: 0 <= j < |s| && j != k ==> s[j] == t[j]
  }

  lemma {:induction false} RegistersDiffer(s: seq<byte>, t: seq<byte>, k: nat)
    requires DifferOnlyAt(s, t, k)
    ensures Register(s) != Register(t)
  {
    var n := |s| - 1;
    if k == n {
      assert s[..n] == t[..n];
    } else {
      RegistersDiffer(s[..n], t[..n], k);
    }
    ByteStepInjective(Register(s[..n]), Register(t[..n]), s[n], t[n]);
  }

  /** A message changed in exactly one byte, whatever its length, has another checksum. */
  lemma OneByteChangesCrc(s: seq<byte>, t: seq<byte>, k: nat)
    requires DifferOnlyAt(s, t, k)
    ensures Crc(s) != Crc(t)
  {
    RegistersDiffer(s, t, k);
    NotInjective(Register(s), Register(t));
  }

  lemma NotInjective(a: bv32, b: bv32)
    requires a != b
    ensures !a != !b
  {
  }

  // ---- the checksum as a number --------------------------------------------------------

  function Half(x: bv32): bv32 { x >> 1 }

  predicate Odd(x: bv32) { x & 1 == 1 }

  /** The number the low `k` bits stand for. */
  function NumberOf(x: bv32, k: nat): (n: nat)
    ensures n < Power2(k)
  {
    if k == 0 then 0 else (if Odd(x) then 1 else 0) + 2 * NumberOf(Half(x), k - 1)
  }

  function Shifted(x: bv32, k: nat): bv32 {
    if k == 0 then x else Shifted(Half(x), k - 1)
  }

  lemma LowBitAndRest(x: bv32, y: bv32)
    requires Half(x) == Half(y) && (Odd(x) <==> Odd(y))
    ensures x == y
  {
  }

  lemma {:induction false} NumberInjective(x: bv32, y: bv32, k: nat)
    requires NumberOf(x, k) == NumberOf(y, k) && Shifted(x, k) == Shifted(y, k)
    ensures x == y
    decreases k
  {
    hide Half, Odd;
    if k > 0 {
      NumberInjective(Half(x), Half(y), k - 1);
      LowBitAndRest(x, y);
    }
  }

  function Nibble(x: bv32): bv32 { Half(Half(Half(Half(x)))) }

  lemma ShiftFour(x: bv32, k: nat)
    ensures Shifted(x, k + 4) == Shifted(Nibble(x), k)
  {
    hide Half;
    var a, b, c := Half(x), Half(Half(x)), Half(Half(Half(x)));
    assert Shifted(x, k + 4) == Shifted(a, k + 3) == Shifted(b, k + 2) == Shifted(c, k + 1);
  }

  lemma NoBitsLeft(x: bv32)
    ensures Nibble(Nibble(Nibble(Nibble(Nibble(Nibble(Nibble(Nibble(x)))))))) == 0
  {
  }

  lemma ShiftAll(x: bv32)
    ensures Shifted(x, 32) == 0
  {
    hide Shifted, Nibble;
    var a := Nibble(x);
    var b := Nibble(a);
    var c := Nibble(b);
    var d := Nibble(c);
    var e := Nibble(d);
    var f := Nibble(e);
    var g := Nibble(f);
    ShiftFour(x, 28);
    ShiftFour(a, 24);
    ShiftFour(b, 20);
    ShiftFour(c, 16);
    ShiftFour(d, 12);
    ShiftFour(e, 8);
    ShiftFour(f, 4);
    ShiftFour(g, 0);
    ShiftNone(Nibble(g));
    NoBitsLeft(x);
  }

  lemma ShiftNone(x: bv32)
    ensures Shifted(x, 0) == x
  {
  }

  /** Different registers are different numbers. */
  lemma NumbersDiffer(x: bv32, y: bv32)
    requires x != y
    ensures NumberOf(x, 32) != NumberOf(y, 32)
  {
    hide NumberOf;
    ShiftAll(x);
    ShiftAll(y);
    if NumberOf(x, 32) == NumberOf(y, 32) { NumberInjective(x, y, 32); }
  }

  lemma {:induction false} Power2Add(k: nat, j: nat)
    ensures Power2(k + j) == Power2(k) * Power2(j)
  {
    if j > 0 { Power2Add(k, j - 1); }
  }

  lemma Power2Of32()
    ensures Power2(32) == 0x1_0000_0000
  {
    assert Power2(4) == 16 && Power2(8) == 256;
    Power2Add(8, 8);
    Power2Add(16, 16);
  }
}
