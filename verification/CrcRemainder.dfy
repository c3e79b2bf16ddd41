/**
 The checksum as ITU-T V.42, section 8.1.1.6.2, defines it: the complement of a remainder. Polynomials
 have coefficients modulo 2 and are sets of exponents. A register's lowest bit is its highest exponent,
 and a message's bits go lowest first, byte by byte, from its highest exponent down. The register after a
 message is what is left of the message, its first 32 bits complemented, times x^32, over the generator.
*/
module CrcRemainder {
  import opened Types
  import opened Crc32
  import LogFile

  type Poly = set<nat>

  /** x^32 + x^26 + x^23 + x^22 + x^16 + x^12 + x^11 + x^10 + x^8 + x^7 + x^5 + x^4 + x^2 + x + 1. */
  const GENERATOR: Poly := {32, 26, 23, 22, 16, 12, 11, 10, 8, 7, 5, 4, 2, 1, 0}

  function Plus(a: Poly, b: Poly): Poly { (a - b) + (b - a) }

  /** Times x^k. */
  function Shift(k: nat, a: Poly): Poly { set e | e in a :: e + k }

  /** The products of terms of `q` and `g` that make up the coefficient of x^e. */
  function Terms(q: Poly, g: Poly, e: nat): Poly { set i | i in q && i <= e && e - i in g }

  ghost function Product(q: Poly, g: Poly): Poly {
    set i, j | i in q && j in g && |Terms(q, g, i + j)| % 2 == 1 :: i + j
  }

  /** `a` and `b` leave the same remainder over the generator. */
  ghost predicate Congruent(a: Poly, b: Poly) { exists q :: Plus(a, b) == Product(q, GENERATOR) }

  // ---- products -----------------------------------------------------------------------

  lemma ProductAt(q: Poly, g: Poly, e: nat)
    ensures e in Product(q, g) <==> |Terms(q, g, e)| % 2 == 1
  {
    if |Terms(q, g, e)| % 2 == 1 {
      assert Terms(q, g, e) != {};
      var i :| i in Terms(q, g, e);
      var j := e - i;
      assert i in q && j in g && i + j == e;
    }
  }

  lemma PlusParity(a: Poly, b: Poly)
    ensures |Plus(a, b)| % 2 == (|a| + |b|) % 2
  {
    assert a == (a - b) + (a * b) && b == (b - a) + (a * b);
    assert |Plus(a, b)| == |a - b| + |b - a|;
    assert |a| == |a - b| + |a * b| && |b| == |b - a| + |a * b|;
  }

  lemma ProductPlus(p: Poly, q: Poly, g: Poly)
    ensures Product(Plus(p, q), g) == Plus(Product(p, g), Product(q, g))
  {
    hide Product;
    forall e ensures e in Product(Plus(p, q), g) <==> e in Plus(Product(p, g), Product(q, g)) {
      if e >= 0 {
        ProductAt(p, g, e);
        ProductAt(q, g, e);
        ProductAt(Plus(p, q), g, e);
        assert Terms(Plus(p, q), g, e) == Plus(Terms(p, g, e), Terms(q, g, e));
        PlusParity(Terms(p, g, e), Terms(q, g, e));
      }
    }
  }

  lemma {:induction false} ShiftSize(k: nat, a: Poly)
    ensures |Shift(k, a)| == |a|
    decreases |a|
  {
    if a != {} {
      var e :| e in a;
      ShiftSize(k, a - {e});
      forall x: nat ensures x in Shift(k, a) <==> x in Shift(k, a - {e}) + {e + k} {
        ShiftAt(k, a, x);
        ShiftAt(k, a - {e}, x);
      }
      ShiftAt(k, a - {e}, e + k);
      assert Shift(k, a) == Shift(k, a - {e}) + {e + k};
    }
  }

  lemma ShiftAt(k: nat, a: Poly, e: nat)
    ensures e in Shift(k, a) <==> e >= k && e - k in a
  {
    if e >= k && e - k in a { assert (e - k) + k == e; }
  }

  lemma ProductShift(k: nat, q: Poly, g: Poly)
    ensures Product(Shift(k, q), g) == Shift(k, Product(q, g))
  {
    hide Product, Shift;
    forall e ensures e in Product(Shift(k, q), g) <==> e in Shift(k, Product(q, g)) {
      if e >= 0 { ProductShiftAt(k, q, g, e); }
    }
  }

  lemma ProductShiftAt(k: nat, q: Poly, g: Poly, e: nat)
    ensures e in Product(Shift(k, q), g) <==> e in Shift(k, Product(q, g))
  {
    hide Product, Shift;
    ProductAt(Shift(k, q), g, e);
    ShiftAt(k, Product(q, g), e);
    forall i: nat ensures i in Shift(k, q) <==> i >= k && i - k in q { ShiftAt(k, q, i); }
    if e < k {
      assert Terms(Shift(k, q), g, e) == {};
    } else {
      ProductAt(q, g, e - k);
      forall i: nat ensures i in Terms(Shift(k, q), g, e) <==> i in Shift(k, Terms(q, g, e - k)) {
        ShiftAt(k, Terms(q, g, e - k), i);
        if i >= k { assert e - i == e - k - (i - k); }
      }
      assert Terms(Shift(k, q), g, e) == Shift(k, Terms(q, g, e - k));
      ShiftSize(k, Terms(q, g, e - k));
    }
  }

  lemma ProductOne(g: Poly)
    ensures Product({}, g) == {} && Product({0}, g) == g
  {
    hide Product;
    forall e ensures (e in Product({}, g) <==> e in {}) && (e in Product({0}, g) <==> e in g) {
      if e >= 0 {
        ProductAt({}, g, e);
        ProductAt({0}, g, e);
        assert Terms({}, g, e) == {};
        assert Terms({0}, g, e) == if e in g then {0} else {};
      }
    }
  }

  // ---- remainders -----------------------------------------------------------------------------

  lemma CongruentSame(a: Poly)
    ensures Congruent(a, a)
  {
    hide Product;
    ProductOne(GENERATOR);
    assert Plus(a, a) == {};
    assert Plus(a, a) == Product({}, GENERATOR);
  }

  lemma CongruentNext(a: Poly, b: Poly, c: Poly)
    requires Congruent(a, b) && Congruent(b, c)
    ensures Congruent(a, c)
  {
    hide Product;
    var p :| Plus(a, b) == Product(p, GENERATOR);
    var q :| Plus(b, c) == Product(q, GENERATOR);
    ProductPlus(p, q, GENERATOR);
    assert Plus(a, c) == Plus(Plus(a, b), Plus(b, c));
    assert Plus(a, c) == Product(Plus(p, q), GENERATOR);
  }

  lemma ShiftPlus(k: nat, a: Poly, b: Poly)
    ensures Shift(k, Plus(a, b)) == Plus(Shift(k, a), Shift(k, b))
  {
    forall e: nat ensures e in Shift(k, Plus(a, b)) <==> e in Plus(Shift(k, a), Shift(k, b)) {
      ShiftAt(k, Plus(a, b), e);
      ShiftAt(k, a, e);
      ShiftAt(k, b, e);
    }
  }

  lemma ShiftTwice(k: nat, l: nat, a: Poly)
    ensures Shift(k, Shift(l, a)) == Shift(k + l, a)
  {
    forall e: nat ensures e in Shift(k, Shift(l, a)) <==> e in Shift(k + l, a) {
      ShiftAt(k, Shift(l, a), e);
      if e >= k { ShiftAt(l, a, e - k); }
      ShiftAt(k + l, a, e);
    }
  }

  lemma CongruentShift(k: nat, a: Poly, b: Poly)
    requires Congruent(a, b)
    ensures Congruent(Shift(k, a), Shift(k, b))
  {
    hide Product, Shift;
    var q :| Plus(a, b) == Product(q, GENERATOR);
    ShiftPlus(k, a, b);
    ProductShift(k, q, GENERATOR);
    assert Plus(Shift(k, a), Shift(k, b)) == Product(Shift(k, q), GENERATOR);
  }

  lemma CongruentPlus(a: Poly, b: Poly, c: Poly)
    requires Congruent(a, b)
    ensures Congruent(Plus(a, c), Plus(b, c))
  {
    hide Product;
    assert Plus(Plus(a, c), Plus(b, c)) == Plus(a, b);
  }

  /** There is one remainder of a degree below 32. */
  lemma RemainderUnique(a: Poly, b: Poly)
    requires Congruent(a, b) && forall e :: e in a || e in b ==> e < 32
    ensures a == b
  {
    hide Product;
    var q :| Plus(a, b) == Product(q, GENERATOR);
    if q == {} {
      ProductOne(GENERATOR);
      forall e ensures e in a <==> e in b { assert e !in Plus(a, b); }
    } else {
      var m := Highest(q);
      assert forall i :: i in GENERATOR ==> i <= 32;
      assert Terms(q, GENERATOR, m + 32) == {m};
      PlusBelow(a, b, m + 32);
      ProductAt(q, GENERATOR, m + 32);
    }
  }

  lemma PlusBelow(a: Poly, b: Poly, e: nat)
    requires e !in a && e !in b
    ensures e !in Plus(a, b)
  {
  }

  lemma {:induction false} Highest(q: Poly) returns (m: nat)
    requires q != {}
    ensures m in q && forall e :: e in q ==> e <= m
    decreases |q|
  {
    m :| m in q;
    if q - {m} != {} {
      var h := Highest(q - {m});
      forall e | e in q ensures e == m || e <= h { assert e == m || e in q - {m}; }
      if h > m { m := h; }
    }
  }

  // ---- registers -------------------------------------------------------------------------------

  predicate Bit(x: bv32, j: nat) { Odd(Shifted(x, j)) }

  /** The lowest bit is the highest exponent. */
  function PolyOf(x: bv32): (p: Poly)
    ensures forall e :: e in p ==> e < 32
  {
    set j: nat | j < 32 && Bit(x, j) :: 31 - j
  }

  lemma PolyAt(x: bv32, e: nat)
    requires e < 32
    ensures e in PolyOf(x) <==> Bit(x, 31 - e)
  {
    if Bit(x, 31 - e) { assert 31 - (31 - e) == e; }
  }

  lemma HalfXor(a: bv32, b: bv32)
    ensures Half(Xor(a, b)) == Xor(Half(a), Half(b)) && (Odd(Xor(a, b)) <==> Odd(a) != Odd(b))
  {
  }

  lemma BitNext(x: bv32, j: nat)
    ensures Bit(x, j) <==> if j == 0 then Odd(x) else Bit(Half(x), j - 1)
  {
    hide Half, Odd;
  }

  lemma {:induction false} BitXor(a: bv32, b: bv32, j: nat)
    ensures Bit(Xor(a, b), j) <==> Bit(a, j) != Bit(b, j)
    decreases j
  {
    hide Bit, Half, Odd, Xor;
    HalfXor(a, b);
    BitNext(a, j);
    BitNext(b, j);
    BitNext(Xor(a, b), j);
    if j > 0 { BitXor(Half(a), Half(b), j - 1); }
  }

  lemma PolyXor(a: bv32, b: bv32)
    ensures PolyOf(Xor(a, b)) == Plus(PolyOf(a), PolyOf(b))
  {
    hide PolyOf, Bit, Xor;
    forall e: nat ensures e in PolyOf(Xor(a, b)) <==> e in Plus(PolyOf(a), PolyOf(b)) {
      if e < 32 {
        BitXor(a, b, 31 - e);
        PolyAt(Xor(a, b), e);
        PolyAt(a, e);
        PolyAt(b, e);
      }
    }
  }

  /** Shifting a register right multiplies by x, but for what falls out. */
  lemma PolyHalf(x: bv32)
    ensures PolyOf(Half(x)) == Shift(1, PolyOf(x)) - {32}
    ensures 32 in Shift(1, PolyOf(x)) <==> Odd(x)
  {
    hide PolyOf, Half, Odd;
    PolyAt(x, 31);
    ShiftAt(1, PolyOf(x), 32);
    forall e: nat ensures e in PolyOf(Half(x)) <==> e in Shift(1, PolyOf(x)) - {32} {
      ShiftAt(1, PolyOf(x), e);
      if e < 32 {
        PolyAt(Half(x), e);
        if e == 0 { NoBitAbove(x); } else { PolyAt(x, e - 1); }
      }
    }
  }

  /** A register shifted 32 times is empty. */
  lemma NoBitAbove(x: bv32)
    ensures !Bit(Half(x), 31)
  {
    hide Half;
    ShiftAll(x);
    assert Shifted(Half(x), 31) == Shifted(x, 32);
    assert !Odd(0);
  }

  lemma PolyBits()
    ensures PolyOf(POLY) == GENERATOR - {32}
  {
    hide PolyOf;
    forall e: nat ensures e in PolyOf(POLY) <==> e in GENERATOR - {32} {
      if e < 32 {
        PolyAt(POLY, e);
        PolyBit(31 - e);
      }
    }
  }

  /** Bit `k` of the low four. */
  predicate LowBit(x: bv32, k: nat)
    requires k < 4
  {
    if k == 0 then x & 1 == 1 else if k == 1 then x & 2 == 2 else if k == 2 then x & 4 == 4 else x & 8 == 8
  }

  lemma LowBits(x: bv32, k: nat)
    requires k < 4
    ensures Bit(x, k) <==> LowBit(x, k)
  {
    BitNext(x, k);
    if k > 0 { BitNext(Half(x), k - 1); }
    if k > 1 { BitNext(Half(Half(x)), k - 2); }
    if k > 2 { BitNext(Half(Half(Half(x))), k - 3); }
    hide Bit;
  }

  lemma HighBits(x: bv32, j: nat)
    ensures Bit(x, j + 4) <==> Bit(Nibble(x), j)
  {
    hide Nibble;
    ShiftFour(x, j);
  }

  /** A register read four bits at a time. */
  lemma {:induction false} BitsByFour(xs: seq<bv32>, j: nat)
    requires j < 4 * |xs| && forall i :: 0 <= i < |xs| - 1 ==> xs[i + 1] == Nibble(xs[i])
    ensures Bit(xs[0], j) <==> LowBit(xs[j / 4], j % 4)
  {
    hide Nibble, Bit, LowBit;
    if j < 4 {
      LowBits(xs[0], j);
    } else {
      HighBits(xs[0], j - 4);
      BitsByFour(xs[1..], j - 4);
      assert xs[1..][(j - 4) / 4] == xs[j / 4] && (j - 4) % 4 == j % 4;
    }
  }

  lemma PolyBit(j: nat)
    requires j < 32
    ensures Bit(POLY, j) <==> 31 - j in GENERATOR
  {
    var xs: seq<bv32> := [0xEDB8_8320, 0x0EDB_8832, 0x00ED_B883, 0x000E_DB88, 0x0000_EDB8, 0x0000_0EDB, 0x0000_00ED,
                          0x0000_000E];
    BitsByFour(xs, j);
    hide Bit;
  }

  /** One bit's step multiplies the register by x, modulo the generator. */
  lemma StepCongruent(crc: bv32)
    ensures Congruent(PolyOf(BitStep(crc)), Shift(1, PolyOf(crc)))
  {
    hide PolyOf, Product, Shift;
    var p := Shift(1, PolyOf(crc));
    StepIs(crc);
    PolyHalf(crc);
    if Odd(crc) {
      PolyXor(Half(crc), POLY);
      PolyBits();
      ProductOne(GENERATOR);
      assert Plus(Plus(p - {32}, GENERATOR - {32}), p) == GENERATOR;
      assert Plus(PolyOf(BitStep(crc)), p) == Product({0}, GENERATOR);
    } else {
      assert p - {32} == p;
      CongruentSame(p);
    }
  }

  lemma StepIs(crc: bv32)
    ensures BitStep(crc) == if Odd(crc) then Xor(Half(crc), POLY) else Half(crc)
  {
  }

  lemma {:induction false} StepsCongruent(crc: bv32, k: nat)
    ensures Congruent(PolyOf(BitSteps(crc, k)), Shift(k, PolyOf(crc)))
  {
    hide PolyOf, Shift, Congruent, BitStep;
    if k == 0 {
      ShiftNone(PolyOf(crc));
      CongruentSame(PolyOf(crc));
    } else {
      var c := BitSteps(crc, k - 1);
      StepsCongruent(crc, k - 1);
      StepCongruent(c);
      CongruentShift(1, PolyOf(c), Shift(k - 1, PolyOf(crc)));
      ShiftTwice(1, k - 1, PolyOf(crc));
      CongruentNext(PolyOf(BitStep(c)), Shift(1, PolyOf(c)), Shift(k, PolyOf(crc)));
    }
  }

  lemma ShiftNone(a: Poly)
    ensures Shift(0, a) == a
  {
  }

  // ---- messages -------------------------------------------------------------------------------------

  predicate HasBit(v: nat, j: nat) { if j == 0 then v % 2 == 1 else HasBit(v / 2, j - 1) }

  function BytePoly(b: byte): (p: Poly)
    ensures forall e :: e in p ==> e < 8
  {
    set j: nat | j < 8 && HasBit(b, j) :: 7 - j
  }

  function Message(data: seq<byte>): Poly {
    if |data| == 0 then {} else Plus(Shift(8, Message(data[..|data| - 1])), BytePoly(data[|data| - 1]))
  }

  function AllOnes(k: nat): (p: Poly)
    ensures forall e: nat :: e in p <==> e < k
  {
    if k == 0 then {} else AllOnes(k - 1) + {k - 1}
  }

  lemma BytePolyAt(b: byte, e: nat)
    requires e < 8
    ensures e in BytePoly(b) <==> HasBit(b, 7 - e)
  {
    if HasBit(b, 7 - e) { assert 7 - (7 - e) == e; }
  }

  lemma HalfShiftIn(x: bv32, i: bv32)
    requires x <= 0xFF && i <= 1
    ensures Half((x << 1) | i) == x && (Odd((x << 1) | i) <==> i == 1)
  {
  }

  lemma {:induction false} BitsHave(v: nat, k: nat, j: nat)
    requires k <= 8
    ensures Bit(Bits(v, k), j) <==> j < k && HasBit(v, j)
    decreases k
  {
    hide Half, Odd, Bit;
    if k == 0 {
      NothingHasBits(j);
    } else {
      var rest, low: bv32 := Bits(v / 2, k - 1), if v % 2 == 1 then 1 else 0;
      BitsFit(v / 2, k - 1);
      HalfShiftIn(rest, low);
      BitNext((rest << 1) | low, j);
      if j > 0 { BitsHave(v / 2, k - 1, j - 1); }
    }
  }

  lemma {:induction false} NothingHasBits(j: nat)
    ensures !Bit(0, j)
  {
    assert Half(0) == 0 && !Odd(0);
    if j > 0 { NothingHasBits(j - 1); }
  }

  lemma WidenPoly(b: byte)
    ensures PolyOf(Widen(b)) == Shift(24, BytePoly(b))
  {
    hide PolyOf, BytePoly, Bits, Shift;
    forall e: nat ensures e in PolyOf(Widen(b)) <==> e in Shift(24, BytePoly(b)) {
      ShiftAt(24, BytePoly(b), e);
      if e < 32 {
        PolyAt(Widen(b), e);
        BitsHave(b, 8, 31 - e);
        if e >= 24 { BytePolyAt(b, e - 24); }
      }
    }
  }

  /** What stands before the message's own bits: 32 ones, in front of as many bits as it has. */
  function Prefixed(data: seq<byte>): Poly {
    Plus(Shift(8 * |data|, AllOnes(32)), Shift(32, Message(data)))
  }

  lemma ByteCongruent(crc: bv32, b: byte)
    ensures Congruent(PolyOf(ByteStep(crc, b)), Plus(Shift(8, PolyOf(crc)), Shift(32, BytePoly(b))))
  {
    hide PolyOf, Shift, Congruent, BitSteps, BytePoly, Xor, ByteStep, Widen;
    PolyXor(crc, Widen(b));
    WidenPoly(b);
    ByteStepIs(crc, b);
    StepsCongruent(Xor(crc, Widen(b)), 8);
    ShiftPlus(8, PolyOf(crc), Shift(24, BytePoly(b)));
    ShiftTwice(8, 24, BytePoly(b));
  }

  lemma {:induction false} RegisterCongruent(data: seq<byte>)
    ensures Congruent(PolyOf(Register(data)), Prefixed(data))
  {
    hide PolyOf, Shift, Congruent, ByteStep, BytePoly, Plus;
    if |data| == 0 {
      StartPoly();
      StartPrefixed(data);
      CongruentSame(PolyOf(0xFFFF_FFFF));
    } else {
      var init, b := data[..|data| - 1], data[|data| - 1];
      RegisterCongruent(init);
      var r, p := PolyOf(Register(init)), Prefixed(init);
      ByteCongruent(Register(init), b);
      CongruentShift(8, r, p);
      CongruentPlus(Shift(8, r), Shift(8, p), Shift(32, BytePoly(b)));
      NextPrefixed(data);
      CongruentNext(PolyOf(Register(data)), Plus(Shift(8, r), Shift(32, BytePoly(b))), Prefixed(data));
    }
  }

  lemma NextPrefixed(data: seq<byte>)
    requires |data| > 0
    ensures var init, b := data[..|data| - 1], data[|data| - 1];
      Plus(Shift(8, Prefixed(init)), Shift(32, BytePoly(b))) == Prefixed(data)
  {
    hide Shift, BytePoly;
    var init, b := data[..|data| - 1], data[|data| - 1];
    var ones, m := AllOnes(32), Message(init);
    ShiftPlus(8, Shift(8 * |init|, ones), Shift(32, m));
    ShiftTwice(8, 8 * |init|, ones);
    ShiftTwice(8, 32, m);
    ShiftTwice(32, 8, m);
    ShiftPlus(32, Shift(8, m), BytePoly(b));
    PlusAssociates(Shift(8 * |data|, ones), Shift(40, m), Shift(32, BytePoly(b)));
  }

  lemma PlusAssociates(a: Poly, b: Poly, c: Poly)
    ensures Plus(Plus(a, b), c) == Plus(a, Plus(b, c))
  {
  }

  lemma StartPrefixed(data: seq<byte>)
    requires |data| == 0
    ensures Prefixed(data) == AllOnes(32)
  {
    ShiftNone(AllOnes(32));
    assert Shift(32, {}) == {};
  }

  lemma StartPoly()
    ensures PolyOf(0xFFFF_FFFF) == AllOnes(32)
  {
    hide PolyOf, Bit;
    forall e: nat ensures e in PolyOf(0xFFFF_FFFF) <==> e < 32 {
      if e < 32 {
        PolyAt(0xFFFF_FFFF, e);
        OnesHave(31 - e);
      }
    }
  }

  lemma OnesHave(j: nat)
    requires j < 32
    ensures Bit(0xFFFF_FFFF, j)
  {
    var xs: seq<bv32> := [0xFFFF_FFFF, 0x0FFF_FFFF, 0x00FF_FFFF, 0x000F_FFFF, 0x0000_FFFF, 0x0000_0FFF, 0x0000_00FF,
                          0x0000_000F];
    BitsByFour(xs, j);
    hide Bit;
  }

  /**
   The checksum is the complement of the remainder, over the generator, of the message behind 32 ones and
   in front of 32 zeros; and of no other polynomial of a degree below 32.
  */
  lemma CrcIsRemainder(data: seq<byte>, p: Poly)
    requires forall e :: e in p ==> e < 32
    ensures Congruent(p, Prefixed(data)) <==> p == PolyOf(!Crc(data))
  {
    hide PolyOf, Shift, Congruent, Prefixed, Register;
    RegisterCongruent(data);
    NotTwice(Register(data));
    var r := PolyOf(Register(data));
    if Congruent(p, Prefixed(data)) {
      CongruentBack(r, Prefixed(data));
      CongruentNext(p, Prefixed(data), r);
      RemainderUnique(p, r);
    }
  }

  lemma NotTwice(x: bv32)
    ensures !!x == x
  {
  }

  lemma CongruentBack(a: Poly, b: Poly)
    requires Congruent(a, b)
    ensures Congruent(b, a)
  {
    assert Plus(a, b) == Plus(b, a);
  }

  // ---- as a number ------------------------------------------------------------------------------

  lemma {:induction false} NumberHas(x: bv32, k: nat, j: nat)
    requires j < k
    ensures HasBit(NumberOf(x, k), j) <==> Bit(x, j)
    decreases k
  {
    hide Half, Odd, Bit;
    BitNext(x, j);
    var low, rest: nat := if Odd(x) then 1 else 0, NumberOf(Half(x), k - 1);
    assert (low + 2 * rest) % 2 == low && (low + 2 * rest) / 2 == rest;
    if j > 0 { NumberHas(Half(x), k - 1, j - 1); }
  }

  lemma {:induction false} BitNot(x: bv32, j: nat)
    requires j < 32
    ensures Bit(!x, j) <==> !Bit(x, j)
  {
    NotIsXor(x);
    BitXor(x, 0xFFFF_FFFF, j);
    OnesHave(j);
  }

  lemma NotIsXor(x: bv32)
    ensures !x == Xor(x, 0xFFFF_FFFF)
  {
  }

  /** The bits of a number are where a polynomial of a degree below 32 has no coefficient, from bit 31 for x^0 down. */
  ghost predicate Complements(v: nat, p: Poly) {
    forall j: nat :: j < 32 ==> (HasBit(v, j) <==> 31 - j !in p)
  }

  /** Bit `j` of the checksum, as a number, is the complement of the remainder's coefficient of x^(31 - j). */
  lemma ChecksumIsRemainder(data: seq<byte>, p: Poly)
    requires forall e :: e in p ==> e < 32
    ensures Congruent(p, Prefixed(data)) <==> Complements(LogFile.Checksum(data), p)
  {
    hide Congruent, Prefixed, PolyOf, Crc, Complements;
    CrcIsRemainder(data, p);
    var c, v := Crc(data), LogFile.Checksum(data);
    ChecksumIs(data);
    NumberComplements(c);
    PolyBelow(!c);
    if Complements(v, p) { SamePoly(v, p, PolyOf(!c)); }
  }

  lemma SamePoly(v: nat, p: Poly, q: Poly)
    requires Complements(v, p) && Complements(v, q) && forall x :: x in p || x in q ==> x < 32
    ensures p == q
  {
    hide Complements;
    forall e: nat ensures e in p <==> e in q { SameCoefficient(v, p, q, e); }
  }

  lemma NumberComplements(c: bv32)
    ensures Complements(NumberOf(c, 32), PolyOf(!c))
  {
    hide Bit, HasBit, NumberOf, PolyOf;
    forall j: nat | j < 32 ensures HasBit(NumberOf(c, 32), j) <==> 31 - j !in PolyOf(!c) {
      PolyAt(!c, 31 - j);
      BitNot(c, j);
      NumberHas(c, 32, j);
    }
  }

  lemma SameCoefficient(v: nat, p: Poly, q: Poly, e: nat)
    requires Complements(v, p) && Complements(v, q)
    requires forall x :: x in p || x in q ==> x < 32
    ensures e in p <==> e in q
  {
    hide HasBit;
    if e < 32 {
      var j := 31 - e;
      assert HasBit(v, j) || !HasBit(v, j);
    }
  }

  lemma PolyBelow(x: bv32)
    ensures forall e :: e in PolyOf(x) ==> e < 32
  {
  }

  lemma ChecksumIs(data: seq<byte>)
    ensures LogFile.Checksum(data) == NumberOf(Crc(data), 32)
  {
    hide NumberOf, Crc;
  }
}
