/** The CRC-16 that guards records in flash: bit by bit over a byte stream, and as the remainder of a division of
    polynomials over GF(2), written as naturals whose bit i is the coefficient of x^i. */
module Crc16 {
  import opened BitOps

  // ---- Division by the generator ----

  // x^16 + x^12 + x^5 + 1, the generator of ITU-T Recommendation V.41, section 2.
  const GENERATOR: nat := 0x1_1021

  // The product of polynomials q and g.
  function Mul(q: nat, g: nat): nat
    decreases q
  {
    if q == 0 then 0 else Xor(if q % 2 == 1 then g else 0, 2 * Mul(q / 2, g))
  }

  ghost predicate IsRemainder(dividend: nat, r: nat) {
    r < 0x1_0000 && exists q: nat :: dividend == Xor(r, Mul(q, GENERATOR))
  }

  lemma MulUnfold(q: nat, g: nat)
    ensures Mul(q, g) == Xor(if q % 2 == 1 then g else 0, 2 * Mul(q / 2, g))
  {
    if q == 0 {
      XorZero(0);
    }
  }

  lemma MulDouble(q: nat, g: nat)
    ensures Mul(2 * q, g) == 2 * Mul(q, g)
  {
    hide Xor, Mul;
    MulUnfold(2 * q, g);
    XorZero(2 * Mul(q, g));
  }

  lemma {:induction false} MulShl(q: nat, g: nat, k: nat)
    ensures Mul(Shl(q, k), g) == Shl(Mul(q, g), k)
    decreases k
  {
    if k > 0 {
      hide Xor, Mul;
      MulShl(q, g, k - 1);
      MulDouble(Shl(q, k - 1), g);
    }
  }

  lemma XorHalves(p: nat, q: nat)
    ensures Xor(p, q) / 2 == Xor(p / 2, q / 2) && (Xor(p, q) % 2 == 1 <==> p % 2 != q % 2)
  {}

  // The product distributes over the sum.
  lemma {:induction false} MulXor(p: nat, q: nat, g: nat)
    ensures Mul(Xor(p, q), g) == Xor(Mul(p, g), Mul(q, g))
    decreases p + q
  {
    if p == 0 || q == 0 {
      XorZero(p);
      XorZero(q);
      XorZero(Mul(p, g));
      XorZero(Mul(q, g));
    } else {
      hide Xor, Mul;
      var a, b := if p % 2 == 1 then g else 0, if q % 2 == 1 then g else 0;
      MulXor(p / 2, q / 2, g);
      XorHalves(p, q);
      MulUnfold(p, g);
      MulUnfold(q, g);
      MulUnfold(Xor(p, q), g);
      XorDouble(Mul(p / 2, g), Mul(q / 2, g));
      XorSwap(a, 2 * Mul(p / 2, g), b, 2 * Mul(q / 2, g));
      XorZero(g);
      XorZero(0);
    }
  }

  // No multiple of the generator but zero has a degree below the generator's.
  lemma {:induction false} MultiplesAreLarge(q: nat)
    requires q > 0
    ensures Mul(q, GENERATOR) >= if q == 1 then 0x1_0000 else 0x2_0000
  {
    hide Xor, Mul, Pow2;
    Powers();
    MulUnfold(q, GENERATOR);
    if q == 1 {
      MulOfZero(GENERATOR);
      XorZero(GENERATOR);
    } else {
      MultiplesAreLarge(q / 2);
      XorHigh(if q % 2 == 1 then GENERATOR else 0, 2 * Mul(q / 2, GENERATOR), 17);
    }
  }

  lemma MulOfZero(g: nat)
    ensures Mul(0, g) == 0
  {}

  // So the remainder is unique.
  lemma RemainderIsUnique(dividend: nat, r: nat, s: nat)
    requires IsRemainder(dividend, r) && IsRemainder(dividend, s)
    ensures r == s
  {
    hide Xor, Mul, Pow2;
    var p: nat :| dividend == Xor(r, Mul(p, GENERATOR));
    var q: nat :| dividend == Xor(s, Mul(q, GENERATOR));
    XorSwap(r, Mul(p, GENERATOR), s, Mul(q, GENERATOR));
    XorZero(dividend);
    MulXor(p, q, GENERATOR);
    // r + s is a multiple of the generator below its degree.
    var d := Xor(p, q);
    assert Xor(Xor(r, s), Mul(d, GENERATOR)) == 0;
    XorCancels(Xor(r, s), Mul(d, GENERATOR));
    XorZero(Mul(d, GENERATOR));
    assert Xor(r, s) == Mul(d, GENERATOR);
    Powers();
    XorBound(r, s, 16);
    if d > 0 {
      MultiplesAreLarge(d);
    }
    MulOfZero(GENERATOR);
    XorCancels(r, s);
    XorZero(s);
  }

  // Remainders add up.
  lemma RemainderOfSum(a: nat, b: nat, r: nat, s: nat)
    requires IsRemainder(a, r) && IsRemainder(b, s)
    ensures IsRemainder(Xor(a, b), Xor(r, s))
  {
    hide Xor, Mul, Pow2;
    var p: nat :| a == Xor(r, Mul(p, GENERATOR));
    var q: nat :| b == Xor(s, Mul(q, GENERATOR));
    XorSwap(r, Mul(p, GENERATOR), s, Mul(q, GENERATOR));
    MulXor(p, q, GENERATOR);
    Powers();
    XorBound(r, s, 16);
    assert Xor(a, b) == Xor(Xor(r, s), Mul(Xor(p, q), GENERATOR));
  }

  // ---- The checksum, bit by bit ----

  // Shift by one bit and subtract the generator if a bit falls out at the top.
  function BitStep(crc: Uint16): (r: Uint16) {
    Powers();
    XorBound(crc * 2 % 0x1_0000, 0x1021, 16);
    if crc >= 0x8000 then Xor(crc * 2 % 0x1_0000, 0x1021) else crc * 2
  }

  function Steps(crc: Uint16, n: nat): (r: Uint16) {
    if n == 0 then crc else BitStep(Steps(crc, n - 1))
  }

  function ByteStep(crc: Uint16, b: Byte): (r: Uint16) {
    Powers();
    XorBound(crc, b * 0x100, 16);
    Steps(Xor(crc, b * 0x100), 8)
  }

  // The checksum of a message, continued from an earlier one.
  function Crc(crcval: Uint16, data: seq<Byte>): (r: Uint16) {
    if data == [] then crcval else ByteStep(Crc(crcval, data[..|data| - 1]), data[|data| - 1])
  }

  // Bit 15, as the code tests it.
  lemma TopBit(crc: Uint16)
    ensures And(crc, 0x8000) != 0 <==> crc >= 0x8000
  {
    hide And, Bit, Pow2, Shr;
    Powers();
    TestReadsBit(crc, 15);
    TopBitIs(crc, 15);
  }

  lemma {:induction false} TopBitIs(v: nat, n: nat)
    requires v < Pow2(n + 1)
    ensures Bit(v, n) <==> v >= Pow2(n)
    decreases n
  {
    if n > 0 {
      TopBitIs(v / 2, n - 1);
    }
  }

  lemma BitStepUnfolded(crc: Uint16)
    ensures BitStep(crc) == if crc >= 0x8000 then Xor(crc * 2 % 0x1_0000, 0x1021) else crc * 2 % 0x1_0000
  {}

  method Crc16mp(crcval: Uint16, data: seq<Byte>, count: Uint16) returns (crc: Uint16)
    requires count <= |data|
    ensures crc == Crc(crcval, data[..count])
  {
    hide And, Xor, BitStep;
    crc := crcval;
    var ptr: nat, left: nat := 0, count;
    while left > 0
      invariant ptr + left == count && crc == Crc(crcval, data[..ptr])
      decreases left
    {
      left := left - 1;
      assert data[..ptr + 1][..ptr] == data[..ptr];
      ghost var before := crc;
      Powers();
      var high: nat := data[ptr] as int * 0x100;
      XorBound(crc, high, 16);
      crc := Xor(crc, high);
      ghost var mixed := crc;
      ptr := ptr + 1;
      var xx := 0;
      while xx < 8
        invariant 0 <= xx <= 8 && crc == Steps(mixed, xx)
        decreases 8 - xx
      {
        TopBit(crc);
        XorBound(crc * 2 % 0x1_0000, 0x1021, 16);
        BitStepUnfolded(crc);
        if And(crc, 0x8000) != 0 {
          crc := Xor(crc * 2 % 0x1_0000, 0x1021);
        } else {
          crc := crc * 2 % 0x1_0000;
        }
        xx := xx + 1;
      }
      assert crc == ByteStep(before, data[ptr - 1]);
    }
  }

  // ---- The checksum is a remainder ----

  // A message as a polynomial: its bits in order of transmission, most significant first.
  function Poly(data: seq<Byte>): (r: nat) {
    if data == [] then 0 else Poly(data[..|data| - 1]) * 0x100 + data[|data| - 1]
  }

  // What is divided: the starting value ahead of the message, all times x^16.
  function Dividend(crcval: Uint16, data: seq<Byte>): (r: nat) {
    Xor(Shl(crcval, 8 * |data|), Shl(Poly(data), 16))
  }

  // A bit step multiplies by x, modulo the generator.
  lemma BitStepIsDouble(crc: Uint16)
    ensures BitStep(crc) == Xor(2 * crc, if crc >= 0x8000 then GENERATOR else 0)
  {
    hide Xor, Pow2, Shl;
    Powers();
    XorZero(2 * crc);
    if crc >= 0x8000 {
      var t: nat := crc * 2 - 0x1_0000;
      XorIsSum(1, t, 16);
      XorIsSum(1, 0x1021, 16);
      ShlOne();
      XorSwap(0x1_0000, t, 0x1_0000, 0x1021);
      XorZero(0x1_0000);
      XorZero(Xor(t, 0x1021));
    }
  }

  lemma ShlOne()
    ensures Shl(1, 16) == 0x1_0000 && Shl(1, 8) == 0x100
  {
    ShlIsProduct(1, 16);
    ShlIsProduct(1, 8);
    Powers();
  }

  lemma {:induction false} StepsQuotient(crc: Uint16, n: nat) returns (q: nat)
    ensures Shl(crc, n) == Xor(Steps(crc, n), Mul(q, GENERATOR))
    decreases n
  {
    hide Xor, Mul, BitStep;
    if n == 0 {
      q := 0;
      MulOfZero(GENERATOR);
      XorZero(crc);
    } else {
      var p := StepsQuotient(crc, n - 1);
      var s: nat := Steps(crc, n - 1);
      var d := Digit(s >= 0x8000);
      var g := if s >= 0x8000 then GENERATOR else 0;
      q := Xor(d, 2 * p);
      BitStepIsDouble(s);
      XorDouble(s, Mul(p, GENERATOR));
      MulXor(d, 2 * p, GENERATOR);
      MulDouble(p, GENERATOR);
      MulDigit(d, GENERATOR);
      assert Mul(q, GENERATOR) == Xor(g, 2 * Mul(p, GENERATOR));
      XorSwap(2 * s, g, g, 2 * Mul(p, GENERATOR));
      XorCancels(2 * s, g);
      XorAssociates(Xor(2 * s, g), g, 2 * Mul(p, GENERATOR));
    }
  }

  lemma MulDigit(d: nat, g: nat)
    requires d < 2
    ensures Mul(d, g) == if d == 1 then g else 0
  {
    hide Xor;
    MulUnfold(d, g);
    XorZero(g);
  }

  lemma DividendOfNothing(crcval: Uint16)
    ensures Dividend(crcval, []) == crcval
  {
    hide Xor, Shl;
    ShlIsProduct(crcval, 0);
    ShlIsProduct(0, 16);
    XorZero(crcval);
  }

  lemma ByteShifted(b: Byte)
    ensures Shl(b, 8) == b as int * 0x100
  {
    Powers();
    ShlIsProduct(b, 8);
  }

  // One more byte multiplies the dividend by x^8 and adds the byte's own term.
  lemma DividendOfMore(crcval: Uint16, data: seq<Byte>, b: Byte)
    ensures Dividend(crcval, data + [b]) == Xor(Shl(Dividend(crcval, data), 8), Shl(b, 16))
  {
    hide Xor, Shl, Pow2;
    var p := Poly(data);
    assert (data + [b])[..|data|] == data;
    Powers();
    ShlIsProduct(p, 8);
    XorIsSum(p, b, 8);
    assert Poly(data + [b]) == Xor(Shl(p, 8), b);
    ShlXor(Shl(p, 8), b, 16);
    ShlShl(p, 8, 16);
    ShlShl(p, 16, 8);
    ShlShl(crcval, 8 * |data|, 8);
    ShlXor(Shl(crcval, 8 * |data|), Shl(p, 16), 8);
    XorAssociates(Shl(crcval, 8 * |data| + 8), Shl(p, 24), Shl(b, 16));
  }

  // The checksum continued from any starting value is the remainder of that dividend.
  lemma {:induction false} CrcIsRemainder(crcval: Uint16, data: seq<Byte>)
    ensures IsRemainder(Dividend(crcval, data), Crc(crcval, data))
    decreases |data|
  {
    hide Xor, Mul, Shl, Pow2, BitStep, Dividend;
    if data == [] {
      DividendOfNothing(crcval);
      MulOfZero(GENERATOR);
      XorZero(crcval);
      assert Dividend(crcval, data) == Xor(crcval, Mul(0, GENERATOR));
    } else {
      var n := |data| - 1;
      var prior, b := data[..n], data[n];
      assert data == prior + [b];
      CrcIsRemainder(crcval, prior);
      DividendOfMore(crcval, prior, b);
      RemainderStep(Dividend(crcval, prior), Crc(crcval, prior), b);
    }
  }

  lemma RemainderStep(dividend: nat, r: Uint16, b: Byte)
    requires IsRemainder(dividend, r)
    ensures IsRemainder(Xor(Shl(dividend, 8), Shl(b, 16)), ByteStep(r, b))
  {
    hide Xor, Mul, Shl, Pow2, BitStep, Steps;
    var q: nat :| dividend == Xor(r, Mul(q, GENERATOR));
    var high: nat := b as int * 0x100;
    Powers();
    XorBound(r, high, 16);
    var p := StepsQuotient(Xor(r, high), 8);
    ByteShifted(b);
    ShlShl(b, 8, 8);
    ShlXor(r, high, 8);
    ShlXor(r, Mul(q, GENERATOR), 8);
    MulShl(q, GENERATOR, 8);
    var left, multiple := Xor(Shl(r, 8), Shl(b, 16)), Mul(Shl(q, 8), GENERATOR);
    XorZero(Shl(b, 16));
    XorZero(multiple);
    XorSwap(Shl(r, 8), multiple, Shl(b, 16), 0);
    assert Xor(Shl(dividend, 8), Shl(b, 16)) == Xor(left, multiple);
    XorAssociates(ByteStep(r, b), Mul(p, GENERATOR), multiple);
    MulXor(p, Shl(q, 8), GENERATOR);
    assert Xor(Shl(dividend, 8), Shl(b, 16)) == Xor(ByteStep(r, b), Mul(Xor(p, Shl(q, 8)), GENERATOR));
  }

  // Started at 0, it is the remainder of the message times x^16.
  lemma CrcOfMessage(data: seq<Byte>)
    ensures IsRemainder(Shl(Poly(data), 16), Crc(0, data))
  {
    hide Xor, Mul, Shl, Poly, Crc;
    CrcIsRemainder(0, data);
    ShlIsProduct(0, 8 * |data|);
    XorZero(Shl(Poly(data), 16));
  }

  // ---- What follows for messages ----

  // A message may be checked in parts, as the comment on the routine promises.
  lemma {:induction false} CrcOfParts(crcval: Uint16, first: seq<Byte>, second: seq<Byte>)
    ensures Crc(crcval, first + second) == Crc(Crc(crcval, first), second)
    decreases |second|
  {
    hide ByteStep;
    if second == [] {
      assert first + second == first;
    } else {
      var n := |second| - 1;
      CrcOfParts(crcval, first, second[..n]);
      assert (first + second)[..|first| + n] == first + second[..n];
    }
  }

  function XorBytes(a: seq<Byte>, b: seq<Byte>): (r: seq<Byte>)
    requires |a| == |b|
    ensures |r| == |a|
  {
    if a == [] then []
    else
      var n := |a| - 1;
      EightBitXor(a[n], b[n]);
      XorBytes(a[..n], b[..n]) + [Xor(a[n], b[n])]
  }

  lemma EightBitXor(a: Byte, b: Byte)
    ensures Xor(a, b) < 0x100
  {
    Powers();
    XorBound(a, b, 8);
  }

  lemma {:induction false} PolyOfXor(a: seq<Byte>, b: seq<Byte>)
    requires |a| == |b|
    ensures Poly(XorBytes(a, b)) == Xor(Poly(a), Poly(b))
    decreases |a|
  {
    hide Xor;
    if a == [] {
      XorZero(0);
    } else {
      var n := |a| - 1;
      PolyOfXor(a[..n], b[..n]);
      XorOfAppended(Poly(a[..n]), a[n], Poly(b[..n]), b[n]);
      assert XorBytes(a, b)[..n] == XorBytes(a[..n], b[..n]);
    }
  }

  lemma XorOfAppended(p: nat, a: Byte, q: nat, b: Byte)
    ensures Xor(p * 0x100 + a, q * 0x100 + b) == Xor(p, q) * 0x100 + Xor(a, b)
  {
    hide Xor, Shl, Pow2;
    EightBitXor(a, b);
    Powers();
    ShlIsProduct(p, 8);
    ShlIsProduct(q, 8);
    ShlIsProduct(Xor(p, q), 8);
    ShlXor(p, q, 8);
    XorIsSum(p, a, 8);
    XorIsSum(q, b, 8);
    XorIsSum(Xor(p, q), Xor(a, b), 8);
    XorSwap(Shl(p, 8), a, Shl(q, 8), b);
  }

  // The checksum is linear.
  lemma CrcOfXor(c: Uint16, d: Uint16, a: seq<Byte>, b: seq<Byte>)
    requires |a| == |b|
    ensures Xor(c, d) < 0x1_0000
    ensures Crc(Xor(c, d), XorBytes(a, b)) == Xor(Crc(c, a), Crc(d, b))
  {
    hide Xor, Shl, Pow2, Crc, Poly, XorBytes, IsRemainder;
    Powers();
    XorBound(c, d, 16);
    CrcIsRemainder(c, a);
    CrcIsRemainder(d, b);
    CrcIsRemainder(Xor(c, d), XorBytes(a, b));
    RemainderOfSum(Dividend(c, a), Dividend(d, b), Crc(c, a), Crc(d, b));
    PolyOfXor(a, b);
    ShlXor(c, d, 8 * |a|);
    ShlXor(Poly(a), Poly(b), 16);
    XorSwap(Shl(c, 8 * |a|), Shl(Poly(a), 16), Shl(d, 8 * |a|), Shl(Poly(b), 16));
    RemainderIsUnique(Dividend(Xor(c, d), XorBytes(a, b)), Crc(Xor(c, d), XorBytes(a, b)), Xor(Crc(c, a), Crc(d, b)));
  }

  // No step loses information.
  lemma BitStepInjective(c: Uint16, d: Uint16)
    requires BitStep(c) == BitStep(d)
    ensures c == d
  {
    hide Xor;
    DoubledWord(c);
    DoubledWord(d);
    var u: nat, v: nat := c as int * 2 % 0x1_0000, d as int * 2 % 0x1_0000;
    XorHalves(u, 0x1021);
    XorHalves(v, 0x1021);
    XorCancels(u, 0x1021);
    XorCancels(v, 0x1021);
  }

  lemma DoubledWord(c: Uint16)
    ensures c as int * 2 % 0x1_0000 == if c < 0x8000 then 2 * c as int else 2 * c as int - 0x1_0000
    ensures c as int * 2 % 0x1_0000 % 2 == 0
  {}

  lemma {:induction false} StepsInjective(c: Uint16, d: Uint16, n: nat)
    requires Steps(c, n) == Steps(d, n)
    ensures c == d
    decreases n
  {
    hide BitStep;
    if n > 0 {
      BitStepInjective(Steps(c, n - 1), Steps(d, n - 1));
      StepsInjective(c, d, n - 1);
    }
  }

  // Bits that do not reach the top are merely shifted.
  lemma {:induction false} LowStepsShift(v: Byte, n: nat)
    requires n <= 8
    ensures Steps(v, n) == Shl(v, n)
    decreases n
  {
    if n > 0 {
      hide Xor, Pow2;
      LowStepsShift(v, n - 1);
      ShlBelow(v, n - 1);
    }
  }

  lemma ShlBelow(v: Byte, n: nat)
    requires n <= 7
    ensures Shl(v, n) < 0x8000
  {
    assert Shl(v, 1) < 0x200;
    assert Shl(v, 2) < 0x400;
    assert Shl(v, 3) < 0x800;
    assert Shl(v, 4) < 0x1000;
    assert Shl(v, 5) < 0x2000;
    assert Shl(v, 6) < 0x4000;
    assert Shl(v, 7) < 0x8000;
  }

  function MixedIn(crc: Uint16, b: Byte): (r: Uint16) {
    Powers();
    XorBound(crc, b * 0x100, 16);
    Xor(crc, b * 0x100)
  }

  // A message followed by two bytes checks to 0 if and only if they are its own checksum, high byte first.
  lemma ChecksOutIff(crcval: Uint16, data: seq<Byte>, high: Byte, low: Byte)
    ensures Crc(crcval, data + [high, low]) == 0 <==> high as int * 0x100 + low == Crc(crcval, data)
  {
    hide Xor, BitStep, Steps, Pow2, Crc;
    var r := Crc(crcval, data);
    CrcOfParts(crcval, data, [high, low]);
    CrcOfTwo(r, high, low);
    var mixed: Uint16 := MixedIn(r, high);
    Powers();
    // The last byte step gives 0 just when it starts from 0.
    var s: Uint16 := Steps(mixed, 8);
    var last: Uint16 := MixedIn(s, low);
    LowStepsShift(0, 8);
    LowStepsShift(low, 8);
    ByteShifted(0);
    ByteShifted(low);
    if Steps(last, 8) == 0 {
      StepsInjective(last, 0, 8);
      XorCancels(s, low as int * 0x100);
      XorZero(low as int * 0x100);
      StepsInjective(mixed, low, 8);
      XorCancels(r, high as int * 0x100);
      SumOfBytes(high, low);
    }
    if high as int * 0x100 + low == r {
      SumOfBytes(high, low);
      XorCommutes(low, high as int * 0x100);
      XorCancels(low, high as int * 0x100);
      XorZero(s);
    }
  }

  lemma CrcOfTwo(crcval: Uint16, high: Byte, low: Byte)
    ensures Crc(crcval, [high, low]) == Steps(MixedIn(Steps(MixedIn(crcval, high), 8), low), 8)
  {
    hide Xor, Steps;
    assert [high][..0] == [];
    assert Crc(crcval, [high]) == ByteStep(Crc(crcval, []), high);
    assert [high, low][..1] == [high];
    assert Crc(crcval, [high, low]) == ByteStep(Crc(crcval, [high]), low);
  }

  lemma SumOfBytes(high: Byte, low: Byte)
    ensures Xor(low, high as int * 0x100) == high as int * 0x100 + low
  {
    hide Xor, Shl, Pow2;
    Powers();
    ByteShifted(high);
    XorIsSum(high, low, 8);
    XorCommutes(low, high as int * 0x100);
  }

  // No multiple of the generator is a burst: its lowest and highest terms are more than 15 places apart.
  lemma {:induction false} BurstIsNoMultiple(q: nat, burst: nat, k: nat)
    requires 0 < burst < 0x1_0000
    ensures Mul(q, GENERATOR) != Shl(burst, k)
    decreases k
  {
    hide Xor, Mul;
    if q == 0 {
      MulOfZero(GENERATOR);
      ShlIsProduct(burst, k);
    } else if k == 0 {
      MultiplesAreLarge(q);
    } else if q % 2 == 0 {
      BurstIsNoMultiple(q / 2, burst, k - 1);
      MulDouble(q / 2, GENERATOR);
    } else {
      MulUnfold(q, GENERATOR);
      XorHalves(GENERATOR, 2 * Mul(q / 2, GENERATOR));
    }
  }

  // Messages that differ only within 16 consecutive bits have different checksums.
  lemma BurstIsDetected(crcval: Uint16, a: seq<Byte>, b: seq<Byte>, burst: nat, k: nat)
    requires |a| == |b| && 0 < burst < 0x1_0000
    requires Xor(Poly(a), Poly(b)) == Shl(burst, k)
    ensures Crc(crcval, a) != Crc(crcval, b)
  {
    hide Xor, Shl, Poly, Crc, Mul;
    var x, y, c := Shl(Poly(a), 16), Shl(Poly(b), 16), Shl(crcval, 8 * |a|);
    var r, s := Crc(crcval, a), Crc(crcval, b);
    CrcIsRemainder(crcval, a);
    CrcIsRemainder(crcval, b);
    RemainderOfSum(Dividend(crcval, a), Dividend(crcval, b), r, s);
    XorSwap(c, x, c, y);
    XorZero(c);
    XorZero(Xor(x, y));
    ShlXor(Poly(a), Poly(b), 16);
    ShlShl(burst, k, 16);
    var q: nat :| Shl(burst, k + 16) == Xor(Xor(r, s), Mul(q, GENERATOR));
    XorZero(r);
    XorZero(Mul(q, GENERATOR));
    BurstIsNoMultiple(q, burst, k + 16);
  }
}
