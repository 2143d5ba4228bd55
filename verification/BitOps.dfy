/** C's bitwise operators on unsigned words, with words as naturals. Each operator is defined one bit at a time;
    the lemmas restate it per bit position, or as plain arithmetic where the operands' bits do not overlap. */
module BitOps {

  type Byte = b: nat | b < 0x100
  type Uint16 = w: nat | w < 0x1_0000

  function Pow2(n: nat): (r: nat)
    ensures r > 0
  {
    if n == 0 then 1 else 2 * Pow2(n - 1)
  }

  // Is the bit at position i set? Position 0 is the least significant one.
  predicate Bit(v: nat, i: nat)
    decreases i
  {
    if i == 0 then v % 2 == 1 else Bit(v / 2, i - 1)
  }

  function Digit(b: bool): nat {
    if b then 1 else 0
  }

  // a & b
  function And(a: nat, b: nat): nat {
    if a == 0 then 0 else Digit(a % 2 == 1 && b % 2 == 1) + 2 * And(a / 2, b / 2)
  }

  // a | b
  function Or(a: nat, b: nat): nat {
    if a == 0 && b == 0 then 0 else Digit(a % 2 == 1 || b % 2 == 1) + 2 * Or(a / 2, b / 2)
  }

  // a & ~b
  function AndNot(a: nat, b: nat): nat {
    if a == 0 then 0 else Digit(a % 2 == 1 && b % 2 == 0) + 2 * AndNot(a / 2, b / 2)
  }

  // a ^ b
  function Xor(a: nat, b: nat): nat {
    if a == 0 && b == 0 then 0 else Digit(a % 2 != b % 2) + 2 * Xor(a / 2, b / 2)
  }

  lemma MultiplesApart(m: nat, d: int)
    ensures d >= 1 ==> m * d >= m
    ensures d <= -1 ==> m * d <= 0 - m
  {
    if d >= 1 {
      assert m * d == m + m * (d - 1);
    } else if d <= -1 {
      assert m * d == m * (d + 1) - m;
    }
  }

  // A remainder, given away by its quotient.
  lemma RemainderIs(v: nat, m: nat, k: nat, s: nat)
    requires s < m && v == m * k + s
    ensures v % m == s
  {
    var q: int, r: int := v / m, v % m;
    assert v == m * q + r;
    assert m * (q - k) == m * q - m * k;
    MultiplesApart(m, q - k);
  }

  lemma {:induction false} ZeroBit(i: nat)
    ensures !Bit(0, i)
    decreases i
  {
    if i > 0 {
      ZeroBit(i - 1);
    }
  }

  lemma {:induction false} AndBit(a: nat, b: nat, i: nat)
    ensures Bit(And(a, b), i) == (Bit(a, i) && Bit(b, i))
    decreases i
  {
    if a == 0 {
      ZeroBit(i);
    } else if i > 0 {
      AndBit(a / 2, b / 2, i - 1);
    }
  }

  lemma {:induction false} OrBit(a: nat, b: nat, i: nat)
    ensures Bit(Or(a, b), i) == (Bit(a, i) || Bit(b, i))
    decreases i
  {
    if a == 0 && b == 0 {
      ZeroBit(i);
    } else if i > 0 {
      OrBit(a / 2, b / 2, i - 1);
    }
  }

  lemma {:induction false} AndNotBit(a: nat, b: nat, i: nat)
    ensures Bit(AndNot(a, b), i) == (Bit(a, i) && !Bit(b, i))
    decreases i
  {
    if a == 0 {
      ZeroBit(i);
    } else if i > 0 {
      AndNotBit(a / 2, b / 2, i - 1);
    }
  }

  lemma {:induction false} XorBit(a: nat, b: nat, i: nat)
    ensures Bit(Xor(a, b), i) == (Bit(a, i) != Bit(b, i))
    decreases i
  {
    if a == 0 && b == 0 {
      ZeroBit(i);
    } else if i > 0 {
      XorBit(a / 2, b / 2, i - 1);
    }
  }

  // Words with the same bits are equal.
  lemma {:induction false} SameBits(a: nat, b: nat)
    requires forall i: nat :: Bit(a, i) == Bit(b, i)
    ensures a == b
    decreases a + b
  {
    if a != 0 || b != 0 {
      forall i: nat
        ensures Bit(a / 2, i) == Bit(b / 2, i)
      {
        assert Bit(a, i + 1) == Bit(b, i + 1);
      }
      assert Bit(a, 0) == Bit(b, 0);
      SameBits(a / 2, b / 2);
    }
  }

  lemma {:induction false} OrBound(a: nat, b: nat, n: nat)
    requires a < Pow2(n) && b < Pow2(n)
    ensures Or(a, b) < Pow2(n)
  {
    if n > 0 && (a != 0 || b != 0) {
      OrBound(a / 2, b / 2, n - 1);
    }
  }

  lemma {:induction false} XorBound(a: nat, b: nat, n: nat)
    requires a < Pow2(n) && b < Pow2(n)
    ensures Xor(a, b) < Pow2(n)
  {
    if n > 0 && (a != 0 || b != 0) {
      XorBound(a / 2, b / 2, n - 1);
    }
  }

  lemma {:induction false} AndNotBound(a: nat, b: nat)
    ensures AndNot(a, b) <= a
  {
    if a > 0 {
      AndNotBound(a / 2, b / 2);
    }
  }

  // Bits of the masks that C code makes from powers of two.
  lemma {:induction false} Pow2Bit(n: nat, i: nat)
    ensures Bit(Pow2(n), i) == (i == n)
    decreases i
  {
    if n == 0 && i > 0 {
      ZeroBit(i - 1);
    } else if i > 0 {
      Pow2Bit(n - 1, i - 1);
    }
  }

  // (1 << e) - (1 << s) has its ones at exactly the positions s .. e-1.
  lemma {:induction false} FieldMaskBit(s: nat, e: nat, i: nat)
    requires s <= e
    ensures Pow2(s) <= Pow2(e)
    ensures Bit(Pow2(e) - Pow2(s), i) == (s <= i < e)
    decreases e, i
  {
    if s == e {
      ZeroBit(i);
    } else if s > 0 {
      FieldMaskBit(s - 1, e - 1, if i > 0 then i - 1 else 0);
    } else {
      FieldMaskBit(0, e - 1, if i > 0 then i - 1 else 0);
      if i > 0 {
        assert (Pow2(e) - 1) / 2 == Pow2(e - 1) - 1;
      }
    }
  }

  // A word below 2^n has no bits from n on.
  lemma {:induction false} NoHighBits(v: nat, n: nat, i: nat)
    requires v < Pow2(n) && n <= i
    ensures !Bit(v, i)
    decreases n
  {
    if n == 0 {
      ZeroBit(i);
    } else {
      NoHighBits(v / 2, n - 1, i - 1);
    }
  }

  // The test `(v & (1 << i)) != 0` reads exactly bit i.
  lemma {:induction false} TestReadsBit(v: nat, i: nat)
    ensures (And(v, Pow2(i)) != 0) == Bit(v, i)
    decreases i
  {
    if v == 0 {
      ZeroBit(i);
    } else if i == 0 {
      AndZero(v / 2);
    } else {
      TestReadsBit(v / 2, i - 1);
    }
  }

  lemma {:induction false} AndZero(v: nat)
    ensures And(v, 0) == 0
  {
    if v > 0 {
      AndZero(v / 2);
    }
  }

  // ---- Shifts, and the fields they cut out ----

  // v << k
  function Shl(v: nat, k: nat): nat {
    if k == 0 then v else 2 * Shl(v, k - 1)
  }

  // v >> k
  function Shr(v: nat, k: nat): nat
    decreases k
  {
    if k == 0 then v else Shr(v / 2, k - 1)
  }

  // v & ((1 << k) - 1)
  function Low(v: nat, k: nat): nat
    decreases k
  {
    if k == 0 then 0 else v % 2 + 2 * Low(v / 2, k - 1)
  }

  lemma {:induction false} OrZero(a: nat)
    ensures Or(a, 0) == a && Or(0, a) == a
  {
    if a > 0 {
      OrZero(a / 2);
    }
  }

  lemma {:induction false} OrCommutes(a: nat, b: nat)
    ensures Or(a, b) == Or(b, a)
  {
    if a != 0 || b != 0 {
      OrCommutes(a / 2, b / 2);
    }
  }

  lemma Halves(v: nat, q: nat, r: nat)
    requires v == r + 2 * q && r < 2
    ensures v / 2 == q && v % 2 == r
  {}

  lemma OrUnfold(a: nat, b: nat)
    ensures Or(a, b) == Digit(a % 2 == 1 || b % 2 == 1) + 2 * Or(a / 2, b / 2)
  {}

  lemma OrHalf(a: nat, b: nat)
    ensures Or(a, b) / 2 == Or(a / 2, b / 2) && Or(a, b) % 2 == Digit(a % 2 == 1 || b % 2 == 1)
  {
    hide Or;
    OrUnfold(a, b);
    Halves(Or(a, b), Or(a / 2, b / 2), Digit(a % 2 == 1 || b % 2 == 1));
  }

  // OR works separately on the upper and the lower bits.
  lemma {:induction false} OrParts(a: nat, b: nat, k: nat)
    ensures Shr(Or(a, b), k) == Or(Shr(a, k), Shr(b, k))
    ensures Low(Or(a, b), k) == Or(Low(a, k), Low(b, k))
    decreases k
  {
    if k == 0 {
      OrZero(0);
    } else {
      hide Or;
      OrParts(a / 2, b / 2, k - 1);
      OrHalf(a, b);
      LowUnfold(a, k);
      LowUnfold(b, k);
      OrUnfold(Low(a, k), Low(b, k));
    }
  }

  lemma LowUnfold(v: nat, k: nat)
    requires k > 0
    ensures Low(v, k) % 2 == v % 2 && Low(v, k) / 2 == Low(v / 2, k - 1)
  {
    Halves(Low(v, k), Low(v / 2, k - 1), v % 2);
  }

  // Fields that do not overlap: OR is addition.
  lemma {:induction false} OrIsSum(a: nat, b: nat, k: nat)
    requires b < Pow2(k)
    ensures Or(Shl(a, k), b) == Shl(a, k) + b
    decreases k
  {
    if k == 0 {
      OrZero(a);
    } else {
      OrIsSum(a, b / 2, k - 1);
    }
  }

  lemma {:induction false} Recompose(v: nat, k: nat)
    ensures Shl(Shr(v, k), k) + Low(v, k) == v
    ensures Low(v, k) < Pow2(k)
    decreases k
  {
    if k > 0 {
      Recompose(v / 2, k - 1);
    }
  }

  lemma ShlConstants(a: nat)
    ensures Shl(a, 2) == 4 * a && Shl(a, 6) == 0x40 * a && Shl(a, 7) == 0x80 * a
    ensures Pow2(2) == 4 && Pow2(6) == 0x40 && Pow2(7) == 0x80
  {
    assert Shl(a, 1) == 2 * a && Pow2(1) == 2;
    assert Shl(a, 2) == 4 * a && Pow2(2) == 4;
    assert Shl(a, 3) == 8 * a && Pow2(3) == 8;
    assert Shl(a, 4) == 16 * a && Pow2(4) == 16;
    assert Shl(a, 5) == 32 * a && Pow2(5) == 32;
    assert Shl(a, 6) == 64 * a && Pow2(6) == 64;
  }

  // The sizes of the words and fields in use.
  lemma Powers()
    ensures Pow2(5) == 0x20 && Pow2(8) == 0x100 && Pow2(11) == 0x800 && Pow2(15) == 0x8000 && Pow2(16) == 0x1_0000
    ensures Pow2(17) == 0x2_0000 && Pow2(27) == 0x800_0000 && Pow2(32) == 0x1_0000_0000
  {
    ShlConstants(0);
    assert Pow2(5) == 0x20 && Pow2(8) == 0x100 && Pow2(9) == 0x200 && Pow2(10) == 0x400 && Pow2(11) == 0x800;
    assert Pow2(12) == 0x1000 && Pow2(13) == 0x2000 && Pow2(14) == 0x4000 && Pow2(15) == 0x8000 && Pow2(16) == 0x1_0000;
    assert Pow2(17) == 0x2_0000 && Pow2(18) == 0x4_0000 && Pow2(19) == 0x8_0000 && Pow2(20) == 0x10_0000;
    assert Pow2(21) == 0x20_0000 && Pow2(22) == 0x40_0000 && Pow2(23) == 0x80_0000 && Pow2(24) == 0x100_0000;
    assert Pow2(25) == 0x200_0000 && Pow2(26) == 0x400_0000 && Pow2(27) == 0x800_0000 && Pow2(28) == 0x1000_0000;
    assert Pow2(29) == 0x2000_0000 && Pow2(30) == 0x4000_0000 && Pow2(31) == 0x8000_0000;
  }

  lemma {:induction false} ShlIsProduct(a: nat, k: nat)
    ensures Shl(a, k) == a * Pow2(k)
    decreases k
  {
    if k > 0 {
      ShlIsProduct(a, k - 1);
    }
  }

  // For the widths the packets and registers use, shifts and masks are division and remainder.
  lemma ShiftsAreDivisions(v: nat)
    ensures Shr(v, 2) == v / 4 && Low(v, 2) == v % 4
    ensures Shr(v, 6) == v / 0x40 && Low(v, 6) == v % 0x40
    ensures Shr(v, 7) == v / 0x80 && Low(v, 7) == v % 0x80
  {
    hide Shl, Shr, Low, Pow2;
    Recompose(v, 2);
    Recompose(v, 6);
    Recompose(v, 7);
    ShlConstants(Shr(v, 2));
    ShlConstants(Shr(v, 6));
    ShlConstants(Shr(v, 7));
  }

  lemma AndUnfold(a: nat, b: nat)
    ensures And(a, b) == Digit(a % 2 == 1 && b % 2 == 1) + 2 * And(a / 2, b / 2)
  {}

  // AND with a mask of k bits sees only the lower k bits.
  lemma {:induction false} AndLow(v: nat, mask: nat, k: nat)
    requires mask < Pow2(k)
    ensures And(v, mask) == And(Low(v, k), mask)
    decreases k
  {
    if k == 0 {
      AndZero(v);
    } else {
      hide And;
      AndUnfold(v, mask);
      AndUnfold(Low(v, k), mask);
      LowUnfold(v, k);
      AndLow(v / 2, mask / 2, k - 1);
    }
  }

  lemma AndNotUnfold(a: nat, b: nat)
    ensures AndNot(a, b) == Digit(a % 2 == 1 && b % 2 == 0) + 2 * AndNot(a / 2, b / 2)
  {}

  // Clearing all the bits of a word of n bits.
  lemma {:induction false} AndNotAll(v: nat, n: nat)
    requires v < Pow2(n)
    ensures AndNot(v, Pow2(n) - 1) == 0
    decreases n
  {
    if n > 0 {
      hide AndNot;
      AndNotUnfold(v, Pow2(n) - 1);
      AndNotAll(v / 2, n - 1);
    } else {
      assert v == 0;
    }
  }

  // Clearing the upper n bits of a word of n + k bits keeps the lower k bits.
  lemma {:induction false} AndNotUpper(v: nat, n: nat, k: nat)
    requires v < Pow2(n + k)
    ensures AndNot(v, Shl(Pow2(n) - 1, k)) == Low(v, k)
    decreases k
  {
    if k == 0 {
      AndNotAll(v, n);
    } else {
      hide AndNot;
      AndNotUnfold(v, Shl(Pow2(n) - 1, k));
      AndNotUpper(v / 2, n, k - 1);
    }
  }

  // Clearing the lower k bits keeps the upper ones.
  lemma {:induction false} AndNotLower(v: nat, k: nat)
    ensures AndNot(v, Pow2(k) - 1) == v - Low(v, k)
    decreases k
  {
    if k == 0 {
      AndNotZero(v);
    } else {
      hide AndNot;
      AndNotUnfold(v, Pow2(k) - 1);
      AndNotLower(v / 2, k - 1);
    }
  }

  lemma {:induction false} AndNotZero(v: nat)
    ensures AndNot(v, 0) == v
  {
    if v > 0 {
      AndNotZero(v / 2);
    }
  }

  // Replacing the bits under a mask: `v &= ~mask; v |= field` for a field inside the mask.
  lemma FieldSet(v: nat, mask: nat, field: nat)
    requires forall i: nat :: Bit(field, i) ==> Bit(mask, i)
    ensures And(Or(AndNot(v, mask), field), mask) == field
    ensures AndNot(Or(AndNot(v, mask), field), mask) == AndNot(v, mask)
  {
    var r := Or(AndNot(v, mask), field);
    forall i: nat
      ensures Bit(And(r, mask), i) == Bit(field, i)
      ensures Bit(AndNot(r, mask), i) == Bit(AndNot(v, mask), i)
    {
      hide Bit, And, Or, AndNot;
      AndNotBit(v, mask, i);
      OrBit(AndNot(v, mask), field, i);
      AndBit(r, mask, i);
      AndNotBit(r, mask, i);
    }
    hide Bit, And, Or, AndNot;
    SameBits(And(r, mask), field);
    SameBits(AndNot(r, mask), AndNot(v, mask));
  }

  // Clearing a mask and setting it again is setting it; setting it and clearing it again is clearing it.
  lemma ClearAndSet(v: nat, mask: nat)
    ensures Or(AndNot(v, mask), mask) == Or(v, mask)
    ensures AndNot(Or(v, mask), mask) == AndNot(v, mask) == AndNot(AndNot(v, mask), mask)
  {
    forall i: nat
      ensures Bit(Or(AndNot(v, mask), mask), i) == Bit(Or(v, mask), i)
      ensures Bit(AndNot(Or(v, mask), mask), i) == Bit(AndNot(v, mask), i) == Bit(AndNot(AndNot(v, mask), mask), i)
    {
      hide Bit, Or, AndNot;
      AndNotBit(v, mask, i);
      OrBit(v, mask, i);
      OrBit(AndNot(v, mask), mask, i);
      AndNotBit(Or(v, mask), mask, i);
      AndNotBit(AndNot(v, mask), mask, i);
    }
    hide Bit, Or, AndNot;
    SameBits(Or(AndNot(v, mask), mask), Or(v, mask));
    SameBits(AndNot(Or(v, mask), mask), AndNot(v, mask));
    SameBits(AndNot(AndNot(v, mask), mask), AndNot(v, mask));
  }

  // Words that agree outside a mask agree outside a wider one.
  lemma WiderMask(v: nat, w: nat, mask: nat, wider: nat)
    requires AndNot(v, mask) == AndNot(w, mask) && forall i: nat :: Bit(mask, i) ==> Bit(wider, i)
    ensures AndNot(v, wider) == AndNot(w, wider)
  {
    hide Bit, AndNot;
    forall i: nat
      ensures Bit(AndNot(v, wider), i) == Bit(AndNot(w, wider), i)
    {
      AndNotBit(v, mask, i);
      AndNotBit(w, mask, i);
      AndNotBit(v, wider, i);
      AndNotBit(w, wider, i);
    }
    SameBits(AndNot(v, wider), AndNot(w, wider));
  }

  // Setting or clearing bits outside a mask does not disturb what the mask selects.
  lemma MaskUndisturbed(v: nat, mask: nat, other: nat)
    requires forall i: nat :: Bit(mask, i) ==> !Bit(other, i)
    ensures And(Or(v, other), mask) == And(v, mask) == And(AndNot(v, other), mask)
  {
    forall i: nat
      ensures Bit(And(Or(v, other), mask), i) == Bit(And(v, mask), i) == Bit(And(AndNot(v, other), mask), i)
    {
      hide Bit, And, Or, AndNot;
      OrBit(v, other, i);
      AndNotBit(v, other, i);
      AndBit(v, mask, i);
      AndBit(Or(v, other), mask, i);
      AndBit(AndNot(v, other), mask, i);
    }
    hide Bit, And, Or, AndNot;
    SameBits(And(Or(v, other), mask), And(v, mask));
    SameBits(And(AndNot(v, other), mask), And(v, mask));
  }

  lemma ClearedIsClear(v: nat, mask: nat)
    ensures And(AndNot(v, mask), mask) == 0
  {
    forall i: nat
      ensures Bit(And(AndNot(v, mask), mask), i) == Bit(0, i)
    {
      hide Bit, And, AndNot;
      AndBit(AndNot(v, mask), mask, i);
      AndNotBit(v, mask, i);
      ZeroBit(i);
    }
    hide Bit, And, AndNot;
    SameBits(And(AndNot(v, mask), mask), 0);
  }

  // ---- Exclusive or as addition without carries ----

  lemma {:induction false} XorZero(a: nat)
    ensures Xor(a, 0) == a == Xor(0, a) && Xor(a, a) == 0
  {
    if a > 0 {
      XorZero(a / 2);
    }
  }

  lemma {:induction false} XorCommutes(a: nat, b: nat)
    ensures Xor(a, b) == Xor(b, a)
  {
    if a != 0 || b != 0 {
      XorCommutes(a / 2, b / 2);
    }
  }

  lemma XorAssociates(a: nat, b: nat, c: nat)
    ensures Xor(Xor(a, b), c) == Xor(a, Xor(b, c))
  {
    hide Bit, Xor;
    forall i: nat
      ensures Bit(Xor(Xor(a, b), c), i) == Bit(Xor(a, Xor(b, c)), i)
    {
      XorBit(a, b, i);
      XorBit(b, c, i);
      XorBit(Xor(a, b), c, i);
      XorBit(a, Xor(b, c), i);
    }
    SameBits(Xor(Xor(a, b), c), Xor(a, Xor(b, c)));
  }

  // Pairs swap their second members.
  lemma XorSwap(a: nat, b: nat, c: nat, d: nat)
    ensures Xor(Xor(a, b), Xor(c, d)) == Xor(Xor(a, c), Xor(b, d))
  {
    hide Xor;
    XorAssociates(a, b, Xor(c, d));
    XorAssociates(b, c, d);
    XorCommutes(b, c);
    XorAssociates(c, b, d);
    XorAssociates(a, c, Xor(b, d));
  }

  lemma XorCancels(a: nat, b: nat)
    ensures Xor(Xor(a, b), b) == a
  {
    hide Xor;
    XorAssociates(a, b, b);
    XorZero(a);
    XorZero(b);
  }

  lemma {:induction false} ShlXor(a: nat, b: nat, k: nat)
    ensures Shl(Xor(a, b), k) == Xor(Shl(a, k), Shl(b, k))
    decreases k
  {
    if k > 0 {
      ShlXor(a, b, k - 1);
      XorDouble(Shl(a, k - 1), Shl(b, k - 1));
    }
  }

  lemma XorDouble(a: nat, b: nat)
    ensures Xor(2 * a, 2 * b) == 2 * Xor(a, b)
  {}

  lemma {:induction false} ShlShl(a: nat, j: nat, k: nat)
    ensures Shl(Shl(a, j), k) == Shl(a, j + k)
    decreases k
  {
    if k > 0 {
      ShlShl(a, j, k - 1);
    }
  }

  // Numbers that share no bits: exclusive or is addition.
  lemma {:induction false} XorIsSum(a: nat, b: nat, k: nat)
    requires b < Pow2(k)
    ensures Xor(Shl(a, k), b) == Shl(a, k) + b
    decreases k
  {
    if k == 0 {
      XorZero(a);
    } else {
      XorIsSum(a, b / 2, k - 1);
    }
  }

  // The higher of two numbers keeps its top bits.
  lemma {:induction false} XorHigh(a: nat, b: nat, n: nat)
    requires a < Pow2(n) <= b
    ensures Xor(a, b) >= Pow2(n)
    decreases n
  {
    if n > 0 {
      XorHigh(a / 2, b / 2, n - 1);
    } else {
      XorZero(b);
    }
  }
}
