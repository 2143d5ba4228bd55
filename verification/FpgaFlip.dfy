/** The bit flip on the way to the FPGA's programming port: each byte becomes a 16-bit word with its bits on the pins
    they are wired to, in the same buffer. */
module FpgaFlip {
  import opened BitOps

  // `(r & (1 << from)) ? (1 << to) : 0`, added to w
  function Route(w: nat, r: nat, to: nat, from: nat): (u: nat)
    ensures u == Or(w, if And(r, Pow2(from)) != 0 then Pow2(to) else 0)
  {
    Or(w, if And(r, Pow2(from)) != 0 then Pow2(to) else 0)
  }

  lemma RouteBit(w: nat, r: nat, to: nat, from: nat, i: nat)
    ensures Bit(Route(w, r, to, from), i) <==> Bit(w, i) || (i == to && Bit(r, from))
  {
    hide Bit, Or, And, Pow2;
    TestReadsBit(r, from);
    OrBit(w, if And(r, Pow2(from)) != 0 then Pow2(to) else 0, i);
    Pow2Bit(to, i);
    ZeroBit(i);
  }

  // The word's bit that carries bit f of the byte.
  function Pin(f: nat): (p: nat)
    requires f < 8
    ensures p < 16
  {
    match f case 0 => 7 case 1 => 15 case 2 => 6 case 3 => 2 case 4 => 1 case 5 => 3 case 6 => 9 case 7 => 11
  }

  function RouteFirst(r: nat, n: nat): (w: nat)
    requires n <= 8
  {
    if n == 0 then 0 else Route(RouteFirst(r, n - 1), r, Pin(n - 1), n - 1)
  }

  lemma {:induction false} RouteFirstBits(r: nat, n: nat, i: nat)
    requires n <= 8
    ensures Bit(RouteFirst(r, n), i) <==> exists f: nat :: f < n && i == Pin(f) && Bit(r, f)
    decreases n
  {
    hide Route;
    if n == 0 {
      ZeroBit(i);
    } else {
      RouteFirstBits(r, n - 1, i);
      RouteBit(RouteFirst(r, n - 1), r, Pin(n - 1), n - 1, i);
    }
  }

  lemma {:induction false} RouteFirstBound(r: nat, n: nat)
    requires n <= 8
    ensures RouteFirst(r, n) < Pow2(16)
    decreases n
  {
    if n == 0 {
    } else {
      hide Or, And, Pow2;
      RouteFirstBound(r, n - 1);
      PowBelow(Pin(n - 1), 16);
      OrBound(RouteFirst(r, n - 1), if And(r, Pow2(n - 1)) != 0 then Pow2(Pin(n - 1)) else 0, 16);
    }
  }

  lemma {:induction false} PowBelow(m: nat, n: nat)
    requires m < n
    ensures Pow2(m) < Pow2(n)
    decreases n
  {
    if m < n - 1 {
      PowBelow(m, n - 1);
    }
  }

  // A byte with its bits on their pins.
  function Flipped(b: Byte): (w: Uint16) {
    Powers();
    RouteFirstBound(b, 8);
    RouteFirst(b, 8)
  }

  // The inverse: bit f is read from its pin.
  function CollectFirst(w: nat, n: nat): (r: nat)
    requires n <= 8
  {
    if n == 0 then 0 else Route(CollectFirst(w, n - 1), w, n - 1, Pin(n - 1))
  }

  lemma {:induction false} CollectFirstBits(w: nat, n: nat, i: nat)
    requires n <= 8
    ensures Bit(CollectFirst(w, n), i) <==> i < n && Bit(w, Pin(i))
    decreases n
  {
    hide Route, Bit;
    if n == 0 {
      ZeroBit(i);
    } else {
      CollectFirstBits(w, n - 1, i);
      RouteBit(CollectFirst(w, n - 1), w, n - 1, Pin(n - 1), i);
    }
  }

  // Pins are distinct, so a byte can be read back from its word.
  lemma FlippedBack(b: Byte)
    ensures CollectFirst(Flipped(b), 8) == b
  {
    hide Bit, RouteFirst, CollectFirst, Pow2;
    forall i: nat
      ensures Bit(CollectFirst(Flipped(b), 8), i) == Bit(b, i)
    {
      CollectFirstBits(Flipped(b), 8, i);
      if i < 8 {
        RouteFirstBits(b, 8, Pin(i));
      } else {
        Powers();
        NoHighBits(b, 8, i);
      }
    }
    SameBits(CollectFirst(Flipped(b), 8), b);
  }

  // A pin that carries a bit carries nothing else, and the other pins are 0.
  lemma FlippedPins(b: Byte, p: nat)
    ensures (exists f: nat :: f < 8 && Pin(f) == p) || !Bit(Flipped(b), p)
    ensures forall f: nat :: f < 8 && Pin(f) == p ==> Bit(Flipped(b), p) == Bit(b, f)
  {
    hide Bit, RouteFirst;
    RouteFirstBits(b, 8, p);
  }

  // NuandFpgaConfigSwInit
  method FpgaConfigSwInit(glFlipLut: array<Uint16>)
    requires glFlipLut.Length == 0x100
    modifies glFlipLut
    ensures forall i: nat :: i < 0x100 ==> glFlipLut[i] == Flipped(i)
  {
    hide Route;
    var i := 0;
    while i < 0x100
      invariant i <= 0x100
      invariant forall k: nat :: k < i ==> glFlipLut[k] == Flipped(k)
      decreases 0x100 - i
    {
      var tmpr: nat := i;
      var tmpw: nat := 0;
      tmpw := Route(tmpw, tmpr, 7, 0);
      tmpw := Route(tmpw, tmpr, 15, 1);
      tmpw := Route(tmpw, tmpr, 6, 2);
      tmpw := Route(tmpw, tmpr, 2, 3);
      tmpw := Route(tmpw, tmpr, 1, 4);
      tmpw := Route(tmpw, tmpr, 3, 5);
      tmpw := Route(tmpw, tmpr, 9, 6);
      tmpw := Route(tmpw, tmpr, 11, 7);
      Unrolled(tmpr);
      glFlipLut[i] := tmpw;
      i := i + 1;
    }
  }

  lemma Unrolled(r: Byte)
    ensures Flipped(r) == Route(Route(Route(Route(Route(Route(Route(Route(0, r, 7, 0), r, 15, 1), r, 6, 2), r, 2, 3),
                                                        r, 1, 4), r, 3, 5), r, 9, 6), r, 11, 7)
  {
    hide Route;
    assert RouteFirst(r, 1) == Route(0, r, 7, 0);
    assert RouteFirst(r, 2) == Route(RouteFirst(r, 1), r, 15, 1);
    assert RouteFirst(r, 3) == Route(RouteFirst(r, 2), r, 6, 2);
    assert RouteFirst(r, 4) == Route(RouteFirst(r, 3), r, 2, 3);
    assert RouteFirst(r, 5) == Route(RouteFirst(r, 4), r, 1, 4);
    assert RouteFirst(r, 6) == Route(RouteFirst(r, 5), r, 3, 5);
    assert RouteFirst(r, 7) == Route(RouteFirst(r, 6), r, 9, 6);
  }

  // ---- In the same buffer ----

  // Little-endian words.
  function WordAt(s: seq<Byte>, i: nat): (w: Uint16)
    requires 2 * i + 1 < |s|
  {
    s[2 * i] as int + s[2 * i + 1] as int * 0x100
  }

  lemma TwoBytes(w: Uint16)
    ensures w / 0x100 < 0x100 && w % 0x100 + w / 0x100 * 0x100 == w as int
  {}

  // Each byte of the first `count` becomes a word, from the end backwards, so that no byte is overwritten before it is
  // read. The rest of the buffer stays.
  method Expand(buffer: array<Byte>, count: nat, glFlipLut: array<Uint16>)
    requires 2 * count <= buffer.Length && glFlipLut.Length == 0x100
    modifies buffer
    ensures forall i: nat :: i < count ==> WordAt(buffer[..], i) == glFlipLut[old(buffer[i])]
    ensures forall k: nat :: 2 * count <= k < buffer.Length ==> buffer[k] == old(buffer[k])
  {
    var i := count;
    while i > 0
      invariant i <= count
      invariant forall k: nat :: k < 2 * i ==> buffer[k] == old(buffer[k])
      invariant forall k: nat :: i <= k < count ==> WordAt(buffer[..], k) == glFlipLut[old(buffer[k])]
      invariant forall k: nat :: 2 * count <= k < buffer.Length ==> buffer[k] == old(buffer[k])
      decreases i
    {
      i := i - 1;
      var w := glFlipLut[buffer[i]];
      TwoBytes(w);
      buffer[2 * i], buffer[2 * i + 1] := w % 0x100, w / 0x100;
    }
  }

  // With the table in place, the original bytes can be read back from the expanded buffer.
  lemma OriginalsRecoverable(original: seq<Byte>, lut: seq<Uint16>, expanded: seq<Byte>)
    requires |lut| == 0x100 && forall i: nat :: i < 0x100 ==> lut[i] == Flipped(i)
    requires 2 * |original| <= |expanded|
    requires forall i: nat :: i < |original| ==> WordAt(expanded, i) == lut[original[i]]
    ensures forall i: nat :: i < |original| ==> CollectFirst(WordAt(expanded, i), 8) == original[i]
  {
    hide CollectFirst, WordAt, Flipped;
    forall i: nat | i < |original|
      ensures CollectFirst(WordAt(expanded, i), 8) == original[i]
    {
      FlippedBack(original[i]);
    }
  }
}
