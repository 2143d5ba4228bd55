/** LMS6002D PLL arithmetic: choosing the VCO and the divider for a frequency, splitting it into integer and fractional
    parts in units of the reference clock, and converting back to Hz. The newtypes carry the C widths, so every
    intermediate value is proved to fit where the C code puts it. */
module Tuning {
  import BitOps

  newtype uint8 = x: int | 0 <= x < 0x100
  newtype uint16 = x: int | 0 <= x < 0x1_0000
  newtype uint32 = x: int | 0 <= x < 0x1_0000_0000
  newtype uint64 = x: int | 0 <= x < 0x1_0000_0000_0000_0000

  const REFERENCE_HZ := 38400000
  const FREQUENCY_MIN := 237500000
  const FREQUENCY_MAX := 3800000000
  const BAND_HIGH := 1500000000

  const VCO4_LOW := 3800000000
  const VCO4_HIGH := 4535000000
  const VCO3_LOW := VCO4_HIGH
  const VCO3_HIGH := 5408000000
  const VCO2_LOW := VCO3_HIGH
  const VCO2_HIGH := 6480000000
  const VCO1_LOW := VCO2_HIGH
  const VCO1_HIGH := 7600000000

  const VCO4 := 4 * 8
  const VCO3 := 5 * 8
  const VCO2 := 6 * 8
  const VCO1 := 7 * 8
  const DIV2 := 4
  const DIV4 := 5
  const DIV8 := 6
  const DIV16 := 7

  const FLAG_LOW_BAND := 1
  const FLAG_FORCE_VCOCAP := 2

  datatype Band = Band(low: nat, high: nat, value: nat)

  function Bands(): (rows: seq<Band>)
    ensures |rows| == 16
  {
    [
    Band(FREQUENCY_MIN, VCO4_HIGH / 16, VCO4 + DIV16),
    Band(VCO3_LOW / 16, VCO3_HIGH / 16, VCO3 + DIV16),
    Band(VCO2_LOW / 16, VCO2_HIGH / 16, VCO2 + DIV16),
    Band(VCO1_LOW / 16, VCO1_HIGH / 16, VCO1 + DIV16),
    Band(VCO4_LOW / 8, VCO4_HIGH / 8, VCO4 + DIV8),
    Band(VCO3_LOW / 8, VCO3_HIGH / 8, VCO3 + DIV8),
    Band(VCO2_LOW / 8, VCO2_HIGH / 8, VCO2 + DIV8),
    Band(VCO1_LOW / 8, VCO1_HIGH / 8, VCO1 + DIV8),
    Band(VCO4_LOW / 4, VCO4_HIGH / 4, VCO4 + DIV4),
    Band(VCO3_LOW / 4, VCO3_HIGH / 4, VCO3 + DIV4),
    Band(VCO2_LOW / 4, VCO2_HIGH / 4, VCO2 + DIV4),
    Band(VCO1_LOW / 4, VCO1_HIGH / 4, VCO1 + DIV4),
    Band(VCO4_LOW / 2, VCO4_HIGH / 2, VCO4 + DIV2),
    Band(VCO3_LOW / 2, VCO3_HIGH / 2, VCO3 + DIV2),
    Band(VCO2_LOW / 2, VCO2_HIGH / 2, VCO2 + DIV2),
    Band(VCO1_LOW / 2, FREQUENCY_MAX, VCO1 + DIV2)]
  }

  // ---- What the tuning parameters must be ----

  function Clamp(freq: nat): nat {
    if freq < FREQUENCY_MIN then FREQUENCY_MIN else if freq > FREQUENCY_MAX then FREQUENCY_MAX else freq
  }

  predicate InBand(b: Band, freq: nat) {
    b.low <= freq <= b.high
  }

  // The low and high ends of the VCO that a frequency-select value names by its upper bits.
  function VcoLow(freqsel: nat): nat {
    match freqsel / 8 case 4 => 3800000000 case 5 => 4535000000 case 6 => 5408000000 case _ => 6480000000
  }

  function VcoHigh(freqsel: nat): nat {
    match freqsel / 8 case 4 => 4535000000 case 5 => 5408000000 case 6 => 6480000000 case _ => 7600000000
  }

  // `1 << ((freqsel & 7) - 3)`
  function Divider(freqsel: nat): nat {
    match freqsel % 8 case 3 => 1 case 4 => 2 case 5 => 4 case 6 => 8 case 7 => 16 case _ => 0
  }

  lemma DividerIsShift(freqsel: nat)
    requires freqsel % 8 >= 3
    ensures Divider(freqsel) == BitOps.Shl(1, freqsel % 8 - 3)
  {
    assert BitOps.Pow2(1) == 2 && BitOps.Pow2(2) == 4 && BitOps.Pow2(3) == 8 && BitOps.Pow2(4) == 16;
  }

  // In each row the divided frequency spans exactly the range of the VCO that the row names.
  lemma RowVco(i: nat)
    requires i < 16
    ensures var b := Bands()[i];
            && b.low < b.high < 0x1_0000_0000
            && Divider(b.value) in {2, 4, 8, 16} && b.value < 64
            && Divider(b.value) * b.low == VcoLow(b.value) && Divider(b.value) * b.high == VcoHigh(b.value)
  {
    assert i == 0 || i == 1 || i == 2 || i == 3 || i == 4 || i == 5 || i == 6 || i == 7
        || i == 8 || i == 9 || i == 10 || i == 11 || i == 12 || i == 13 || i == 14 || i == 15;
  }

  // The rows cover the whole range without gaps; the first eight are those with divider 16 or 8, the next four those
  // with divider 4.
  lemma RowChain(i: nat)
    requires i < 16
    ensures Bands()[0].low == FREQUENCY_MIN && Bands()[7].high == 950000000 && Bands()[16 - 1].high == FREQUENCY_MAX
    ensures i + 1 < 16 ==> Bands()[i + 1].low == Bands()[i].high
    ensures i < 8 <==> Bands()[i].high <= 950000000
    ensures i < 8 <==> Divider(Bands()[i].value) >= 8
    ensures Bands()[11].high == 1900000000
    ensures i < 12 <==> Bands()[i].high <= 1900000000
    ensures i < 12 <==> Divider(Bands()[i].value) >= 4
  {
    assert i == 0 || i == 1 || i == 2 || i == 3 || i == 4 || i == 5 || i == 6 || i == 7
        || i == 8 || i == 9 || i == 10 || i == 11 || i == 12 || i == 13 || i == 14 || i == 15;
  }

  // The first row, from row i on, whose range contains the frequency. That there is one means the source's
  // "failed to find frequency band" branch is never taken.
  function RowFrom(freq: nat, i: nat): (r: nat)
    requires i < 16 && Bands()[i].low <= freq <= FREQUENCY_MAX
    ensures i <= r < 16 && InBand(Bands()[r], freq)
    ensures forall j :: i <= j < r ==> !InBand(Bands()[j], freq)
    decreases 16 - i
  {
    RowChain(i);
    if InBand(Bands()[i], freq) then i else RowFrom(freq, i + 1)
  }

  function RowFor(freq: nat): (r: nat)
    requires FREQUENCY_MIN <= freq <= FREQUENCY_MAX
    ensures r < 16 && InBand(Bands()[r], freq)
    ensures forall j :: 0 <= j < r ==> !InBand(Bands()[j], freq)
  {
    RowChain(0);
    RowFrom(freq, 0)
  }

  datatype Params = Params(freqsel: nat, x: nat, nint: nat, nfrac: nat, lowBand: bool)

  // The fractional part in units of 2^-23 of the reference clock, rounded to nearest.
  function Fraction(rem: nat): nat {
    (0x80_0000 * rem + REFERENCE_HZ / 2) / REFERENCE_HZ
  }

  // Splitting the VCO frequency into whole reference clocks and the fraction.
  function Split(freqsel: nat, f: nat): Params {
    var vco := Divider(freqsel) * f;
    Params(freqsel, Divider(freqsel), vco / REFERENCE_HZ, Fraction(vco % REFERENCE_HZ), f < 1500000000)
  }

  function ParamsFor(freq: nat): Params {
    Split(Bands()[RowFor(Clamp(freq))].value, Clamp(freq))
  }

  // The VCO frequency lies in the range of the selected VCO; dividers 16 and 8 serve everything up to 950 MHz, and
  // divider 2 serves everything above 1.9 GHz.
  lemma VcoInRange(freq: nat)
    ensures var p := ParamsFor(freq);
            && p.x in {2, 4, 8, 16} && p.x == Divider(p.freqsel) && p.freqsel < 64
            && VcoLow(p.freqsel) <= p.x * Clamp(freq) <= VcoHigh(p.freqsel)
            && (p.x >= 8 <==> Clamp(freq) <= 950000000)
            && (p.x == 2 <==> Clamp(freq) > 1900000000)
  {
    hide Bands, Divider, VcoLow, VcoHigh, RowFor;
    var f := Clamp(freq);
    var r := RowFor(f);
    RowVco(r);
    Monotone(Divider(Bands()[r].value), Bands()[r].low, f);
    Monotone(Divider(Bands()[r].value), f, Bands()[r].high);
    RowChain(r);
    RowChain(7);
    RowChain(11);
    if r >= 8 {
      CoveredBelow(f, 7);
    }
    if r >= 12 {
      CoveredBelow(f, 11);
    }
  }

  lemma Monotone(x: nat, a: nat, b: nat)
    requires a <= b
    ensures x * a <= x * b
  {}

  // A frequency inside none of the rows 0..n lies above them all.
  lemma {:induction false} CoveredBelow(f: nat, n: nat)
    requires n < 16 && FREQUENCY_MIN <= f
    requires forall j :: 0 <= j <= n ==> !InBand(Bands()[j], f)
    ensures f > Bands()[n].high
  {
    RowChain(n);
    if n > 0 {
      CoveredBelow(f, n - 1);
      RowChain(n - 1);
    }
  }

  lemma FractionError(rem: nat)
    requires rem < REFERENCE_HZ
    ensures -REFERENCE_HZ / 2 < 0x80_0000 * rem - REFERENCE_HZ * Fraction(rem) + 1
    ensures 0x80_0000 * rem - REFERENCE_HZ * Fraction(rem) <= REFERENCE_HZ / 2
    ensures Fraction(rem) <= 0x80_0000
    ensures Fraction(rem) == 0x80_0000 <==> rem >= REFERENCE_HZ - 2
  {}

  // The one case in which the fractional part is rounded up to a whole reference clock.
  predicate CarryLost(freq: nat) {
    Clamp(freq) > 1900000000 && Clamp(freq) % 19200000 == 19199999
  }

  // nint fits 9 bits; nfrac fits 23 bits except in that case, where it is 2^23.
  lemma FieldsInRange(freq: nat)
    ensures var p := ParamsFor(freq);
            && 98 <= p.nint <= 197
            && p.nfrac <= 0x80_0000
            && (p.nfrac == 0x80_0000 <==> CarryLost(freq))
  {
    VcoInRange(freq);
    hide Bands, Divider, RowFor, VcoLow, VcoHigh, Clamp, Fraction;
    var p := ParamsFor(freq);
    VcoSpan(p.freqsel);
    FractionError(p.x * Clamp(freq) % REFERENCE_HZ);
    NearTopOnlyForTwo(p.x, Clamp(freq));
    RemainderOfDouble(Clamp(freq));
  }

  lemma VcoSpan(freqsel: nat)
    ensures VCO4_LOW <= VcoLow(freqsel) && VcoHigh(freqsel) <= VCO1_HIGH
  {}

  // A multiple of 4 leaves a remainder that is a multiple of 4, and so never within 2 of the reference clock.
  lemma NearTopOnlyForTwo(x: nat, f: nat)
    requires x in {2, 4, 8, 16}
    ensures x * f % REFERENCE_HZ >= REFERENCE_HZ - 2 <==> x == 2 && 2 * f % REFERENCE_HZ == 38399998
  {
    var g := x / 2 * f;
    assert x * f == 2 * g;
    RemainderOfDouble(g);
    if x > 2 {
      var h := x / 4 * f;
      assert x * f == 4 * h;
      BitOps.RemainderIs(4 * h, REFERENCE_HZ, h / (REFERENCE_HZ / 4), 4 * (h % (REFERENCE_HZ / 4)));
    }
  }

  lemma RemainderOfDouble(g: nat)
    ensures 2 * g % REFERENCE_HZ == 2 * (g % (REFERENCE_HZ / 2))
  {
    BitOps.RemainderIs(2 * g, REFERENCE_HZ, g / (REFERENCE_HZ / 2), 2 * (g % (REFERENCE_HZ / 2)));
  }

  // ---- Back to Hz ----

  // Division rounded to nearest, ties upwards.
  function Rounded(n: nat, d: nat): nat
    requires d > 0
  {
    (n + d / 2) / d
  }

  // lms_frequency_to_hz; the cast at the end keeps the low 32 bits.
  function ToHz(x: nat, nint: nat, nfrac: nat): nat
    requires x > 0
  {
    var pllCoeff := nint * 0x80_0000 + nfrac;
    var div := x * 0x80_0000;
    Rounded(REFERENCE_HZ * pllCoeff, div) % 0x1_0000_0000
  }

  lemma RoundedIsClosest(n: nat, d: nat)
    requires d > 0
    ensures d * Rounded(n, d) <= n + d / 2 < d * Rounded(n, d) + d
  {}

  lemma LessFactor(d: nat, a: int, b: int)
    requires d > 0 && d * a < d * b
    ensures a < b
  {}

  // Dividing d*f + e, rounded to nearest: e within half of d is absorbed, within three halves costs at most 1.
  lemma RoundedQuotient(d: nat, f: nat, e: int)
    requires d > 0 && d % 2 == 0 && 0 <= d * f + e
    ensures 0 <= e + d / 2 < d <==> Rounded(d * f + e, d) == f
    ensures 0 <= e + d / 2 + d < 3 * d ==> f - 1 <= Rounded(d * f + e, d) <= f + 1
  {
    hide Rounded;
    var q := Rounded(d * f + e, d);
    RoundedIsClosest(d * f + e, d);
    assert d * (f + 1) == d * f + d && d * (f + 2) == d * f + 2 * d;
    assert d * (f - 1) == d * f - d && d * (q + 1) == d * q + d;
    if 0 <= e + d / 2 < d {
      LessFactor(d, q, f + 1);
      LessFactor(d, f, q + 1);
    }
    if 0 <= e + d / 2 + d < 3 * d {
      LessFactor(d, q, f + 2);
      LessFactor(d, f - 1, q + 1);
    }
  }

  // The result is the frequency in Hz closest to the one the parameters stand for, if that fits 32 bits.
  lemma ToHzIsClosest(x: nat, nint: nat, nfrac: nat)
    requires x > 0
    requires REFERENCE_HZ * (nint * 0x80_0000 + nfrac) < x * 0x80_0000 * 0xFFFF_FFFF
    ensures var exact, unit := REFERENCE_HZ * (nint * 0x80_0000 + nfrac), x * 0x80_0000;
            unit * ToHz(x, nint, nfrac) <= exact + unit / 2 < unit * ToHz(x, nint, nfrac) + unit
  {
    var exact, unit := REFERENCE_HZ * (nint * 0x80_0000 + nfrac), x * 0x80_0000;
    hide Rounded;
    RoundedIsClosest(exact, unit);
    LessFactor(unit, Rounded(exact, unit), 0x1_0000_0000);
  }

  // Converting to tuning parameters and back gives the same frequency for dividers 16 and 8, and is within 1 Hz for
  // the others.
  lemma RoundTrip(freq: nat)
    ensures var p := ParamsFor(freq);
            && p.x > 0
            && Clamp(freq) - 1 <= ToHz(p.x, p.nint, p.nfrac) <= Clamp(freq) + 1
            && (Clamp(freq) <= 950000000 ==> ToHz(p.x, p.nint, p.nfrac) == Clamp(freq))
  {
    VcoInRange(freq);
    hide Bands, Divider, RowFor, VcoLow, VcoHigh, ToHz, Fraction;
    var p := ParamsFor(freq);
    RoundTripFor(p.x, Clamp(freq));
  }

  // The rounding of the fraction, in units of 2^-23 of the reference clock, is less than half a Hz after division by x.
  predicate Absorbed(x: nat, f: nat) {
    var rem := x * f % REFERENCE_HZ;
    var e := REFERENCE_HZ * Fraction(rem) - 0x80_0000 * rem;
    0 <= e + x * 0x40_0000 < x * 0x80_0000
  }

  // The round trip is exact if and only if the frequency is at most 950 MHz or that rounding is absorbed.
  lemma RoundTripExactIff(freq: nat)
    ensures var p, f := ParamsFor(freq), Clamp(freq);
            && p.x > 0
            && (ToHz(p.x, p.nint, p.nfrac) == f <==> f <= 950000000 || Absorbed(if f > 1900000000 then 2 else 4, f))
  {
    VcoInRange(freq);
    hide Bands, Divider, RowFor, VcoLow, VcoHigh, ToHz, Fraction, Absorbed;
    var p := ParamsFor(freq);
    RoundTripFor(p.x, Clamp(freq));
  }

  lemma RoundTripFor(x: nat, f: nat)
    requires x in {2, 4, 8, 16} && f <= FREQUENCY_MAX
    ensures var hz := ToHz(x, x * f / REFERENCE_HZ, Fraction(x * f % REFERENCE_HZ));
            f - 1 <= hz <= f + 1 && (x >= 8 ==> hz == f) && (hz == f <==> Absorbed(x, f))
  {
    hide Fraction, ToHz;
    var vco := x * f;
    FractionError(vco % REFERENCE_HZ);
    RoundTripOf(x, f, vco / REFERENCE_HZ, vco % REFERENCE_HZ, Fraction(vco % REFERENCE_HZ));
  }

  lemma RoundTripOf(x: nat, f: nat, nint: nat, rem: nat, frac: nat)
    requires x in {2, 4, 8, 16} && f <= FREQUENCY_MAX && REFERENCE_HZ * nint + rem == x * f
    requires -REFERENCE_HZ / 2 <= REFERENCE_HZ * frac - 0x80_0000 * rem <= REFERENCE_HZ / 2
    ensures var hz, e := ToHz(x, nint, frac), REFERENCE_HZ * frac - 0x80_0000 * rem;
            && f - 1 <= hz <= f + 1 && (x >= 8 ==> hz == f)
            && (hz == f <==> 0 <= e + x * 0x40_0000 < x * 0x80_0000)
  {
    hide Rounded;
    var d, e := x * 0x80_0000, REFERENCE_HZ * frac - 0x80_0000 * rem;
    Scaled(x, f, nint, rem, frac);
    ErrorIsSmall(x, e);
    RoundedQuotient(d, f, e);
    SmallRemainder(Rounded(d * f + e, d));
  }

  lemma SmallRemainder(n: nat)
    ensures n < 0x1_0000_0000 ==> n % 0x1_0000_0000 == n
  {}

  lemma Scaled(x: nat, f: nat, nint: nat, rem: nat, frac: nat)
    requires REFERENCE_HZ * nint + rem == x * f
    ensures REFERENCE_HZ * (nint * 0x80_0000 + frac) == x * 0x80_0000 * f + (REFERENCE_HZ * frac - 0x80_0000 * rem)
  {
    assert 0x80_0000 * (x * f) == x * 0x80_0000 * f;
  }

  lemma ErrorIsSmall(x: nat, e: int)
    requires x in {2, 4, 8, 16} && -REFERENCE_HZ / 2 <= e <= REFERENCE_HZ / 2
    ensures var d := x * 0x80_0000;
            d % 2 == 0 && d / 2 == x * 0x40_0000 && 0 <= e + d / 2 + d < 3 * d && (x >= 8 ==> 0 <= e + d / 2 < d)
  {}

  // The 1 Hz is really lost at some frequencies.
  lemma RoundTripCanMiss()
    ensures ToHz(4, 4 * 950000001 / REFERENCE_HZ, Fraction(4 * 950000001 % REFERENCE_HZ)) == 950000002
    ensures ParamsFor(950000001).x == 4
  {
    VcoInRange(950000001);
    hide Bands, Divider, RowFor, VcoLow, VcoHigh;
    assert Fraction(36800004) == 8039084;
    assert ToHz(4, 98, 8039084) == 950000002;
    hide ToHz, Fraction;
  }

  // ---- The computation ----

  // No intermediate value of the conversion to Hz exceeds its type.
  predicate FitsWidths(x: nat, nint: nat, nfrac: nat) {
    REFERENCE_HZ * (nint * 0x80_0000 + nfrac) + x * 0x40_0000 < 0x1_0000_0000_0000_0000
  }

  lemma FieldsFit(x: nat, nint: nat, nfrac: nat)
    requires x <= 0xff && nint <= 0x1ff && nfrac <= 0x80_0000
    ensures FitsWidths(x, nint, nfrac)
  {}

  // That is so for the parameters of every frequency.
  lemma ParamsFit(freq: nat)
    ensures var p := ParamsFor(freq);
            0 < p.x <= 0xff && p.nint <= 0xffff && p.nfrac <= 0xffff_ffff && FitsWidths(p.x, p.nint, p.nfrac)
  {
    VcoInRange(freq);
    FieldsInRange(freq);
    hide ParamsFor, CarryLost, VcoLow, VcoHigh, FitsWidths;
    var p := ParamsFor(freq);
    FieldsFit(p.x, p.nint, p.nfrac);
  }

  // lms_frequency_to_hz
  method FrequencyToHz(x: uint8, nint: uint16, nfrac: uint32) returns (hz: uint32)
    requires x > 0 && FitsWidths(x as int, nint as int, nfrac as int)
    ensures hz as int == ToHz(x as int, nint as int, nfrac as int)
  {
    hide FitsWidths, Rounded;
    WidthsOf(x as int, nint as int, nfrac as int);
    var pllCoeff: uint64 := nint as uint64 * 0x80_0000 + nfrac as uint64;
    var div: uint32 := x as uint32 * 0x80_0000;
    var sum: uint64 := REFERENCE_HZ as uint64 * pllCoeff + (div / 2) as uint64;
    RoundedSum(REFERENCE_HZ * pllCoeff as int, div as int);
    hz := (sum / div as uint64 % 0x1_0000_0000) as uint32;
  }

  lemma WidthsOf(x: nat, nint: nat, nfrac: nat)
    requires x <= 0xff && nint <= 0xffff && nfrac <= 0xffff_ffff && FitsWidths(x, nint, nfrac)
    ensures nint * 0x80_0000 + nfrac < 0x1_0000_0000_0000_0000 && x * 0x80_0000 < 0x1_0000_0000
    ensures x * 0x80_0000 / 2 == x * 0x40_0000
    ensures REFERENCE_HZ * (nint * 0x80_0000 + nfrac) + x * 0x40_0000 < 0x1_0000_0000_0000_0000
  {}

  lemma RoundedSum(n: nat, d: nat)
    requires d > 0
    ensures Rounded(n, d) == (n + d / 2) / d
  {}

  // struct lms_freq
  class LmsFreq {
    var freqsel: uint8
    var vcocap: uint8
    var nint: uint16
    var nfrac: uint32
    var flags: uint8
    var x: uint8
    var vcocapResult: uint8

    constructor () {
      freqsel, vcocap, nint, nfrac, flags, x, vcocapResult := 0, 0, 0, 0, 0, 0, 0;
    }

    ghost predicate Holds(p: Params)
      reads this
    {
      && freqsel as int == p.freqsel && x as int == p.x
      && nint as int == p.nint && nfrac as int == p.nfrac
      && flags as int == if p.lowBand then FLAG_LOW_BAND else 0
    }
  }

  const VCOCAP_MAX_VALUE := 0x3f
  const VCOCAP_EST_MIN := 15
  const VCOCAP_EST_MAX := 55

  // The whole number nearest to 15 + 40 * diff / span, where diff runs from 0 to span.
  predicate Nearest(vcocap: int, diff: int, span: int) {
    2 * (vcocap - 15) * span <= 80 * diff + span < 2 * (vcocap - 14) * span
  }

  lemma FloorIsNearest(diff: nat, span: nat, vcocap: int)
    requires span > 0 && vcocap == (40.0 / span as real * diff as real + 0.5 + 15.0).Floor
    ensures Nearest(vcocap, diff, span) && vcocap >= 15 && (diff <= span ==> vcocap <= 55)
  {
    var q, s, d := 40.0 / span as real, span as real, diff as real;
    assert q * s == 40.0;
    var x := q * d + 15.5;
    assert vcocap as real <= x < vcocap as real + 1.0;
    Scale(s, vcocap as real, x);
    Scale(s, x, vcocap as real + 1.0);
    assert s * x == 40.0 * d + 15.5 * s by {
      assert s * (q * d) == q * s * d;
    }
    assert (vcocap * span) as real == vcocap as real * s;
    assert 2 * vcocap * span <= 80 * diff + 31 * span < 2 * (vcocap * span) + 2 * span;
    NearestBounds(vcocap, diff, span);
  }

  lemma Scale(s: real, a: real, b: real)
    requires s > 0.0
    ensures a <= b ==> s * a <= s * b
    ensures a < b ==> s * a < s * b
  {}

  lemma NearestBounds(vcocap: int, diff: nat, span: nat)
    requires span > 0 && Nearest(vcocap, diff, span)
    ensures vcocap >= 15 && (diff <= span ==> vcocap <= 55)
  {}

  // Linear interpolation over the row, in exact arithmetic.
  function EstimateVcocap(f: nat, low: nat, high: nat): (vcocap: nat)
    requires low <= f && low < high
    ensures vcocap <= VCOCAP_MAX_VALUE
    ensures f <= high ==> VCOCAP_EST_MIN <= vcocap <= VCOCAP_EST_MAX && Nearest(vcocap, f - low, high - low)
  {
    hide Nearest;
    var num := (VCOCAP_EST_MAX - VCOCAP_EST_MIN) as real;
    var denom := (high - low) as real;
    var fDiff := (f - low) as real;
    Interpolation(num, denom, fDiff);
    var vcocap := (num / denom * fDiff + 0.5 + VCOCAP_EST_MIN as real).Floor;
    FloorIsNearest(f - low, high - low, vcocap);
    if vcocap > VCOCAP_MAX_VALUE then VCOCAP_MAX_VALUE else vcocap
  }

  lemma Interpolation(num: real, denom: real, diff: real)
    requires 0.0 <= num && 0.0 < denom && 0.0 <= diff
    ensures 0.0 <= num / denom * diff
    ensures diff <= denom ==> num / denom * diff <= num
  {
    if diff <= denom {
      assert num / denom * diff <= num / denom * denom;
    }
  }

  // The estimate for a frequency: where it lies within its row.
  function HintFor(freq: nat): (vcocap: nat)
    ensures VCOCAP_EST_MIN <= vcocap <= VCOCAP_EST_MAX
  {
    hide Nearest;
    var row := Bands()[RowFor(Clamp(freq))];
    RowVco(RowFor(Clamp(freq)));
    EstimateVcocap(Clamp(freq), row.low, row.high)
  }

  lemma NearestScaled(vcocap: int, diff: int, span: int, x: nat)
    requires x in {2, 4, 8, 16} && Nearest(vcocap, diff, span)
    ensures Nearest(vcocap, x * diff, x * span)
  {
    var lower, upper := (vcocap - 15) * span, (vcocap - 14) * span;
    assert 2 * lower <= 80 * diff + span < 2 * upper;
    assert (vcocap - 15) * (x * span) == x * lower && (vcocap - 14) * (x * span) == x * upper;
  }

  // The estimate is 15 at the low end of the selected VCO's range and 55 at the high end, and the nearest whole number
  // to the straight line between them.
  lemma HintIsNearest(freq: nat)
    ensures var p := ParamsFor(freq);
            Nearest(HintFor(freq), p.x * Clamp(freq) - VcoLow(p.freqsel), VcoHigh(p.freqsel) - VcoLow(p.freqsel))
  {
    hide Bands, Divider, VcoLow, VcoHigh, RowFor, Nearest, EstimateVcocap;
    var r, f := RowFor(Clamp(freq)), Clamp(freq);
    var b := Bands()[r];
    RowVco(r);
    var x := Divider(b.value);
    NearestScaled(HintFor(freq), f - b.low, b.high - b.low, x);
    assert x * (f - b.low) == x * f - x * b.low && x * (b.high - b.low) == x * b.high - x * b.low;
  }

  lemma Products(a: int, b: int, span: nat)
    ensures a <= b ==> a * span <= b * span
  {}

  // Two nearest numbers on the same line are in order, and the ends are exact.
  lemma NearestInOrder(v: int, d: int, w: int, e: int, span: nat)
    requires span > 0 && Nearest(v, d, span) && Nearest(w, e, span) && d <= e
    ensures v <= w
  {
    if w < v {
      Products(w - 14, v - 15, span);
      Squeezed((w - 14) * span, (v - 15) * span, d, e, span);
    }
  }

  lemma Squeezed(upper: int, lower: int, d: int, e: int, span: nat)
    requires upper <= lower && 2 * lower <= 80 * d + span && 80 * e + span < 2 * upper
    ensures e < d
  {}

  lemma NearestAtEnds(v: int, span: nat)
    requires span > 0
    ensures Nearest(v, 0, span) ==> v == 15
    ensures Nearest(v, span, span) ==> v == 55
  {
    Products(v - 15, -1, span);
    Products(1, v - 15, span);
    Products(v - 14, 40, span);
    Products(41, v - 15, span);
  }

  // So within the range of one VCO and one divider a higher frequency never gets a lower estimate.
  lemma HintInOrder(freq: nat, higher: nat)
    requires freq <= higher && ParamsFor(freq).freqsel == ParamsFor(higher).freqsel
    ensures HintFor(freq) <= HintFor(higher)
  {
    hide Bands, Divider, VcoLow, VcoHigh, RowFor, Nearest, HintFor;
    VcoInRange(freq);
    VcoInRange(higher);
    VcoSpans(ParamsFor(freq).freqsel);
    HintIsNearest(freq);
    HintIsNearest(higher);
    var p, q := ParamsFor(freq), ParamsFor(higher);
    var low, span := VcoLow(p.freqsel), VcoHigh(p.freqsel) - VcoLow(p.freqsel);
    Monotone(p.x, Clamp(freq), Clamp(higher));
    NearestInOrder(HintFor(freq), p.x * Clamp(freq) - low, HintFor(higher), q.x * Clamp(higher) - low, span);
  }

  lemma VcoSpans(freqsel: nat)
    ensures VcoLow(freqsel) < VcoHigh(freqsel)
  {}

  method CalculateTuningParams(freq: uint32, f: LmsFreq) returns (status: int)
    modifies f
    ensures status == 0
    ensures f.Holds(ParamsFor(freq as int))
    ensures f.vcocap as int == HintFor(freq as int)
  {
    hide Bands, RowFor, RowFrom, Divider, Fraction, EstimateVcocap, VcoLow, VcoHigh;
    var clamped := freq;
    if freq < FREQUENCY_MIN as uint32 {
      clamped := FREQUENCY_MIN as uint32;
    } else if freq > FREQUENCY_MAX as uint32 {
      clamped := FREQUENCY_MAX as uint32;
    }
    ghost var row := RowFor(clamped as int);
    var i: nat := 0;
    while i < 16
      invariant i <= row
      decreases 16 - i
    {
      if InBand(Bands()[i], clamped as int) {
        break;
      }
      i := i + 1;
    }
    assert i == row && InBand(Bands()[i], clamped as int);
    RowVco(i);
    VcoInRange(freq as int);
    VcoSpan(ParamsFor(freq as int).freqsel);
    SetFields(clamped, Bands()[i], f);
    status := 0;
  }

  method SetFields(freq: uint32, band: Band, f: LmsFreq)
    requires band.low < band.high < 0x1_0000_0000 && InBand(band, freq as int)
    requires band.value < 64 && Divider(band.value) in {2, 4, 8, 16}
    requires Divider(band.value) * freq as int <= VCO1_HIGH
    modifies f
    ensures f.Holds(Split(band.value, freq as int))
    ensures f.vcocap as int == EstimateVcocap(freq as int, band.low, band.high)
  {
    DividerIsShift(band.value);
    hide Divider, EstimateVcocap, BitOps.Shl;
    f.vcocap := EstimateVcocap(freq as int, band.low, band.high) as uint8;
    var refClock: uint64 := REFERENCE_HZ as uint64;
    var vcoX: uint64 := BitOps.Shl(1, band.value % 8 - 3) as uint64;
    var vco: uint64 := vcoX * (freq as uint64);
    var temp: uint64 := vco / refClock;
    assert temp <= 0xFFFF;
    var nint: uint16 := temp as uint16;
    temp := 0x80_0000 * (vco - (nint as uint64) * refClock);
    temp := (temp + refClock / 2) / refClock;
    assert temp <= 0xFFFF_FFFF;
    var nfrac: uint32 := temp as uint32;
    f.x := vcoX as uint8;
    f.nint := nint;
    f.nfrac := nfrac;
    f.freqsel := band.value as uint8;
    f.flags := 0;
    if freq < BAND_HIGH as uint32 {
      f.flags := FLAG_LOW_BAND as uint8;
    }
  }
}
