/** The 16-byte retune request sent from host to FPGA: packing, unpacking, and exactly which requests survive. */
module RetunePacket {
  import opened BitOps

  datatype Module = INVALID | RX | TX

  datatype Request = Request(
    mod: Module, timestamp: nat, nint: nat, nfrac: nat, freqsel: nat, vcocap: nat, lowBand: bool, quickTune: bool)

  // The widths of the C parameters.
  predicate Typed(p: Request) {
    && p.timestamp < 0x1_0000_0000_0000_0000 && p.nint < 0x1_0000 && p.nfrac < 0x1_0000_0000
    && p.freqsel < 0x100 && p.vcocap < 0x100
  }

  // The widths of the packet's fields.
  predicate Fits(p: Request) {
    p.nint < 0x200 && p.nfrac < 0x80_0000 && p.freqsel < 0x40 && p.vcocap < 0x40
  }

  const MAGIC := 0x54
  const FLAG_TX := 0x80
  const FLAG_RX := 0x40
  const FLAG_LOW_BAND := 0x80
  const FLAG_QUICK_TUNE := 0x40

  function ModuleFlag(m: Module): nat {
    match m case TX => FLAG_TX case RX => FLAG_RX case INVALID => 0
  }

  function BandFlags(lowBand: bool, quickTune: bool): nat {
    (if lowBand then FLAG_LOW_BAND else 0) + (if quickTune then FLAG_QUICK_TUNE else 0)
  }

  // ---- Flag bits share a byte with a 6-bit field ----

  lemma OrTwoBits(a: nat, b: nat)
    requires a < 4 && b < 4
    ensures Or(a, b) < 4
    ensures Or(a, b) / 2 == 1 <==> a / 2 == 1 || b / 2 == 1
    ensures Or(a, b) % 2 == 1 <==> a % 2 == 1 || b % 2 == 1
  {
    hide Or;
    OrZero(0);
    OrUnfold(a, b);
    OrUnfold(a / 2, b / 2);
    TwoBits(a);
    TwoBits(b);
    Halves(Or(a, b), Or(a / 2, b / 2), Digit(a % 2 == 1 || b % 2 == 1));
  }

  lemma TwoBits(a: nat)
    requires a < 4
    ensures a / 2 / 2 == 0 && a / 2 % 2 == a / 2
  {}

  lemma UpperTwoBits(v: nat)
    requires v < 0x100
    ensures v / 0x40 < 4 && v / 0x80 == v / 0x40 / 2
  {}

  // Flags set on top of a value leave its lower six bits alone and add themselves to its upper two.
  lemma OrFlags(v: nat, flags: nat)
    requires v < 0x100 && flags in {0, 0x40, 0x80, 0xC0}
    ensures Or(v, flags) < 0x100 && Or(flags, v) == Or(v, flags)
    ensures Or(v, flags) % 0x40 == v % 0x40
    ensures Or(v, flags) / 0x80 == 1 <==> v / 0x80 == 1 || flags / 0x80 == 1
    ensures Or(v, flags) / 0x40 % 2 == 1 <==> v / 0x40 % 2 == 1 || flags / 0x40 % 2 == 1
  {
    hide Or, Shr, Low;
    OrParts(v, flags, 6);
    ShiftsAreDivisions(v);
    ShiftsAreDivisions(flags);
    ShiftsAreDivisions(Or(v, flags));
    OrZero(v % 0x40);
    OrTwoBits(v / 0x40, flags / 0x40);
    OrCommutes(v, flags);
    UpperTwoBits(v);
    UpperTwoBits(flags);
    UpperTwoBits(Or(v, flags));
  }

  // ---- Little-endian numbers ----

  function Bytes(v: nat, n: nat): (b: seq<Byte>)
    ensures |b| == n
    decreases n
  {
    if n == 0 then [] else [v % 0x100] + Bytes(v / 0x100, n - 1)
  }

  function Number(b: seq<Byte>): nat {
    if b == [] then 0 else b[0] as int + 0x100 * Number(b[1..])
  }

  lemma {:induction false} NumberOfBytes(v: nat, n: nat)
    requires v < Pow2(8 * n)
    ensures Number(Bytes(v, n)) == v
    decreases n
  {
    if n > 0 {
      BytePower(n);
      NumberOfBytes(v / 0x100, n - 1);
    }
  }

  lemma FourDoublings(k: nat)
    ensures Pow2(k + 4) == 16 * Pow2(k)
  {
    assert Pow2(k + 1) == 2 * Pow2(k);
    assert Pow2(k + 2) == 2 * Pow2(k + 1);
    assert Pow2(k + 3) == 2 * Pow2(k + 2);
  }

  lemma EightDoublings(k: nat, m: nat)
    requires m == k + 8
    ensures Pow2(m) == 0x100 * Pow2(k)
  {
    hide Pow2;
    FourDoublings(k);
    FourDoublings(k + 4);
  }

  lemma BytePower(n: nat)
    requires n > 0
    ensures Pow2(8 * n) == 0x100 * Pow2(8 * (n - 1))
  {
    hide Pow2;
    EightDoublings(8 * (n - 1), 8 * n);
  }

  lemma LowByte(v: nat, low: nat, rest: nat)
    requires v == low + 0x100 * rest && low < 0x100
    ensures v % 0x100 == low && v / 0x100 == rest
  {}

  lemma {:induction false} BytesOfNumber(b: seq<Byte>)
    ensures Bytes(Number(b), |b|) == b
    ensures Number(b) < Pow2(8 * |b|)
    decreases |b|
  {
    if b != [] {
      BytesOfNumber(b[1..]);
      LowByte(Number(b), b[0], Number(b[1..]));
      BytePower(|b|);
      hide Number, Pow2;
      BytesStep(Number(b), |b|);
    }
  }

  lemma SixtyFourBits()
    ensures Pow2(64) == 0x1_0000_0000_0000_0000
  {
    BytePower(8);
    BytePower(7);
    BytePower(6);
    BytePower(5);
    BytePower(4);
    BytePower(3);
    BytePower(2);
    BytePower(1);
  }

  // ---- The packet ----

  // Bytes 9 to 15, after the magic byte and the timestamp.
  function EncodeTuning(p: Request): (b: seq<Byte>)
    requires Typed(p)
    ensures |b| == 7
  {
    OrFlags(p.freqsel, ModuleFlag(p.mod));
    OrFlags(p.vcocap, BandFlags(p.lowBand, p.quickTune));
    [ p.nint / 2 % 0x100,
      p.nint % 2 * 0x80 + p.nfrac / 0x1_0000 % 0x80,
      p.nfrac / 0x100 % 0x100,
      p.nfrac % 0x100,
      Or(p.freqsel, ModuleFlag(p.mod)),
      Or(p.vcocap, BandFlags(p.lowBand, p.quickTune)),
      0 ]
  }

  function Encode(p: Request): (b: seq<Byte>)
    requires Typed(p)
    ensures |b| == 16
  {
    ['T' as int] + Bytes(p.timestamp, 8) + EncodeTuning(p)
  }

  function DecodeModule(flags: Byte): Module {
    if flags / 0x80 == 1 then TX else if flags / 0x40 % 2 == 1 then RX else INVALID
  }

  function Nint(b0: nat, b1: nat): nat {
    2 * b0 + b1 / 0x80
  }

  function Nfrac(b1: nat, b2: nat, b3: nat): nat {
    b1 % 0x80 * 0x1_0000 + b2 * 0x100 + b3
  }

  function Decode(b: seq<Byte>): (p: Request)
    requires |b| == 16
    ensures Fits(p)
  {
    Request(
      DecodeModule(b[13]), Number(b[1..9]), Nint(b[9], b[10]), Nfrac(b[10], b[11], b[12]), b[13] % 0x40, b[14] % 0x40,
      b[14] / 0x80 == 1, b[14] / 0x40 % 2 == 1)
  }

  lemma LowBits(nfrac: nat)
    ensures nfrac / 0x1_0000 % 0x80 * 0x1_0000 + nfrac / 0x100 % 0x100 * 0x100 + nfrac % 0x100 == nfrac % 0x80_0000
  {
    var high, mid, low := nfrac / 0x100 / 0x100, nfrac / 0x100 % 0x100, nfrac % 0x100;
    TwoBytes(nfrac, high, mid * 0x100 + low);
    RemainderIs(nfrac, 0x80_0000, high / 0x80, high % 0x80 * 0x1_0000 + mid * 0x100 + low);
  }

  lemma TwoBytes(v: nat, q: nat, r: nat)
    requires v == 0x1_0000 * q + r && r < 0x1_0000
    ensures v / 0x1_0000 == q
  {}

  lemma TwoFields(bit: nat, rest: nat)
    requires bit < 2 && rest < 0x80
    ensures (bit * 0x80 + rest) / 0x80 == bit && (bit * 0x80 + rest) % 0x80 == rest
  {}

  lemma LowNine(nint: nat)
    ensures nint / 2 % 0x100 * 2 + nint % 2 == nint % 0x200
  {
    var high := nint / 2;
    RemainderIs(nint, 0x200, high / 0x100, high % 0x100 * 2 + nint % 2);
  }

  lemma SplitsBack(nint: nat, nfrac: nat)
    ensures Nint(nint / 2 % 0x100, nint % 2 * 0x80 + nfrac / 0x1_0000 % 0x80) == nint % 0x200
    ensures Nfrac(nint % 2 * 0x80 + nfrac / 0x1_0000 % 0x80, nfrac / 0x100 % 0x100, nfrac % 0x100) == nfrac % 0x80_0000
  {
    TwoFields(nint % 2, nfrac / 0x1_0000 % 0x80);
    LowBits(nfrac);
    LowNine(nint);
  }

  // What the flag bytes come back as.
  lemma FlagBytesSurvive(p: Request)
    requires Typed(p)
    ensures var b := EncodeTuning(p);
            && b[4] % 0x40 == p.freqsel % 0x40 && b[5] % 0x40 == p.vcocap % 0x40
            && DecodeModule(b[4]) == (if p.mod == TX || p.freqsel >= 0x80 then TX
                                      else if p.mod == RX || p.freqsel >= 0x40 then RX
                                      else INVALID)
            && (b[5] / 0x80 == 1 <==> p.lowBand || p.vcocap >= 0x80)
            && (b[5] / 0x40 % 2 == 1 <==> p.quickTune || p.vcocap / 0x40 % 2 == 1)
  {
    hide Or;
    OrFlags(p.freqsel, ModuleFlag(p.mod));
    OrFlags(p.vcocap, BandFlags(p.lowBand, p.quickTune));
  }

  // What a request comes back as.
  lemma DecodeEncode(p: Request)
    requires Typed(p)
    ensures Decode(Encode(p)) == Request(
              if p.mod == TX || p.freqsel >= 0x80 then TX
              else if p.mod == RX || p.freqsel >= 0x40 then RX
              else INVALID,
              p.timestamp, p.nint % 0x200, p.nfrac % 0x80_0000, p.freqsel % 0x40, p.vcocap % 0x40,
              p.lowBand || p.vcocap >= 0x80, p.quickTune || p.vcocap / 0x40 % 2 == 1)
  {
    hide Or, Number, Bytes, Nint, Nfrac, DecodeModule;
    FlagBytesSurvive(p);
    SixtyFourBits();
    NumberOfBytes(p.timestamp, 8);
    SplitsBack(p.nint, p.nfrac);
    var e := Encode(p);
    assert e[1..9] == Bytes(p.timestamp, 8) && e[9..] == EncodeTuning(p);
    assert e[13] == EncodeTuning(p)[4] && e[14] == EncodeTuning(p)[5];
  }

  // A request survives packing and unpacking if and only if its tuning fields fit the widths the packet has for them.
  lemma SurvivesIff(p: Request)
    requires Typed(p)
    ensures Decode(Encode(p)) == p <==> Fits(p)
  {
    hide Encode, Decode;
    DecodeEncode(p);
  }

  lemma Divisions(v: nat)
    ensures v / 0x100 / 0x100 == v / 0x1_0000
    ensures v / 0x1_0000 / 0x100 == v / 0x100_0000
    ensures v / 0x100_0000 / 0x100 == v / 0x1_0000_0000
    ensures v / 0x1_0000_0000 / 0x100 == v / 0x100_0000_0000
    ensures v / 0x100_0000_0000 / 0x100 == v / 0x1_0000_0000_0000
    ensures v / 0x1_0000_0000_0000 / 0x100 == v / 0x100_0000_0000_0000
  {}

  lemma BytesStep(v: nat, n: nat)
    requires n > 0
    ensures Bytes(v, n) == [v % 0x100] + Bytes(v / 0x100, n - 1)
  {}

  lemma BytesUnrolled(v: nat)
    ensures Bytes(v, 8) == [
              v % 0x100, v / 0x100 % 0x100, v / 0x1_0000 % 0x100, v / 0x100_0000 % 0x100, v / 0x1_0000_0000 % 0x100,
              v / 0x100_0000_0000 % 0x100, v / 0x1_0000_0000_0000 % 0x100, v / 0x100_0000_0000_0000 % 0x100]
  {
    hide Bytes;
    Divisions(v);
    BytesStep(v, 8);
    BytesStep(v / 0x100, 7);
    BytesStep(v / 0x1_0000, 6);
    BytesStep(v / 0x100_0000, 5);
    BytesStep(v / 0x1_0000_0000, 4);
    BytesStep(v / 0x100_0000_0000, 3);
    BytesStep(v / 0x1_0000_0000_0000, 2);
    BytesStep(v / 0x100_0000_0000_0000, 1);
  }

  method Pack(buf: array<Byte>, p: Request)
    requires buf.Length == 16 && Typed(p)
    modifies buf
    ensures buf[..] == Encode(p)
  {
    hide EncodeTuning, Bytes;
    buf[0] := MAGIC;
    PackTime(buf, p.timestamp);
    assert buf[..9] == [MAGIC] + Bytes(p.timestamp, 8);
    PackIntFrac(buf, p);
    assert buf[..13] == buf[..9] + buf[9..13];
    PackFlags(buf, p);
    ghost var t := EncodeTuning(p);
    assert buf[..] == buf[..13] + buf[13..] && t == t[..4] + t[4..];
  }

  method PackTime(buf: array<Byte>, timestamp: nat)
    requires buf.Length == 16
    modifies buf
    ensures buf[1..9] == Bytes(timestamp, 8) && buf[0] == old(buf[0])
  {
    hide Bytes;
    BytesUnrolled(timestamp);
    buf[1] := timestamp % 0x100;
    buf[2] := timestamp / 0x100 % 0x100;
    buf[3] := timestamp / 0x1_0000 % 0x100;
    buf[4] := timestamp / 0x100_0000 % 0x100;
    buf[5] := timestamp / 0x1_0000_0000 % 0x100;
    buf[6] := timestamp / 0x100_0000_0000 % 0x100;
    buf[7] := timestamp / 0x1_0000_0000_0000 % 0x100;
    buf[8] := timestamp / 0x100_0000_0000_0000 % 0x100;
  }

  method PackIntFrac(buf: array<Byte>, p: Request)
    requires buf.Length == 16 && Typed(p)
    modifies buf
    ensures buf[..9] == old(buf[..9]) && buf[9..13] == EncodeTuning(p)[..4]
  {
    hide Or, Shl;
    buf[9] := p.nint / 2 % 0x100;
    buf[10] := p.nint % 2 * 0x80;
    ShlConstants(p.nint % 2);
    OrIsSum(p.nint % 2, p.nfrac / 0x1_0000 % 0x80, 7);
    buf[10] := Or(buf[10], p.nfrac / 0x1_0000 % 0x80);
    buf[11] := p.nfrac / 0x100 % 0x100;
    buf[12] := p.nfrac % 0x100;
  }

  method PackFlags(buf: array<Byte>, p: Request)
    requires buf.Length == 16 && Typed(p)
    modifies buf
    ensures buf[..13] == old(buf[..13]) && buf[13..] == EncodeTuning(p)[4..]
  {
    hide Or;
    OrFlags(p.freqsel, ModuleFlag(p.mod));
    OrZero(p.freqsel);
    FlagsCombine(p.lowBand);
    OrFlags(p.vcocap, BandFlags(p.lowBand, p.quickTune));
    buf[13] := p.freqsel % 0x100;
    match p.mod {
      case TX => buf[13] := Or(buf[13], FLAG_TX);
      case RX => buf[13] := Or(buf[13], FLAG_RX);
      case INVALID =>
    }
    if p.lowBand {
      buf[14] := FLAG_LOW_BAND;
    } else {
      buf[14] := 0;
    }
    if p.quickTune {
      buf[14] := Or(buf[14], FLAG_QUICK_TUNE);
    }
    buf[14] := Or(buf[14], p.vcocap);
    buf[15] := 0;
  }

  lemma FlagsCombine(lowBand: bool)
    ensures Or(if lowBand then FLAG_LOW_BAND else 0, FLAG_QUICK_TUNE) == BandFlags(lowBand, true)
  {
    OrZero(FLAG_QUICK_TUNE);
    ShlConstants(1);
    OrIsSum(1, FLAG_QUICK_TUNE, 7);
  }

  method Unpack(buf: array<Byte>) returns (p: Request)
    requires buf.Length == 16
    ensures p == Decode(buf[..])
  {
    hide Number, Nint, Nfrac;
    NumberUnrolled(buf[1..9]);
    var timestamp: nat := buf[1] as int;
    timestamp := timestamp + 0x100 * (buf[2] as int);
    timestamp := timestamp + 0x1_0000 * (buf[3] as int);
    timestamp := timestamp + 0x100_0000 * (buf[4] as int);
    timestamp := timestamp + 0x1_0000_0000 * (buf[5] as int);
    timestamp := timestamp + 0x100_0000_0000 * (buf[6] as int);
    timestamp := timestamp + 0x1_0000_0000_0000 * (buf[7] as int);
    timestamp := timestamp + 0x100_0000_0000_0000 * (buf[8] as int);
    var mod := INVALID;
    if buf[13] / 0x80 == 1 {
      mod := TX;
    } else if buf[13] / 0x40 % 2 == 1 {
      mod := RX;
    }
    assert buf[..][1..9] == buf[1..9];
    p := Request(mod, timestamp, Nint(buf[9], buf[10]), Nfrac(buf[10], buf[11], buf[12]), buf[13] % 0x40,
                 buf[14] % 0x40, buf[14] / 0x80 == 1, buf[14] / 0x40 % 2 == 1);
  }

  lemma NumberFrom(b: seq<Byte>, i: nat)
    requires i < |b|
    ensures Number(b[i..]) == b[i] as int + 0x100 * Number(b[i + 1..])
  {
    assert b[i..][1..] == b[i + 1..];
  }

  lemma NumberOfNothing()
    ensures Number([]) == 0
  {}

  lemma NumberUnrolled(b: seq<Byte>)
    requires |b| == 8
    ensures Number(b) == b[0] as int + 0x100 * (b[1] as int) + 0x1_0000 * (b[2] as int) + 0x100_0000 * (b[3] as int)
                         + 0x1_0000_0000 * (b[4] as int) + 0x100_0000_0000 * (b[5] as int)
                         + 0x1_0000_0000_0000 * (b[6] as int) + 0x100_0000_0000_0000 * (b[7] as int)
  {
    hide Number;
    NumberFrom(b, 0);
    NumberFrom(b, 1);
    NumberFrom(b, 2);
    NumberFrom(b, 3);
    NumberFrom(b, 4);
    NumberFrom(b, 5);
    NumberFrom(b, 6);
    NumberFrom(b, 7);
    assert b[0..] == b && b[8..] == [];
    NumberOfNothing();
  }

  lemma IntFracRebuilds(b0: Byte, b1: Byte, b2: Byte, b3: Byte)
    ensures var nint, nfrac := Nint(b0, b1), Nfrac(b1, b2, b3);
            && nint < 0x200 && nint / 2 % 0x100 == b0 && nfrac < 0x80_0000
            && nint % 2 * 0x80 + nfrac / 0x1_0000 % 0x80 == b1 && nfrac / 0x100 % 0x100 == b2 && nfrac % 0x100 == b3
  {
    var nint, nfrac := Nint(b0, b1), Nfrac(b1, b2, b3);
    assert nint / 2 == b0 && nint % 2 == b1 / 0x80;
    assert nfrac / 0x100 == b1 % 0x80 * 0x100 + b2 && nfrac % 0x100 == b3;
    assert nfrac / 0x1_0000 == b1 % 0x80;
  }

  lemma TuningRebuilds(b: seq<Byte>)
    requires |b| == 16 && Typed(Decode(b))
    ensures EncodeTuning(Decode(b)) == b[9..] <==> b[15] == 0 && b[13] / 0x40 != 3
  {
    hide Or, Number, Nint, Nfrac;
    var p := Decode(b);
    IntFracRebuilds(b[9], b[10], b[11], b[12]);
    FlagsRebuild(b[13], ModuleFlag(p.mod));
    FlagsRebuild(b[14], BandFlags(p.lowBand, p.quickTune));
    var t := EncodeTuning(p);
    assert t[4] == b[13] <==> b[13] / 0x40 != 3;
    assert t[6] == b[15] <==> b[15] == 0;
    assert t[0] == b[9] && t[1] == b[10] && t[2] == b[11] && t[3] == b[12] && t[5] == b[14];
    assert t == b[9..] <==> t[4] == b[13] && t[6] == b[15];
  }

  // A packet survives unpacking and packing if and only if it is one that Pack can produce: right magic, reserved byte
  // zero, and not both module flags.
  lemma PacketSurvivesIff(b: seq<Byte>)
    requires |b| == 16
    ensures Typed(Decode(b))
    ensures Encode(Decode(b)) == b <==> b[0] == 'T' as int && b[15] == 0 && b[13] / 0x40 != 3
  {
    hide Or, Number, Bytes, Pow2, EncodeTuning, DecodeModule, Nint, Nfrac;
    SixtyFourBits();
    BytesOfNumber(b[1..9]);
    var e := Encode(Decode(b));
    TuningRebuilds(b);
    assert e[1..9] == b[1..9] && e[9..] == EncodeTuning(Decode(b));
    assert b == [b[0]] + b[1..9] + b[9..] && e == [MAGIC] + e[1..9] + e[9..];
  }

  lemma FlagsRebuild(v: Byte, flags: nat)
    requires flags in {0, 0x40, 0x80, 0xC0}
    ensures Or(v % 0x40, flags) == v % 0x40 + flags
    ensures v as int == v % 0x40 + v / 0x80 * 0x80 + v / 0x40 % 2 * 0x40
  {
    hide Or, Shl;
    ShlConstants(flags / 0x40);
    OrIsSum(flags / 0x40, v % 0x40, 6);
    OrCommutes(v % 0x40, flags);
  }
}
