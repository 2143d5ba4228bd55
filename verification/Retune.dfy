/** Programming a PLL: the register fields that hold a frequency, the loopback mode that guards some of them, and what
    the hardware is left with after a retune. */
module Retune {
  import opened BitOps
  import opened LmsDevice
  import opened Vcocap
  import Tuning
  import Packet = RetunePacket

  // ---- The loopback mode, as read back from registers 0x08 and 0x46 ----

  datatype Mode =
    | FIRMWARE | TXLPF_RXVGA2 | TXVGA1_RXVGA2 | TXLPF_RXLPF | TXVGA1_RXLPF | RF_LNA1 | RF_LNA2 | RF_LNA3 | NONE

  const LBEN_VGA2IN := 0x20
  const LBEN_LPFIN := 0x40
  const LBEN_MASK := 0x70
  const LOOPBBEN_TXLPF := 0x04
  const LOOPBBEN_TXVGA := 0x08

  function BasebandMode(loopbben: Byte, txlpf: Mode, txvga1: Mode): Mode {
    if And(loopbben, LOOPBBEN_TXLPF) != 0 then txlpf
    else if And(loopbben, LOOPBBEN_TXVGA) != 0 then txvga1
    else NONE
  }

  function ModeFrom(lbenLbrfen: Byte, loopbben: Byte): Mode {
    match lbenLbrfen % 8
    case 1 => RF_LNA1
    case 2 => RF_LNA2
    case 3 => RF_LNA3
    case _ =>
      var lben := And(lbenLbrfen, LBEN_MASK);
      if lben == LBEN_VGA2IN then BasebandMode(loopbben, TXLPF_RXVGA2, TXVGA1_RXVGA2)
      else if lben == LBEN_LPFIN then BasebandMode(loopbben, TXLPF_RXLPF, TXVGA1_RXLPF)
      else NONE
  }

  function ModeOf(regs: seq<Byte>): Mode
    requires |regs| == 0x80
  {
    ModeFrom(regs[0x08], regs[0x46])
  }

  method GetLoopbackMode(dev: Device) returns (status: int, mode: Mode)
    requires dev.Valid()
    modifies dev`trace, dev`failures
    ensures status == 0 || status == ERR_IO
    ensures Reliable(dev) ==> status == 0
    ensures status == 0 ==> mode == ModeOf(dev.regs)
    ensures status == 0 ==> dev.trace == old(dev.trace) + [Access.Read(0x08), Access.Read(0x46)]
    ensures status == 0 ==> dev.failures == old(dev.failures)
  {
    mode := NONE;
    var lbenLbrfen, loopbben;
    status, lbenLbrfen := dev.Read(0x08);
    if status != 0 {
      return;
    }
    status, loopbben := dev.Read(0x46);
    if status != 0 {
      return;
    }
    mode := ModeFrom(lbenLbrfen, loopbben);
  }

  // One if loopback is on, zero if off, negative on failure.
  method IsLoopbackEnabled(dev: Device) returns (status: int)
    requires dev.Valid()
    modifies dev`trace, dev`failures
    ensures Reliable(dev) ==> status >= 0
    ensures status >= 0 ==> status == if ModeOf(dev.regs) != NONE then 1 else 0
    ensures status >= 0 ==> dev.trace == old(dev.trace) + [Access.Read(0x08), Access.Read(0x46)]
    ensures status >= 0 ==> dev.failures == old(dev.failures)
  {
    var mode;
    status, mode := GetLoopbackMode(dev);
    if status != 0 {
      return;
    }
    status := if mode != NONE then 1 else 0;
  }

  // ---- The frequency fields of a PLL ----

  datatype Pll = Pll(nint: nat, nfrac: nat, freqsel: nat, vcocap: nat)

  function PllOf(regs: seq<Byte>, base: nat): Pll
    requires |regs| == 0x80 && IsBase(base)
  {
    Pll(Packet.Nint(regs[base], regs[base + 1]), Packet.Nfrac(regs[base + 1], regs[base + 2], regs[base + 3]),
        regs[base + 5] / 4, regs[base + 9] % 0x40)
  }

  // The two bits that select the PLL's output buffer.
  function OutputBuffer(regs: seq<Byte>, base: nat): nat
    requires |regs| == 0x80 && IsBase(base)
  {
    regs[base + 5] % 4
  }

  // A divider can be computed from the frequency select bits of both PLLs.
  predicate Tuned(regs: seq<Byte>)
    requires |regs| == 0x80
  {
    regs[0x15] / 4 % 8 >= 3 && regs[0x25] / 4 % 8 >= 3
  }

  // The PLL a module's fields are written to, and the register its frequency select bits are. For an invalid module
  // the two do not belong together.
  function BaseOf(m: Packet.Module): nat {
    if m == Packet.RX then 0x20 else 0x10
  }

  function ConfigReg(m: Packet.Module): nat {
    if m == Packet.TX then 0x15 else 0x25
  }

  // The register value of write_pll_config.
  function PllConfig(regval: Byte, freqsel: nat, loopback: bool, lowBand: bool): Byte {
    if loopback then regval % 4 + freqsel % 0x40 * 4 else freqsel % 0x40 * 4 + if lowBand then 1 else 2
  }

  lemma PllConfigBits(regval: Byte, freqsel: nat, selout: nat)
    requires selout < 4
    ensures ClearBits(regval, 0xfc) == regval % 4
    ensures Or(freqsel % 0x40 * 4, selout) == freqsel % 0x40 * 4 + selout
    ensures Or(selout, freqsel % 0x40 * 4) == freqsel % 0x40 * 4 + selout
  {
    hide Or, AndNot, Shl, Low, Pow2;
    Powers();
    ShlConstants(0x3f);
    AndNotUpper(regval, 6, 2);
    ShiftsAreDivisions(regval);
    ShlConstants(freqsel % 0x40);
    OrIsSum(freqsel % 0x40, selout, 2);
    OrCommutes(freqsel % 0x40 * 4, selout);
  }

  lemma PllConfigComputed(regval: Byte, freqsel: nat, lowBand: bool)
    ensures SetBits(freqsel % 0x40 * 4, if lowBand then 1 else 2) == PllConfig(regval, freqsel, false, lowBand)
    ensures SetBits(ClearBits(regval, 0xfc), freqsel % 0x40 * 4) == PllConfig(regval, freqsel, true, lowBand)
  {
    hide Or, AndNot;
    PllConfigBits(regval, freqsel, if lowBand then 1 else 2);
    PllConfigBits(regval, freqsel, regval % 4);
  }

  lemma ConfigIsPlain(m: Packet.Module)
    ensures var addr := ConfigReg(m); addr < 0x80 && addr % 0x80 == addr && !Volatile(addr)
  {}

  method WritePllConfig(dev: Device, m: Packet.Module, freqsel: nat, lowBand: bool) returns (status: int)
    requires dev.Valid()
    modifies dev`trace, dev`failures, dev`regs
    ensures dev.Valid()
    ensures var addr := ConfigReg(m);
            && OnlyRegs(old(dev.regs), dev.regs, {addr})
            && (status == 0 ==>
                  dev.regs[addr] == PllConfig(old(dev.regs)[addr], freqsel, ModeOf(old(dev.regs)) != NONE, lowBand))
            && (status != 0 ==> dev.regs == old(dev.regs))
    ensures status == 0 ==>
              dev.trace ==
              old(dev.trace)
              + [Access.Read(ConfigReg(m)), Access.Read(0x08), Access.Read(0x46),
                 Access.Write(ConfigReg(m), dev.regs[ConfigReg(m)])]
    ensures Reliable(dev) ==> status == 0
    ensures status == 0 ==> dev.failures == old(dev.failures)
  {
    hide ModeOf, Volatile, SetBits, ClearBits, PllConfig, OnlyRegs, ConfigReg;
    ConfigIsPlain(m);
    WroteOnly(dev.regs, ConfigReg(m), PllConfig(dev.regs[ConfigReg(m)], freqsel, ModeOf(dev.regs) != NONE, lowBand));
    var addr := ConfigReg(m);
    var regval;
    status, regval := dev.Read(addr);
    if status != 0 {
      return;
    }
    PllConfigComputed(regval, freqsel, lowBand);
    status := IsLoopbackEnabled(dev);
    if status < 0 {
      return;
    }
    if status == 0 {
      var selout := if lowBand then 1 else 2;
      regval := SetBits(freqsel % 0x40 * 4, selout);
    } else {
      regval := SetBits(ClearBits(regval, 0xfc), freqsel % 0x40 * 4);
    }
    status := dev.Write(addr, regval);
  }

  // ---- Programming a frequency ----

  function PllRegs(base: nat): set<nat> {
    {base, base + 1, base + 2, base + 3, base + 5, base + 9}
  }

  // The registers a retune writes, besides the DSM enables.
  function RetuneRegs(m: Packet.Module): set<nat> {
    {BaseOf(m), BaseOf(m) + 1, BaseOf(m) + 2, BaseOf(m) + 3, BaseOf(m) + 9, ConfigReg(m)}
  }

  // The fields in the registers a retune writes.
  function FieldsOf(regs: seq<Byte>, m: Packet.Module): Pll
    requires |regs| == 0x80
  {
    PllOf(regs, BaseOf(m)).(freqsel := regs[ConfigReg(m)] / 4)
  }

  // The fields the registers hold for given tuning parameters: those parameters, cut to the width of the fields.
  function Programmed(f: Tuning.LmsFreq): Pll
    reads f
  {
    Pll(f.nint as int % 0x200, f.nfrac as int % 0x80_0000, f.freqsel as int % 0x40, f.vcocapResult as int)
  }

  function LowBand(f: Tuning.LmsFreq): bool
    reads f`flags
  {
    f.flags as int % 2 == 1
  }

  function ForceVcocap(f: Tuning.LmsFreq): bool
    reads f`flags
  {
    f.flags as int / 2 % 2 == 1
  }

  // A write of the fields of a PLL, as part of a group or on its own.
  function FieldWrite(grouped: bool, addr: nat, value: Byte): Access {
    if grouped then Grouped(addr, value) else Access.Write(addr, value)
  }

  // The four writes of the integer and fractional parts.
  function IntFracWrites(base: nat, nint: nat, nfrac: nat, grouped: bool): seq<Access> {
    [ FieldWrite(grouped, base, nint / 2 % 0x100),
      FieldWrite(grouped, base + 1, nint % 2 * 0x80 + nfrac / 0x1_0000 % 0x80),
      FieldWrite(grouped, base + 2, nfrac / 0x100 % 0x100), FieldWrite(grouped, base + 3, nfrac % 0x100) ]
  }

  method WriteIntFrac(dev: Device, pllBase: Byte, ghost base: nat, nint: nat, nfrac: nat) returns (status: int)
    requires dev.Valid() && IsBase(base) && (pllBase == base || pllBase == base + 0x80)
    modifies dev`trace, dev`failures, dev`regs
    ensures dev.Valid()
    ensures status == 0 ==> dev.trace == old(dev.trace) + IntFracWrites(base, nint, nfrac, pllBase != base)
    ensures OnlyRegs(old(dev.regs), dev.regs, {base, base + 1, base + 2, base + 3})
    ensures status == 0 ==>
              && Packet.Nint(dev.regs[base], dev.regs[base + 1]) == nint % 0x200
              && Packet.Nfrac(dev.regs[base + 1], dev.regs[base + 2], dev.regs[base + 3]) == nfrac % 0x80_0000
    ensures Reliable(dev) ==> status == 0
    ensures status == 0 ==> dev.failures == old(dev.failures)
  {
    hide Or, Packet.Nint, Packet.Nfrac, Volatile;
    IntFracBytes(nint, nfrac);
    IntFracRegisters(pllBase, base);
    status := dev.Write(pllBase, nint / 2 % 0x100);
    if status != 0 {
      return;
    }
    status := dev.Write(pllBase + 1, Or(nint % 2 * 0x80, nfrac / 0x1_0000 % 0x80));
    if status != 0 {
      return;
    }
    status := dev.Write(pllBase + 2, nfrac / 0x100 % 0x100);
    if status != 0 {
      return;
    }
    status := dev.Write(pllBase + 3, nfrac % 0x100);
  }

  lemma IntFracRegisters(pllBase: Byte, base: nat)
    requires IsBase(base) && (pllBase == base || pllBase == base + 0x80)
    ensures pllBase % 0x80 == base && (pllBase + 1) % 0x80 == base + 1
    ensures (pllBase + 2) % 0x80 == base + 2 && (pllBase + 3) % 0x80 == base + 3
    ensures !Volatile(base) && !Volatile(base + 1) && !Volatile(base + 2) && !Volatile(base + 3)
  {}

  lemma IntFracBytes(nint: nat, nfrac: nat)
    ensures var b1 := Or(nint % 2 * 0x80, nfrac / 0x1_0000 % 0x80);
            && b1 == nint % 2 * 0x80 + nfrac / 0x1_0000 % 0x80 < 0x100
            && Packet.Nint(nint / 2 % 0x100, b1) == nint % 0x200
            && Packet.Nfrac(b1, nfrac / 0x100 % 0x100, nfrac % 0x100) == nfrac % 0x80_0000
  {
    hide Or, Packet.Nint, Packet.Nfrac;
    ShlConstants(nint % 2);
    OrIsSum(nint % 2, nfrac / 0x1_0000 % 0x80, 7);
    Packet.SplitsBack(nint, nfrac);
  }

  lemma SavedBits(data: Byte)
    ensures IsSaved(ClearBits(data, 0x3f)) && Upper(data, ClearBits(data, 0x3f)) && ClearBits(data, 0x3f) <= 0xc0
  {
    hide AndNot, Low, Shr, Pow2;
    ShlConstants(0);
    AndNotLower(data, 6);
    ShiftsAreDivisions(data);
    UpperPart(data);
  }

  lemma UpperPart(v: nat)
    ensures v - v % 0x40 == v / 0x40 * 0x40 && (v - v % 0x40) % 0x40 == 0
  {}

  lemma VcocapOnly(base: nat, before: seq<Byte>, after: seq<Byte>)
    requires IsBase(base) && |before| == |after| == 0x80 && after == before[base + 9 := after[base + 9]]
    ensures OnlyRegs(before, after, {base + 9})
  {}

  // The accesses from one place in the trace to another only read the comparators and write VCOCAP.
  ghost predicate OnlyTunes(trace: seq<Access>, from: nat, to: nat, base: nat)
    requires IsBase(base) && to <= |trace|
  {
    forall i :: from <= i < to ==>
                  trace[i] == Read(VtuneReg(base)) || (trace[i].Write? && trace[i].addr == VcocapReg(base))
  }

  lemma TunesOnly(before: seq<Access>, after: seq<Access>, base: nat, saved: Byte)
    requires IsBase(base) && OnlyVcocap(before, after, base, saved, 93)
    ensures before <= after && OnlyTunes(after, |before|, |after|, base)
  {
    hide Upper;
  }

  // Use the VCOCAP hint as it is, or tune from it.
  method ChooseVcocap(dev: Device, f: Tuning.LmsFreq, base: nat, saved: Byte, ghost h: int, ghost l: int)
    returns (status: int)
    requires dev.Valid() && IsBase(base) && IsSaved(saved) && f.vcocap as int <= Tuning.VCOCAP_MAX_VALUE
    requires Holds(dev, base, f.vcocap as int)
    modifies dev`trace, dev`failures, dev`regs, f`vcocapResult
    ensures dev.Valid()
    ensures old(dev.trace) <= dev.trace && OnlyTunes(dev.trace, |old(dev.trace)|, |dev.trace|, base)
    ensures OnlyRegs(old(dev.regs), dev.regs, {base + 9})
    ensures Upper(old(dev.regs)[base + 9], saved) ==> Upper(dev.regs[base + 9], saved)
    ensures status == 0 ==> Holds(dev, base, f.vcocapResult as int)
    ensures status == 0 && ForceVcocap(f) ==> f.vcocapResult == f.vcocap
    ensures f.vcocapResult as int <= 63 || f.vcocapResult as int == 0xff || f.vcocapResult == old(f.vcocapResult)
    ensures Reliable(dev) && ForceVcocap(f) ==> status == 0
    ensures Follows(dev, base, h, l) && !ForceVcocap(f) ==>
              && (status == 0 <==> FirstWalk(h, l, f.vcocap as int) <= 20)
              && (status == 0 ==> f.vcocapResult as int == Middle(h, l))
    ensures status == 0 ==> dev.failures == old(dev.failures)
  {
    hide OnlyVcocap, Upper, FirstWalk, Middle, OnlyRegs, Region;
    VcocapOnly(base, dev.regs, dev.regs);
    if ForceVcocap(f) {
      f.vcocapResult := f.vcocap;
      status := 0;
    } else {
      var result;
      status, result := TuneVcocap(dev, f.vcocap as int, base, saved, h, l);
      VcocapOnly(base, old(dev.regs), dev.regs);
      TunesOnly(old(dev.trace), dev.trace, base, saved);
      f.vcocapResult := result as Tuning.uint8;
      if status == 0 {
        SavedPlus(saved, result);
      }
    }
  }

  // The frequency-select register after programming: the output buffer is touched only if loopback was off.
  ghost predicate SelectsFor(before: seq<Byte>, after: seq<Byte>, m: Packet.Module, f: Tuning.LmsFreq)
    requires |before| == |after| == 0x80
    reads f`freqsel, f`flags
  {
    after[ConfigReg(m)] == PllConfig(before[ConfigReg(m)], f.freqsel as int, ModeOf(before) != NONE, LowBand(f))
  }

  // The accesses that program the fields, given the registers afterwards.
  ghost function FieldAccesses(m: Packet.Module, f: Tuning.LmsFreq, atomic: bool, saved: Byte, regs: seq<Byte>)
    : seq<Access>
    requires |regs| == 0x80 && saved <= 0xc0 && f.vcocap as int <= 63
    reads f`vcocap, f`nint, f`nfrac
  {
    [Access.Write(BaseOf(m) + 9, saved + f.vcocap as int),
     Access.Read(ConfigReg(m)), Access.Read(0x08), Access.Read(0x46), Access.Write(ConfigReg(m), regs[ConfigReg(m)])]
    + IntFracWrites(BaseOf(m), f.nint as int, f.nfrac as int, atomic)
  }

  // Everything up to tuning: the VCOCAP hint, the PLL configuration, and the integer and fractional parts.
  method WriteFields(dev: Device, m: Packet.Module, f: Tuning.LmsFreq, saved: Byte) returns (status: int)
    requires dev.Valid() && f.vcocap as int <= Tuning.VCOCAP_MAX_VALUE && IsSaved(saved) && saved <= 0xc0
    modifies dev`trace, dev`failures, dev`regs
    ensures dev.Valid()
    ensures OnlyRegs(old(dev.regs), dev.regs, RetuneRegs(m))
    ensures Upper(old(dev.regs)[BaseOf(m) + 9], saved) ==> Upper(dev.regs[BaseOf(m) + 9], saved)
    ensures status == 0 ==>
              FieldsOf(dev.regs, m) ==
              Pll(f.nint as int % 0x200, f.nfrac as int % 0x80_0000, f.freqsel as int % 0x40, f.vcocap as int)
    ensures dev.regs[ConfigReg(m)] == old(dev.regs)[ConfigReg(m)] || SelectsFor(old(dev.regs), dev.regs, m, f)
    ensures status == 0 ==> SelectsFor(old(dev.regs), dev.regs, m, f)
    ensures status == 0 ==> dev.trace == old(dev.trace) + FieldAccesses(m, f, dev.atomicWrites, saved, dev.regs)
    ensures Reliable(dev) ==> status == 0
    ensures status == 0 ==> dev.failures == old(dev.failures)
  {
    hide ModeOf, OnlyVcocap, Upper, Volatile, OnlyRegs, PllConfig, RetuneRegs, Packet.Nint, Packet.Nfrac, IntFracWrites;
    ghost var t0 := dev.trace;
    var base: nat := BaseOf(m);
    var pllBase := if dev.atomicWrites then base + 0x80 else base;
    ghost var r0 := dev.regs;
    status := WriteVcocap(dev, base, f.vcocap as int, saved);
    ghost var r1, t1 := dev.regs, dev.trace;
    VcocapOnly(base, r0, r1);
    NoneChanged(r1, m);
    FieldsWritten(m, r0, r1, r1, r1);
    if status != 0 {
      return;
    }
    status := WritePllConfig(dev, m, f.freqsel as int, LowBand(f));
    ghost var r2, t2 := dev.regs, dev.trace;
    NoneChanged(r2, m);
    FieldsWritten(m, r0, r1, r2, r2);
    if status != 0 {
      return;
    }
    ConfigFields(r1[ConfigReg(m)], f.freqsel as int, LowBand(f));
    status := WriteIntFrac(dev, pllBase, base, f.nint as int, f.nfrac as int);
    FieldsWritten(m, r0, r1, r2, dev.regs);
    if status == 0 {
      Joined(t0, t1, t2, dev.trace, t1[|t0|], t2[|t1|], t2[|t1| + 1], t2[|t1| + 2], t2[|t1| + 3],
             IntFracWrites(base, f.nint as int, f.nfrac as int, dev.atomicWrites));
    }
  }

  lemma Joined(t0: seq<Access>, t1: seq<Access>, t2: seq<Access>, t3: seq<Access>,
               a: Access, b: Access, c: Access, d: Access, e: Access, rest: seq<Access>)
    requires t1 == t0 + [a] && t2 == t1 + [b, c, d, e] && t3 == t2 + rest
    ensures t3 == t0 + ([a, b, c, d, e] + rest)
  {}


  lemma NoneChanged(regs: seq<Byte>, m: Packet.Module)
    requires |regs| == 0x80
    ensures OnlyRegs(regs, regs, {ConfigReg(m)})
    ensures var base := BaseOf(m); OnlyRegs(regs, regs, {base, base + 1, base + 2, base + 3})
  {}

  // The three steps write different registers.
  lemma FieldsWritten(m: Packet.Module, r0: seq<Byte>, r1: seq<Byte>, r2: seq<Byte>, r3: seq<Byte>)
    requires var base := BaseOf(m);
             && OnlyRegs(r0, r1, {base + 9}) && OnlyRegs(r1, r2, {ConfigReg(m)})
             && OnlyRegs(r2, r3, {base, base + 1, base + 2, base + 3})
    ensures OnlyRegs(r0, r3, RetuneRegs(m)) && ModeOf(r1) == ModeOf(r0)
    ensures r3[BaseOf(m) + 9] == r1[BaseOf(m) + 9]
    ensures r1[ConfigReg(m)] == r0[ConfigReg(m)] && r3[ConfigReg(m)] == r2[ConfigReg(m)]
  {
    hide ModeFrom;
  }

  lemma SameAccesses(m: Packet.Module, f: Tuning.LmsFreq, atomic: bool, saved: Byte, before: seq<Byte>,
                     after: seq<Byte>)
    requires |before| == |after| == 0x80 && after[ConfigReg(m)] == before[ConfigReg(m)]
    requires saved <= 0xc0 && f.vcocap as int <= 63 && Upper(after[BaseOf(m) + 9], saved)
    ensures saved == after[BaseOf(m) + 9] / 0x40 * 0x40
    ensures FieldAccesses(m, f, atomic, saved, after) == FieldAccesses(m, f, atomic, saved, before)
  {}

  // What programming does to the bus: the VCOCAP register is read, the hint written first so that VTUNE can settle,
  // then the frequency select bits, then the integer and fractional parts, as one group if the FPGA can do that; and
  // after that nothing but tuning.
  ghost predicate Programs(t0: seq<Access>, t1: seq<Access>, regs: seq<Byte>, m: Packet.Module, f: Tuning.LmsFreq,
                           atomic: bool)
    requires |regs| == 0x80
    reads f`vcocap, f`nint, f`nfrac
  {
    var saved := regs[BaseOf(m) + 9] / 0x40 * 0x40;
    && saved <= 0xc0 && f.vcocap as int <= 63
    && var accesses := [Access.Read(BaseOf(m) + 9)] + FieldAccesses(m, f, atomic, saved, regs);
       t0 + accesses <= t1 && OnlyTunes(t1, |t0| + |accesses|, |t1|, BaseOf(m))
  }

  lemma ProgramsThen(t0: seq<Access>, t1: seq<Access>, t2: seq<Access>, r1: seq<Byte>, r2: seq<Byte>,
                     m: Packet.Module, f: Tuning.LmsFreq, atomic: bool, saved: Byte)
    requires |r1| == |r2| == 0x80 && r2[ConfigReg(m)] == r1[ConfigReg(m)]
    requires saved <= 0xc0 && f.vcocap as int <= 63
    requires Upper(r2[BaseOf(m) + 9], saved)
    requires t1 == t0 + [Access.Read(BaseOf(m) + 9)] + FieldAccesses(m, f, atomic, saved, r1)
    requires t1 <= t2 && OnlyTunes(t2, |t1|, |t2|, BaseOf(m))
    ensures Programs(t0, t2, r2, m, f, atomic)
  {
    SameAccesses(m, f, atomic, saved, r1, r2);
    hide FieldAccesses, OnlyTunes, Upper, IsSaved;
    assert t1 == t0 + ([Access.Read(BaseOf(m) + 9)] + FieldAccesses(m, f, atomic, saved, r1));
  }

  // The upper bits of the VCOCAP register.
  method ReadSaved(dev: Device, base: nat) returns (status: int, saved: Byte)
    requires dev.Valid() && IsBase(base)
    modifies dev`trace, dev`failures
    ensures IsSaved(saved) && saved <= 0xc0
    ensures status == 0 ==> Upper(dev.regs[base + 9], saved) && dev.trace == old(dev.trace) + [Access.Read(base + 9)]
    ensures Reliable(dev) ==> status == 0
    ensures status == 0 ==> dev.failures == old(dev.failures)
  {
    hide IsSaved, Upper, ClearBits, Volatile;
    Registers(base);
    var data;
    status, data := dev.Read(base + 9);
    SavedBits(data);
    saved := ClearBits(data, 0x3f);
  }

  lemma IdealIsReliable(dev: Device, base: nat, h: int, l: int)
    requires IsBase(base)
    ensures Ideal(dev, base, h, l) ==> Reliable(dev)
  {}

  lemma UpperSame(before: Byte, after: Byte, saved: Byte)
    requires Upper(before, saved) && Upper(after, saved)
    ensures after / 0x40 == before / 0x40
  {}

  lemma HintHeld(regs: seq<Byte>, m: Packet.Module)
    requires |regs| == 0x80
    ensures FieldsOf(regs, m).vcocap == regs[BaseOf(m) + 9] % 0x40
  {
    hide Packet.Nint, Packet.Nfrac;
  }

  lemma StillSelects(r0: seq<Byte>, r1: seq<Byte>, r2: seq<Byte>, m: Packet.Module, f: Tuning.LmsFreq)
    requires |r0| == |r1| == |r2| == 0x80 && r2[ConfigReg(m)] == r1[ConfigReg(m)]
    ensures SelectsFor(r0, r1, m, f) ==> SelectsFor(r0, r2, m, f)
  {}

  // From the first VCOCAP write to the end of tuning.
  method ProgramPll(dev: Device, m: Packet.Module, f: Tuning.LmsFreq, ghost h: int, ghost l: int)
    returns (status: int)
    requires dev.Valid() && f.vcocap as int <= Tuning.VCOCAP_MAX_VALUE
    modifies dev`trace, dev`failures, dev`regs, f`vcocapResult
    ensures dev.Valid()
    ensures OnlyRegs(old(dev.regs), dev.regs, RetuneRegs(m))
    ensures dev.regs[BaseOf(m) + 9] / 0x40 == old(dev.regs)[BaseOf(m) + 9] / 0x40
    ensures status == 0 ==> FieldsOf(dev.regs, m) == Programmed(f)
    ensures status == 0 ==> Programs(old(dev.trace), dev.trace, dev.regs, m, f, dev.atomicWrites)
    ensures dev.regs[ConfigReg(m)] == old(dev.regs)[ConfigReg(m)] || SelectsFor(old(dev.regs), dev.regs, m, f)
    ensures status == 0 ==> SelectsFor(old(dev.regs), dev.regs, m, f)
    ensures status == 0 && ForceVcocap(f) ==> f.vcocapResult == f.vcocap
    ensures f.vcocapResult as int <= 63 || f.vcocapResult as int == 0xff || f.vcocapResult == old(f.vcocapResult)
    ensures Reliable(dev) && ForceVcocap(f) ==> status == 0
    ensures Follows(dev, BaseOf(m), h, l) && !ForceVcocap(f) ==>
              && (status == 0 <==> FirstWalk(h, l, f.vcocap as int) <= 20)
              && (status == 0 ==> f.vcocapResult as int == Middle(h, l))
    ensures status == 0 ==> dev.failures == old(dev.failures)
  {
    hide ModeOf, Packet.Nint, Packet.Nfrac, FirstWalk, Middle, Volatile, Region, PllConfig, IsSaved, Upper, Ideal;
    hide OnlyRegs, RetuneRegs, FieldAccesses, OnlyTunes, Programs, Bit, DsmsOn, ConfigReg, SelectsFor, FieldsOf;
    ghost var r0, t0 := dev.regs, dev.trace;
    NothingRetuned(r0, m);
    var saved;
    status, saved := ReadSaved(dev, BaseOf(m));
    IdealIsReliable(dev, BaseOf(m), h, l);
    if status != 0 {
      return;
    }
    status := WriteFields(dev, m, f, saved);
    UpperSame(r0[BaseOf(m) + 9], dev.regs[BaseOf(m) + 9], saved);
    if status != 0 {
      return;
    }
    ghost var r, t := dev.regs, dev.trace;
    HintHeld(r, m);
    status := ChooseVcocap(dev, f, BaseOf(m), saved, h, l);
    UpperSame(r0[BaseOf(m) + 9], dev.regs[BaseOf(m) + 9], saved);
    VcocapChosen(m, r0, r, dev.regs);
    StillSelects(r0, r, dev.regs, m, f);
    if status == 0 {
      ProgramsThen(t0, t, dev.trace, r, dev.regs, m, f, dev.atomicWrites, saved);
    }
  }

  lemma NothingRetuned(regs: seq<Byte>, m: Packet.Module)
    requires |regs| == 0x80
    ensures OnlyRegs(regs, regs, RetuneRegs(m))
  {}

  lemma VcocapChosen(m: Packet.Module, r0: seq<Byte>, r1: seq<Byte>, r2: seq<Byte>)
    requires OnlyRegs(r0, r1, RetuneRegs(m)) && OnlyRegs(r1, r2, {BaseOf(m) + 9})
    ensures OnlyRegs(r0, r2, RetuneRegs(m)) && r2[ConfigReg(m)] == r1[ConfigReg(m)]
    ensures FieldsOf(r2, m) == FieldsOf(r1, m).(vcocap := r2[BaseOf(m) + 9] % 0x40)
  {
    hide Packet.Nint, Packet.Nfrac;
  }

  // Registers other than the DSM enables are not affected by switching the DSMs.
  lemma DsmsAside(before: seq<Byte>, after: seq<Byte>, m: Packet.Module)
    requires OnlyRegs(before, after, {0x09})
    ensures FieldsOf(after, m) == FieldsOf(before, m) && after[ConfigReg(m)] == before[ConfigReg(m)]
    ensures after[BaseOf(m) + 9] == before[BaseOf(m) + 9] && ModeOf(after) == ModeOf(before)
    ensures OnlyRegs(before, after, RetuneRegs(m) + {0x09})
  {}

  lemma DsmsAround(r0: seq<Byte>, r1: seq<Byte>, r2: seq<Byte>, r3: seq<Byte>, m: Packet.Module)
    requires OnlyRegs(r0, r1, {0x09}) && OnlyRegs(r1, r2, RetuneRegs(m)) && OnlyRegs(r2, r3, {0x09})
    ensures OnlyRegs(r0, r3, RetuneRegs(m) + {0x09}) && r2[0x09] == r1[0x09]
  {}

  predicate DsmsOff(enables: Byte) {
    !Bit(enables, 0) && !Bit(enables, 2)
  }

  lemma DsmBits(data: Byte)
    ensures AndNot(SetBits(data, 0x05), 0x05) == AndNot(data, 0x05) == AndNot(ClearBits(data, 0x05), 0x05)
    ensures DsmsOn(SetBits(data, 0x05)) && DsmsOff(ClearBits(data, 0x05))
  {
    assert Bit(0x05, 0) && Bit(2, 1) == Bit(1, 0) && Bit(0x05, 2) == Bit(2, 1);
    hide Bit, Or, AndNot;
    ClearAndSet(data, 0x05);
    OrBit(data, 0x05, 0);
    OrBit(data, 0x05, 2);
    AndNotBit(data, 0x05, 0);
    AndNotBit(data, 0x05, 2);
  }

  method SwitchDsms(dev: Device, on: bool) returns (status: int)
    requires dev.Valid()
    modifies dev`trace, dev`failures, dev`regs
    ensures dev.Valid()
    ensures OnlyRegs(old(dev.regs), dev.regs, {0x09})
    ensures AndNot(dev.regs[0x09], 0x05) == AndNot(old(dev.regs)[0x09], 0x05)
    ensures status == 0 ==>
              dev.regs[0x09] == if on then SetBits(old(dev.regs)[0x09], 0x05) else ClearBits(old(dev.regs)[0x09], 0x05)
    ensures status == 0 ==> if on then DsmsOn(dev.regs[0x09]) else DsmsOff(dev.regs[0x09])
    ensures status == 0 ==> dev.trace == old(dev.trace) + [Access.Read(0x09), Access.Write(0x09, dev.regs[0x09])]
    ensures Reliable(dev) ==> status == 0
    ensures status == 0 ==> dev.failures == old(dev.failures)
  {
    hide SetBits, ClearBits, AndNot, Bit;
    var data;
    status, data := dev.Read(0x09);
    DsmBits(data);
    if status == 0 {
      status := dev.Write(0x09, if on then SetBits(data, 0x05) else ClearBits(data, 0x05));
    }
  }

  // The bits of the registers a retune writes that are not its own.
  ghost predicate KeepsUpper(m: Packet.Module, before: seq<Byte>, after: seq<Byte>)
    requires |before| == |after| == 0x80
  {
    && after[BaseOf(m) + 9] / 0x40 == before[BaseOf(m) + 9] / 0x40
    && AndNot(after[0x09], 0x05) == AndNot(before[0x09], 0x05)
  }

  // Programming happens between a write that turns both modulators on and one that turns them off.
  ghost predicate Bracketed(t0: seq<Access>, t1: seq<Access>) {
    var n := |t1|;
    && t0 <= t1 && n >= |t0| + 4
    && t1[|t0|] == Access.Read(0x09) && t1[|t0| + 1].Write? && t1[|t0| + 1].addr == 0x09 && DsmsOn(t1[|t0| + 1].value)
    && t1[n - 2] == Access.Read(0x09) && t1[n - 1].Write? && t1[n - 1].addr == 0x09 && DsmsOff(t1[n - 1].value)
  }

  lemma ProgramsBefore(t0: seq<Access>, t1: seq<Access>, r1: seq<Byte>, r2: seq<Byte>, m: Packet.Module,
                       f: Tuning.LmsFreq, atomic: bool)
    requires OnlyRegs(r1, r2, {0x09}) && Programs(t0, t1, r1, m, f, atomic)
    ensures Programs(t0, t1, r2, m, f, atomic) && t0 <= t1
  {
    hide OnlyTunes, IntFracWrites;
  }

  lemma InBrackets(t0: seq<Access>, on: Byte, t1: seq<Access>, t2: seq<Access>, off: Byte, t3: seq<Access>)
    requires DsmsOn(on) && t1 == t0 + [Access.Read(0x09), Access.Write(0x09, on)] && t1 <= t2
    requires DsmsOff(off) && t3 == t2 + [Access.Read(0x09), Access.Write(0x09, off)]
    ensures Bracketed(t0, t3) && t3[..|t0| + 2] == t1 && t3[..|t3| - 2] == t2
  {
    hide Bit;
  }

  // lms_set_precalculated_frequency: the DSMs are switched on for programming, and off again even if it failed. An
  // invalid module gets its frequency select bits in the other PLL, so that its own has the right ones only by chance.
  method SetPrecalculatedFrequency(
      dev: Device, m: Packet.Module, f: Tuning.LmsFreq, ghost h: int, ghost l: int)
    returns (status: int)
    requires dev.Valid() && f.vcocap as int <= Tuning.VCOCAP_MAX_VALUE
    modifies dev`trace, dev`failures, dev`regs, f`vcocapResult
    ensures dev.Valid()
    ensures OnlyRegs(old(dev.regs), dev.regs, RetuneRegs(m) + {0x09})
    ensures KeepsUpper(m, old(dev.regs), dev.regs)
    ensures status == 0 ==> FieldsOf(dev.regs, m) == Programmed(f)
    ensures status == 0 ==>
              (PllOf(dev.regs, BaseOf(m)) == Programmed(f) <==>
                 m != Packet.INVALID || old(dev.regs)[0x15] / 4 == f.freqsel as int % 0x40)
    ensures dev.regs[ConfigReg(m)] == old(dev.regs)[ConfigReg(m)] || SelectsFor(old(dev.regs), dev.regs, m, f)
    ensures status == 0 ==> SelectsFor(old(dev.regs), dev.regs, m, f)
    ensures Reliable(dev) ==> dev.regs[0x09] == ClearBits(SetBits(old(dev.regs)[0x09], 0x05), 0x05)
    ensures status == 0 ==>
              && Bracketed(old(dev.trace), dev.trace)
              && Programs(dev.trace[..|old(dev.trace)| + 2], dev.trace[..|dev.trace| - 2], dev.regs, m, f,
                          dev.atomicWrites)
    ensures status == 0 && ForceVcocap(f) ==> f.vcocapResult == f.vcocap
    ensures f.vcocapResult as int <= 63 || f.vcocapResult as int == 0xff
    ensures Reliable(dev) && ForceVcocap(f) ==> status == 0
    ensures Ideal(dev, BaseOf(m), h, l) && !ForceVcocap(f) ==>
              && (status == 0 <==> FirstWalk(h, l, f.vcocap as int) <= 20)
              && (status == 0 ==> f.vcocapResult as int == Middle(h, l))
    ensures status == 0 ==> dev.failures == old(dev.failures)
  {
    hide ModeOf, PllOf, FieldsOf, FirstWalk, Middle, Region, PllConfig, ClearBits, SetBits, OnlyRegs, RetuneRegs;
    hide AndNot, Programs, Bracketed, DsmsOn, DsmsOff;
    ghost var r0, t0 := dev.regs, dev.trace;
    f.vcocapResult := NOT_TUNED as Tuning.uint8;
    status := SwitchDsms(dev, true);
    ghost var r1, t1 := dev.regs, dev.trace;
    DsmsAside(r0, r1, m);
    if status != 0 {
      return;
    }
    status := ProgramPll(dev, m, f, h, l);
    ghost var r2, t2 := dev.regs, dev.trace;
    var dsmStatus := SwitchDsms(dev, false);
    DsmsAside(r2, dev.regs, m);
    DsmsAround(r0, r1, r2, dev.regs, m);
    status := if status == 0 then dsmStatus else status;
    if status == 0 {
      ProgrammedIff(r0, dev.regs, m, f);
      ProgramsBefore(t1, t2, r2, dev.regs, m, f, dev.atomicWrites);
      InBrackets(t0, r1[0x09], t1, t2, dev.regs[0x09], dev.trace);
    }
  }

  // For instance, starting from cleared registers, programming an invalid module leaves the wrong frequency select bits
  // in the PLL whose other fields it wrote.
  lemma InvalidModuleExample(f: Tuning.LmsFreq, after: seq<Byte>)
    requires f.freqsel as int % 0x40 != 0
    requires OnlyRegs(seq(0x80, _ => 0), after, RetuneRegs(Packet.INVALID) + {0x09})
    requires FieldsOf(after, Packet.INVALID) == Programmed(f)
    ensures PllOf(after, 0x10) != Programmed(f)
  {
    ProgrammedIff(seq(0x80, _ => 0), after, Packet.INVALID, f);
  }

  // The fields are in the PLL of the module if and only if there is such a PLL, or its bits are right already.
  lemma ProgrammedIff(before: seq<Byte>, after: seq<Byte>, m: Packet.Module, f: Tuning.LmsFreq)
    requires OnlyRegs(before, after, RetuneRegs(m) + {0x09}) && FieldsOf(after, m) == Programmed(f)
    ensures PllOf(after, BaseOf(m)) == Programmed(f) <==>
              m != Packet.INVALID || before[0x15] / 4 == f.freqsel as int % 0x40
  {}

  // The first four registers of a PLL.
  method ReadIntFrac(dev: Device, base: nat) returns (status: int, nint: nat, nfrac: nat)
    requires dev.Valid() && IsBase(base)
    modifies dev`trace, dev`failures
    ensures status == 0 ==>
              && nint == Packet.Nint(dev.regs[base], dev.regs[base + 1])
              && nfrac == Packet.Nfrac(dev.regs[base + 1], dev.regs[base + 2], dev.regs[base + 3])
    ensures Reliable(dev) ==> status == 0
    ensures status == 0 ==> dev.failures == old(dev.failures)
  {
    hide Volatile, Packet.Nint, Packet.Nfrac;
    FieldRegisters(base);
    nint, nfrac := 0, 0;
    var b0, b1, b2, b3;
    status, b0 := dev.Read(base);
    if status != 0 {
      return;
    }
    status, b1 := dev.Read(base + 1);
    if status != 0 {
      return;
    }
    status, b2 := dev.Read(base + 2);
    if status != 0 {
      return;
    }
    status, b3 := dev.Read(base + 3);
    nint, nfrac := Packet.Nint(b0, b1), Packet.Nfrac(b1, b2, b3);
  }

  // lms_get_frequency. The divider is a shift by the lower frequency select bits less 3; where that is negative, which
  // C leaves undefined, it is taken to be 0.
  method GetFrequency(dev: Device, m: Packet.Module) returns (status: int, pll: Pll, x: nat)
    requires dev.Valid()
    modifies dev`trace, dev`failures
    ensures status == 0 ==> pll == PllOf(dev.regs, BaseOf(m)) && x == Tuning.Divider(pll.freqsel)
    ensures Reliable(dev) ==> status == 0
    ensures status == 0 ==> dev.failures == old(dev.failures)
  {
    hide Volatile, Packet.Nint, Packet.Nfrac, Tuning.Divider, Shl;
    var base: nat := BaseOf(m);
    FieldRegisters(base);
    pll, x := Pll(0, 0, 0, 0), 0;
    var nint, nfrac, config, vcocap;
    status, nint, nfrac := ReadIntFrac(dev, base);
    if status != 0 {
      return;
    }
    status, config := dev.Read(base + 5);
    if status != 0 {
      return;
    }
    status, vcocap := dev.Read(base + 9);
    pll := Pll(nint, nfrac, config / 4, vcocap % 0x40);
    if pll.freqsel % 8 >= 3 {
      Tuning.DividerIsShift(pll.freqsel);
      x := Shl(1, pll.freqsel % 8 - 3);
    } else {
      DividerBound(pll.freqsel);
    }
  }

  lemma FieldRegisters(base: nat)
    requires IsBase(base)
    ensures base % 0x80 == base && (base + 1) % 0x80 == base + 1 && (base + 2) % 0x80 == base + 2
    ensures (base + 3) % 0x80 == base + 3 && (base + 5) % 0x80 == base + 5 && (base + 9) % 0x80 == base + 9
    ensures !Volatile(base) && !Volatile(base + 1) && !Volatile(base + 2)
    ensures !Volatile(base + 3) && !Volatile(base + 5) && !Volatile(base + 9)
  {}

  lemma DividerBound(freqsel: nat)
    ensures Tuning.Divider(freqsel) <= 16 && (Tuning.Divider(freqsel) > 0 <==> freqsel % 8 >= 3)
  {}

  predicate HoldsPll(f: Tuning.LmsFreq, pll: Pll)
    reads f
  {
    && f.nint as int == pll.nint && f.nfrac as int == pll.nfrac
    && f.freqsel as int == pll.freqsel && f.vcocap as int == pll.vcocap
  }

  // lms_get_quick_tune: the fields of a PLL, with the flags that have them used as they are.
  method GetQuickTune(dev: Device, m: Packet.Module) returns (status: int, f: Tuning.LmsFreq)
    requires dev.Valid() && PllOf(dev.regs, BaseOf(m)).freqsel % 8 >= 3
    modifies dev`trace, dev`failures
    ensures fresh(f)
    ensures status == 0 ==> HoldsPll(f, PllOf(dev.regs, BaseOf(m))) && ForceVcocap(f)
    ensures var pll := PllOf(dev.regs, BaseOf(m));
            status == 0 ==>
              (LowBand(f) <==> Tuning.ToHz(Tuning.Divider(pll.freqsel), pll.nint, pll.nfrac) < 1500000000)
    ensures Reliable(dev) ==> status == 0
    ensures status == 0 ==> dev.failures == old(dev.failures)
  {
    hide PllOf, Tuning.ToHz, Tuning.Divider, Tuning.FitsWidths;
    DividerBound(PllOf(dev.regs, BaseOf(m)).freqsel);
    FieldWidths(dev.regs, BaseOf(m));
    f := new Tuning.LmsFreq();
    var pll, x;
    status, pll, x := GetFrequency(dev, m);
    if status == 0 {
      f.freqsel := pll.freqsel as Tuning.uint8;
      f.vcocap := pll.vcocap as Tuning.uint8;
      f.nint := pll.nint as Tuning.uint16;
      f.nfrac := pll.nfrac as Tuning.uint32;
      f.flags := Tuning.FLAG_FORCE_VCOCAP as Tuning.uint8;
      Tuning.FieldsFit(x, pll.nint, pll.nfrac);
      var hz := Tuning.FrequencyToHz(x as Tuning.uint8, f.nint, f.nfrac);
      if hz < Tuning.BAND_HIGH as Tuning.uint32 {
        f.flags := f.flags + Tuning.FLAG_LOW_BAND as Tuning.uint8;
      }
    }
  }

  lemma FieldWidths(regs: seq<Byte>, base: nat)
    requires |regs| == 0x80 && IsBase(base)
    ensures var pll := PllOf(regs, base);
            pll.nint < 0x200 && pll.nfrac < 0x80_0000 && pll.freqsel < 0x40 && pll.vcocap < 0x40
  {}

  // Programming what was read back restores every field, whatever the PLL was tuned to in between.
  lemma QuickTuneRestores(regs: seq<Byte>, m: Packet.Module, f: Tuning.LmsFreq)
    requires |regs| == 0x80 && HoldsPll(f, PllOf(regs, BaseOf(m))) && f.vcocapResult == f.vcocap
    ensures Programmed(f) == PllOf(regs, BaseOf(m))
  {
    hide PllOf;
    FieldWidths(regs, BaseOf(m));
  }

  // What the rest of the chip keeps through a retune of one PLL.
  lemma RetuneGuards(before: seq<Byte>, after: seq<Byte>, m: Packet.Module, f: Tuning.LmsFreq)
    requires OnlyRegs(before, after, RetuneRegs(m) + {0x09})
    requires after[ConfigReg(m)] == before[ConfigReg(m)] || SelectsFor(before, after, m, f)
    ensures ModeOf(after) == ModeOf(before) && after[0x44] == before[0x44] && after[0x75] == before[0x75]
    ensures ModeOf(before) != NONE ==>
              && OutputBuffer(after, 0x10) == OutputBuffer(before, 0x10)
              && OutputBuffer(after, 0x20) == OutputBuffer(before, 0x20)
    ensures f.freqsel as int % 8 >= 3 && Tuned(before) ==> Tuned(after)
  {
    hide ModeFrom, PllConfig;
    assert after[0x08] == before[0x08] && after[0x46] == before[0x46];
    assert ConfigReg(m) == 0x15 ==> after[0x25] == before[0x25];
    assert ConfigReg(m) == 0x25 ==> after[0x15] == before[0x15];
    ConfigFields(before[ConfigReg(m)], f.freqsel as int, LowBand(f));
  }

  lemma ConfigFields(regval: Byte, freqsel: nat, lowBand: bool)
    ensures PllConfig(regval, freqsel, true, lowBand) % 4 == regval % 4
    ensures PllConfig(regval, freqsel, false, lowBand) % 4 == if lowBand then 1 else 2
    ensures forall on: bool :: PllConfig(regval, freqsel, on, lowBand) / 4 == freqsel % 0x40
    ensures freqsel % 0x40 % 8 == freqsel % 8
  {
    UpperAndLower(freqsel % 0x40, regval % 4);
    UpperAndLower(freqsel % 0x40, if lowBand then 1 else 2);
    LowerOfLower(freqsel);
  }

  lemma UpperAndLower(upper: nat, lower: nat)
    requires lower < 4
    ensures (upper * 4 + lower) / 4 == upper && (upper * 4 + lower) % 4 == lower
  {}

  lemma LowerOfLower(v: nat)
    ensures v % 0x40 % 8 == v % 8
  {
    var q, r := v / 0x40, v % 0x40;
    RemainderIs(r, 8, r / 8, r % 8);
    RemainderIs(v, 8, 8 * q + r / 8, r % 8);
  }

  // The buffer bits a retune leaves: the band's, unless loopback keeps them.
  lemma BufferSelected(before: seq<Byte>, after: seq<Byte>, m: Packet.Module, f: Tuning.LmsFreq)
    requires |before| == |after| == 0x80 && SelectsFor(before, after, m, f) && ModeOf(before) == NONE
    ensures after[ConfigReg(m)] % 4 == if LowBand(f) then 1 else 2
  {
    hide ModeOf, PllConfig;
    ConfigFields(before[ConfigReg(m)], f.freqsel as int, LowBand(f));
  }

  // lms_set_frequency; the status of the calculation is always success.
  method SetFrequency(dev: Device, m: Packet.Module, freq: nat, ghost h: int, ghost l: int)
    returns (status: int)
    requires dev.Valid() && freq < 0x1_0000_0000
    modifies dev`trace, dev`failures, dev`regs
    ensures dev.Valid()
    ensures OnlyRegs(old(dev.regs), dev.regs, RetuneRegs(m) + {0x09}) && KeepsUpper(m, old(dev.regs), dev.regs)
    ensures var p, pll := Tuning.ParamsFor(freq), FieldsOf(dev.regs, m);
            status == 0 ==> pll.nint == p.nint && pll.nfrac == p.nfrac % 0x80_0000 && pll.freqsel == p.freqsel
    ensures status == 0 ==> Bracketed(old(dev.trace), dev.trace)
    ensures ModeOf(dev.regs) == ModeOf(old(dev.regs))
    ensures status == 0 && ModeOf(dev.regs) == NONE ==>
              dev.regs[ConfigReg(m)] % 4 == if Tuning.ParamsFor(freq).lowBand then 1 else 2
    ensures ModeOf(dev.regs) != NONE ==>
              && OutputBuffer(dev.regs, 0x10) == OutputBuffer(old(dev.regs), 0x10)
              && OutputBuffer(dev.regs, 0x20) == OutputBuffer(old(dev.regs), 0x20)
    ensures Tuned(old(dev.regs)) ==> Tuned(dev.regs)
    ensures Ideal(dev, BaseOf(m), h, l) ==>
              && (status == 0 <==> FirstWalk(h, l, Tuning.HintFor(freq)) <= 20)
              && (status == 0 ==> FieldsOf(dev.regs, m).vcocap == Middle(h, l))
    ensures status == 0 ==> dev.failures == old(dev.failures)
  {
    hide ModeOf, PllOf, FieldsOf, FirstWalk, Middle, Region, RetuneRegs, SelectsFor, Tuned, OutputBuffer, KeepsUpper;
    hide Tuning.ParamsFor, Tuning.HintFor, Tuning.VcoLow, Tuning.VcoHigh, Tuning.CarryLost;
    hide Programs, Bracketed, Ideal, ClearBits, SetBits, AndNot;
    var f := new Tuning.LmsFreq();
    var calculated := Tuning.CalculateTuningParams(freq as Tuning.uint32, f);
    Tuning.FieldsInRange(freq);
    Tuning.VcoInRange(freq);
    DividerBits(f.freqsel as int);
    status := SetPrecalculatedFrequency(dev, m, f, h, l);
    RetuneGuards(old(dev.regs), dev.regs, m, f);
    if status == 0 && ModeOf(old(dev.regs)) == NONE {
      BufferSelected(old(dev.regs), dev.regs, m, f);
    }
  }

  lemma DividerBits(freqsel: nat)
    ensures Tuning.Divider(freqsel) > 0 ==> freqsel % 8 >= 3
  {}

  // ---- What a retune leaves in the hardware ----

  function ReadBackHz(freq: nat): nat {
    var p := Tuning.ParamsFor(freq);
    Tuning.VcoInRange(freq);
    Tuning.ToHz(p.x, p.nint, p.nfrac % 0x80_0000)
  }

  // The frequency the registers stand for is the requested one to within 1 Hz, and exactly up to 950 MHz -- unless the
  // fractional part rounds up to 2^23, which its 23-bit field cannot hold: then the PLL is tuned 19.2 MHz too low.
  lemma ReadBack(freq: nat)
    ensures !Tuning.CarryLost(freq) ==> Tuning.Clamp(freq) - 1 <= ReadBackHz(freq) <= Tuning.Clamp(freq) + 1
    ensures Tuning.Clamp(freq) <= 950000000 ==> ReadBackHz(freq) == Tuning.Clamp(freq)
    ensures Tuning.CarryLost(freq) ==> ReadBackHz(freq) == Tuning.Clamp(freq) - 19199999
  {
    Tuning.FieldsInRange(freq);
    Tuning.RoundTrip(freq);
    Tuning.VcoInRange(freq);
    hide Tuning.ToHz, Tuning.VcoLow, Tuning.VcoHigh, Tuning.Fraction, Tuning.RowFor, Tuning.Divider;
    var p := Tuning.ParamsFor(freq);
    if Tuning.CarryLost(freq) {
      WholeClocks(p.nint, Tuning.Clamp(freq));
    }
  }

  lemma WholeClocks(nint: nat, f: nat)
    requires nint == 2 * f / Tuning.REFERENCE_HZ && 2 * f % Tuning.REFERENCE_HZ == 38399998 && nint < 200
    ensures Tuning.ToHz(2, nint, 0) == f - 19199999
  {
    assert 2 * f == Tuning.REFERENCE_HZ * nint + 38399998;
    assert Tuning.Rounded(Tuning.REFERENCE_HZ * (nint * 0x80_0000), 0x100_0000) == 19200000 * nint;
  }

  // Such frequencies exist.
  lemma CarryLostExample()
    ensures Tuning.CarryLost(1919999999)
  {}

  // The tuning parameters of a frequency survive the register fields, and the retune packet, in every other case and
  // only in those.
  lemma ParamsSurviveIff(freq: nat, m: Packet.Module, timestamp: nat, vcocap: nat, lowBand: bool, quickTune: bool)
    requires timestamp < 0x1_0000_0000_0000_0000 && vcocap <= Tuning.VCOCAP_MAX_VALUE
    ensures var p := Tuning.ParamsFor(freq);
            var request := Packet.Request(m, timestamp, p.nint, p.nfrac, p.freqsel, vcocap, lowBand, quickTune);
            && Packet.Typed(request)
            && (Packet.Decode(Packet.Encode(request)) == request <==> !Tuning.CarryLost(freq))
            && (p.nint % 0x200 == p.nint && p.nfrac % 0x80_0000 == p.nfrac && p.freqsel % 0x40 == p.freqsel
                <==> !Tuning.CarryLost(freq))
  {
    Tuning.FieldsInRange(freq);
    Tuning.VcoInRange(freq);
    hide Tuning.ParamsFor, Packet.Encode, Packet.Decode, Tuning.VcoLow, Tuning.VcoHigh;
    var p := Tuning.ParamsFor(freq);
    Packet.SurvivesIff(Packet.Request(m, timestamp, p.nint, p.nfrac, p.freqsel, vcocap, lowBand, quickTune));
  }

  // The frequency that the fields of a PLL stand for.
  function HzOf(pll: Pll): nat
    requires Tuning.Divider(pll.freqsel) > 0
  {
    Tuning.ToHz(Tuning.Divider(pll.freqsel), pll.nint, pll.nfrac)
  }

  // The fields describe a frequency that some VCO can produce.
  predicate InVcoRange(pll: Pll) {
    && Tuning.Divider(pll.freqsel) in {2, 4, 8, 16}
    && Tuning.VCO4_LOW * 0x80_0000 <= Tuning.REFERENCE_HZ * (pll.nint * 0x80_0000 + pll.nfrac)
    && Tuning.REFERENCE_HZ * (pll.nint * 0x80_0000 + pll.nfrac) <= Tuning.VCO1_HIGH * 0x80_0000
  }

  // Where a rounded quotient lies, given where the dividend lies.
  lemma QuotientBounds(x: nat, exact: nat, hz: nat)
    requires x in {2, 4, 8, 16}
    requires Tuning.VCO4_LOW * 0x80_0000 <= exact <= Tuning.VCO1_HIGH * 0x80_0000
    requires x * 0x80_0000 * hz <= exact + x * 0x40_0000 < x * 0x80_0000 * hz + x * 0x80_0000
    ensures Tuning.FREQUENCY_MIN <= hz <= Tuning.FREQUENCY_MAX && (x >= 4 ==> hz <= 1900000000)
  {}

  // Rounding the fraction of a 23-bit field never reaches the last Hz before a multiple of 19.2 MHz.
  lemma FractionNeverCarries(nint: nat, nfrac: nat, hz: nat)
    requires nfrac < 0x80_0000
    requires var exact := Tuning.REFERENCE_HZ * (nint * 0x80_0000 + nfrac);
             0x100_0000 * hz <= exact + 0x80_0000 < 0x100_0000 * hz + 0x100_0000
    ensures hz % 19200000 != 19199999
  {
    var t := hz - 19200000 * nint;
    assert 0x100_0000 * t <= Tuning.REFERENCE_HZ * nfrac + 0x80_0000 < 0x100_0000 * t + 0x100_0000;
    assert 0 <= t <= 19199998;
  }

  lemma ClosestFits(x: nat, coeff: nat)
    requires x in {2, 4, 8, 16} && Tuning.REFERENCE_HZ * coeff <= Tuning.VCO1_HIGH * 0x80_0000
    ensures Tuning.REFERENCE_HZ * coeff < x * 0x80_0000 * 0xFFFF_FFFF && x * 0x80_0000 / 2 == x * 0x40_0000
  {}

  // Setting a PLL to the frequency it has keeps that frequency to within 1 Hz; the fraction cannot be lost.
  lemma FrequencyKept(pll: Pll)
    requires pll.nfrac < 0x80_0000 && InVcoRange(pll)
    ensures var hz := HzOf(pll);
            Tuning.Clamp(hz) == hz && !Tuning.CarryLost(hz) && hz - 1 <= ReadBackHz(hz) <= hz + 1
  {
    hide Tuning.ToHz, Tuning.Divider, Tuning.VcoLow, Tuning.VcoHigh, Tuning.ParamsFor, ReadBackHz;
    var x, hz := Tuning.Divider(pll.freqsel), HzOf(pll);
    ClosestFits(x, pll.nint * 0x80_0000 + pll.nfrac);
    Tuning.ToHzIsClosest(x, pll.nint, pll.nfrac);
    QuotientBounds(x, Tuning.REFERENCE_HZ * (pll.nint * 0x80_0000 + pll.nfrac), hz);
    if x == 2 {
      FractionNeverCarries(pll.nint, pll.nfrac, hz);
    }
    ReadBack(hz);
  }

  // A lost fraction can leave a PLL with a frequency that no VCO produces.
  lemma CarryLeavesRange()
    ensures var p := Tuning.ParamsFor(1900799999);
            && Tuning.CarryLost(1900799999) && p.nint == 98 && p.nfrac % 0x80_0000 == 0
            && forall vcocap: nat :: !InVcoRange(Pll(p.nint, 0, p.freqsel, vcocap))
  {
    Tuning.VcoInRange(1900799999);
    Tuning.FieldsInRange(1900799999);
    hide Tuning.RowFor, Tuning.Bands, Tuning.Divider, Tuning.Fraction, Tuning.VcoLow, Tuning.VcoHigh;
  }
}
