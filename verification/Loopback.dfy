/** The loopback modes: the sequence that connects a loopback path, and why a retune or a band change made meanwhile
    leaves it connected. */
module Loopback {
  import opened BitOps
  import opened LmsDevice
  import opened Vcocap
  import opened Retune
  import Tuning
  import Packet = RetunePacket

  datatype Pa = PA_AUX | PA_1 | PA_2 | PA_NONE

  const PA_MASK := 0x1E
  const LNA_MASK := 0x30

  // PA_EN[2:0], and the bit that powers the auxiliary PA down.
  function PaBits(pa: Pa): nat {
    match pa case PA_AUX => 0 case PA_1 => 0x0A case PA_2 => 0x12 case PA_NONE => 0x02
  }

  function PaField(regs: seq<Byte>): nat
    requires |regs| == 0x80
  {
    And(regs[0x44], PA_MASK)
  }

  function LnaField(regs: seq<Byte>): nat
    requires |regs| == 0x80
  {
    And(regs[0x75], LNA_MASK)
  }

  // ---- What a mode establishes, and what it may change ----

  // The bits that power, enable or bypass the RX blocks.
  datatype RxState = RxState(
    vga1Off: bool, vga2On: bool, lnaOff: bool, lnaDecode: bool, lpfEnabled: bool, lpfBypassed: bool, rfSwitch: bool)

  function RxStateOf(regs: seq<Byte>): RxState
    requires |regs| == 0x80
  {
    RxState(Bit(regs[0x7d], 3), Bit(regs[0x64], 1), Bit(regs[0x7d], 0), Bit(regs[0x70], 1), Bit(regs[0x54], 1),
            Bit(regs[0x55], 6), Bit(regs[0x0b], 0))
  }

  datatype LpfMode = LPF_NORMAL | LPF_BYPASSED | LPF_DISABLED

  // The filter is enabled by one bit and bypassed by another; both at once is an error.
  predicate LpfIs(s: RxState, mode: LpfMode) {
    s.lpfEnabled == (mode == LPF_NORMAL) && s.lpfBypassed == (mode == LPF_BYPASSED)
  }

  // The combination that stands for no mode of the filter.
  predicate LpfMixed(s: RxState) {
    s.lpfEnabled && s.lpfBypassed
  }

  // The signal goes through the filter or around it.
  predicate LpfInPath(s: RxState) {
    s.lpfEnabled != s.lpfBypassed
  }

  predicate IsRf(mode: Mode) {
    mode == RF_LNA1 || mode == RF_LNA2 || mode == RF_LNA3
  }

  // mode - BLADERF_LB_RF_LNA1 + 1
  function LnaOf(mode: Mode): nat {
    match mode case RF_LNA1 => 1 case RF_LNA2 => 2 case RF_LNA3 => 3 case _ => 0
  }

  // What a mode needs of the RX blocks: the amplifier or filter whose input is taken over must not drive it, and
  // everything after it must be on.
  predicate RxReady(mode: Mode, s: RxState) {
    match mode
    case TXLPF_RXVGA2 => s.vga2On && LpfIs(s, LPF_DISABLED)
    case TXVGA1_RXVGA2 => s.vga2On && LpfIs(s, LPF_DISABLED)
    case TXLPF_RXLPF => s.vga1Off && s.vga2On && LpfInPath(s)
    case TXVGA1_RXLPF => s.vga1Off && s.vga2On && LpfInPath(s)
    case NONE => !s.vga1Off && s.vga2On && LpfInPath(s) && !s.rfSwitch && !s.lnaOff && !s.lnaDecode
    case FIRMWARE => false
    case _ => !s.vga1Off && s.vga2On && LpfInPath(s) && s.lnaOff && s.lnaDecode
  }

  // With the RF loopback switch closed for an RF loopback.
  predicate RxConnected(mode: Mode, s: RxState) {
    RxReady(mode, s) && (mode == RF_LNA1 || mode == RF_LNA2 || mode == RF_LNA3 ==> s.rfSwitch)
  }

  // Whether the frequency in a PLL's registers belongs to the low band.
  predicate BandIsLow(regs: seq<Byte>, base: nat)
    requires |regs| == 0x80 && IsBase(base)
  {
    var pll := PllOf(regs, base);
    Tuning.Divider(pll.freqsel) > 0 && HzOf(pll) < 1500000000
  }

  predicate BandSelected(regs: seq<Byte>, m: Packet.Module, low: bool)
    requires |regs| == 0x80
  {
    if m == Packet.TX then PaField(regs) == PaBits(if low then PA_1 else PA_2)
    else LnaField(regs) == if low then 0x10 else 0x20
  }

  // The PLL has the nearest valid frequency to the one it had, to within 1 Hz, unless the fraction was lost.
  predicate SameHz(before: Pll, after: Pll) {
    Tuning.Divider(before.freqsel) > 0 ==>
      && Tuning.Divider(after.freqsel) > 0
      && var hz := HzOf(before);
         if Tuning.CarryLost(hz) then HzOf(after) == Tuning.Clamp(hz) - 19199999
         else Tuning.Clamp(hz) - 1 <= HzOf(after) <= Tuning.Clamp(hz) + 1
  }

  // The PA or LNA, the PLL's output buffer and its frequency are what they should be without loopback.
  predicate Restored(before: seq<Byte>, after: seq<Byte>, m: Packet.Module)
    requires |before| == |after| == 0x80
  {
    var low := BandIsLow(before, BaseOf(m));
    && BandSelected(after, m, low)
    && OutputBuffer(after, BaseOf(m)) == (if low then 1 else 2)
    && SameHz(PllOf(before, BaseOf(m)), PllOf(after, BaseOf(m)))
  }

  // Registers 0x08 and 0x46 connect the loopback path of a mode, by bits 6 to 0 and bits 3 and 2.
  predicate PathIs(mode: Mode, lbenLbrf: Byte, loopbben: Byte) {
    var path, txlpf, txvga1 := lbenLbrf % 0x80, Bit(loopbben, 2), Bit(loopbben, 3);
    match mode
    case TXLPF_RXVGA2 => path == 0x20 && txlpf && !txvga1
    case TXVGA1_RXVGA2 => path == 0x20 && !txlpf && txvga1
    case TXLPF_RXLPF => path == 0x40 && txlpf && !txvga1
    case TXVGA1_RXLPF => path == 0x40 && !txlpf && txvga1
    case RF_LNA1 => path == 1 && !txlpf && !txvga1
    case RF_LNA2 => path == 2 && !txlpf && !txvga1
    case RF_LNA3 => path == 3 && !txlpf && !txvga1
    case NONE => path == 0 && !txlpf && !txvga1
    case FIRMWARE => false
  }

  predicate PathConnected(mode: Mode, regs: seq<Byte>)
    requires |regs| == 0x80
  {
    PathIs(mode, regs[0x08], regs[0x46])
  }

  // How the path, RX blocks, PA, LNA and the PLLs are once a mode is established, given how they were before. The LNA
  // and the RX PLL's output buffer of an RF loopback are those of the path.
  ghost predicate Established(mode: Mode, before: seq<Byte>, after: seq<Byte>)
    requires |before| == |after| == 0x80
  {
    && PathConnected(mode, after) && RxConnected(mode, RxStateOf(after))
    && if mode == NONE then Restored(before, after, Packet.TX) && Restored(before, after, Packet.RX)
       else if after[0x08] % 8 != 0 then
         && PaField(after) == PaBits(PA_AUX) && LnaField(after) == after[0x08] % 8 * 0x10
         && OutputBuffer(after, 0x20) == after[0x08] % 8
       else
         PaField(after) == PaBits(PA_NONE) && LnaField(after) == 0
  }

  const LOOPBBEN_MASK := 0x0c
  const LBRFEN_LBEN_MASK := 0x7f

  predicate RxBlock(addr: nat) {
    addr == 0x54 || addr == 0x55 || addr == 0x64 || addr == 0x70 || addr == 0x7d || addr == 0x0b
  }

  // The bits of each block register that stand for the state above.
  function RxMask(addr: nat): nat {
    match addr
    case 0x7d => 0x09
    case 0x64 => 0x02
    case 0x70 => 0x02
    case 0x54 => 0x02
    case 0x55 => 0x40
    case 0x0b => 0x01
    case _ => 0
  }

  // The bits of a register that belong to the PLLs.
  function PllMask(a: nat): nat {
    if a == 0x09 then 0x05
    else if a == 0x19 || a == 0x29 then 0x3f
    else if a in PllRegs(0x10) + PllRegs(0x20) then 0xff
    else 0
  }

  // The bits of a register that setting a mode may change. Only leaving loopback retunes the PLLs.
  function MayChange(mode: Mode, a: nat): nat {
    if a == 0x44 then 0x1E
    else if a == 0x75 then 0x30
    else if a == 0x46 then 0x0c
    else if a == 0x08 then 0x7f
    else if RxBlock(a) then RxMask(a)
    else if mode == NONE then PllMask(a)
    else if a == 0x25 && IsRf(mode) then 0x03
    else 0
  }

  // All other bits of all registers are the same.
  ghost predicate OnlyFor(mode: Mode, before: seq<Byte>, after: seq<Byte>) {
    && |before| == |after| == 0x80
    && forall a :: 0 <= a < 0x80 ==> AndNot(after[a], MayChange(mode, a)) == AndNot(before[a], MayChange(mode, a))
  }

  // ---- What one operation may do, and what loopback guards ----

  datatype Op = SetLoopback(mode: Mode) | Retune(mod: Packet.Module) | Select(mod: Packet.Module, lowBand: bool)

  // Nothing but the PLLs' frequencies has changed; PA, LNA, RX blocks and both PLLs' output buffers are the same.
  ghost predicate Guarded(before: seq<Byte>, after: seq<Byte>) {
    && OnlyRegs(before, after, PllRegs(0x10) + PllRegs(0x20) + {0x09})
    && OutputBuffer(after, 0x10) == OutputBuffer(before, 0x10)
    && OutputBuffer(after, 0x20) == OutputBuffer(before, 0x20)
  }

  // What one operation may do to the registers, on a reliable bus.
  ghost predicate Step(op: Op, status: int, before: seq<Byte>, after: seq<Byte>) {
    && |before| == |after| == 0x80
    && match op
       case SetLoopback(FIRMWARE) => status != 0 && after == before
       case SetLoopback(mode) =>
         && OnlyFor(mode, before, after)
         && (mode != NONE ==> (status == 0 <==> !LpfMixed(RxStateOf(before))))
         && if status == 0 then ModeOf(after) == mode && Established(mode, before, after) else ModeOf(after) == NONE
       case Retune(_) => ModeOf(after) == ModeOf(before) && (ModeOf(before) != NONE ==> Guarded(before, after))
       case Select(_, _) => ModeOf(after) == ModeOf(before) && (ModeOf(before) != NONE ==> Guarded(before, after))
  }

  // ---- PA and LNA selection ----

  lemma Masks(i: nat)
    ensures Bit(PA_MASK, i) == (1 <= i < 5)
    ensures Bit(0x1C, i) == (2 <= i < 5)
    ensures Bit(LNA_MASK, i) == (4 <= i < 6)
    ensures Bit(0x02, i) == (i == 1) && Bit(0x08, i) == (i == 3) && Bit(0x10, i) == (i == 4) && Bit(0x20, i) == (i == 5)
  {
    ShlConstants(0);
    assert Pow2(1) == 2 && Pow2(3) == 8 && Pow2(4) == 16 && Pow2(5) == 32;
    hide Bit, Pow2;
    FieldMaskBit(1, 5, i);
    FieldMaskBit(2, 5, i);
    FieldMaskBit(4, 6, i);
    Pow2Bit(1, i);
    Pow2Bit(3, i);
    Pow2Bit(4, i);
    Pow2Bit(5, i);
  }

  function PaValue(data: Byte, pa: Pa): Byte {
    var off := SetBits(ClearBits(data, 0x1C), 0x02);
    match pa
    case PA_AUX => ClearBits(off, 0x02)
    case PA_1 => SetBits(off, 0x08)
    case PA_2 => SetBits(off, 0x10)
    case PA_NONE => off
  }

  lemma PaBitsAt(pa: Pa, i: nat)
    ensures Bit(PaBits(pa), i) == match pa
                                  case PA_AUX => false
                                  case PA_1 => i == 1 || i == 3
                                  case PA_2 => i == 1 || i == 4
                                  case PA_NONE => i == 1
  {
    Masks(i);
    ZeroBit(i);
    assert Or(0x02, 0x08) == 0x0A && Or(0x02, 0x10) == 0x12;
    hide Bit;
    OrBit(0x02, 0x08, i);
    OrBit(0x02, 0x10, i);
  }

  lemma PaSelected(data: Byte, pa: Pa)
    ensures And(PaValue(data, pa), PA_MASK) == PaBits(pa)
    ensures AndNot(PaValue(data, pa), PA_MASK) == AndNot(data, PA_MASK)
  {
    var r := PaValue(data, pa);
    var off := SetBits(ClearBits(data, 0x1C), 0x02);
    forall i: nat
      ensures Bit(And(r, PA_MASK), i) == Bit(PaBits(pa), i)
      ensures Bit(AndNot(r, PA_MASK), i) == Bit(AndNot(data, PA_MASK), i)
    {
      hide Bit, And, Or, AndNot, PaBits;
      Masks(i);
      PaBitsAt(pa, i);
      AndNotBit(data, 0x1C, i);
      OrBit(ClearBits(data, 0x1C), 0x02, i);
      AndNotBit(off, 0x02, i);
      OrBit(off, 0x08, i);
      OrBit(off, 0x10, i);
      AndBit(r, PA_MASK, i);
      AndNotBit(r, PA_MASK, i);
      AndNotBit(data, PA_MASK, i);
    }
    hide Bit, And, Or, AndNot, PaBits, PaValue;
    SameBits(And(r, PA_MASK), PaBits(pa));
    SameBits(AndNot(r, PA_MASK), AndNot(data, PA_MASK));
  }

  method SelectPa(dev: Device, pa: Pa) returns (status: int)
    requires dev.Valid()
    modifies dev`trace, dev`failures, dev`regs
    ensures dev.Valid()
    ensures OnlyRegs(old(dev.regs), dev.regs, {0x44})
    ensures status == 0 ==> PaField(dev.regs) == PaBits(pa)
    ensures AndNot(dev.regs[0x44], PA_MASK) == AndNot(old(dev.regs)[0x44], PA_MASK)
    ensures Reliable(dev) ==> status == 0
    ensures status == 0 ==> dev.failures == old(dev.failures)
  {
    hide And, AndNot, PaValue, PaBits;
    var data;
    status, data := dev.Read(0x44);
    PaSelected(data, pa);
    if status == 0 {
      status := dev.Write(0x44, PaValue(data, pa));
    }
  }

  lemma LnaSelected(data: Byte, lna: nat)
    requires lna < 4
    ensures And(SetBits(ClearBits(data, LNA_MASK), lna * 0x10), LNA_MASK) == lna * 0x10
    ensures AndNot(SetBits(ClearBits(data, LNA_MASK), lna * 0x10), LNA_MASK) == AndNot(data, LNA_MASK)
  {
    forall i: nat
      ensures Bit(lna * 0x10, i) ==> Bit(LNA_MASK, i)
    {
      Masks(i);
      ZeroBit(i);
      assert Or(0x10, 0x20) == 0x30;
      hide Bit, Or;
      OrBit(0x10, 0x20, i);
    }
    hide Bit, And, Or, AndNot;
    FieldSet(data, LNA_MASK, lna * 0x10);
  }

  method SelectLna(dev: Device, lna: nat) returns (status: int)
    requires dev.Valid() && lna < 4
    modifies dev`trace, dev`failures, dev`regs
    ensures dev.Valid()
    ensures OnlyRegs(old(dev.regs), dev.regs, {0x75})
    ensures status == 0 ==> LnaField(dev.regs) == lna * 0x10
    ensures AndNot(dev.regs[0x75], LNA_MASK) == AndNot(old(dev.regs)[0x75], LNA_MASK)
    ensures Reliable(dev) ==> status == 0
    ensures status == 0 ==> dev.failures == old(dev.failures)
  {
    hide And, AndNot, SetBits, ClearBits;
    var data;
    status, data := dev.Read(0x75);
    LnaSelected(data, lna);
    if status == 0 {
      status := dev.Write(0x75, SetBits(ClearBits(data, LNA_MASK), lna * 0x10));
    }
  }

  // Band selection leaves the PA and the LNA alone while loopback is on.
  method SelectBand(dev: Device, m: Packet.Module, lowBand: bool) returns (status: int)
    requires dev.Valid()
    modifies dev`trace, dev`failures, dev`regs
    ensures dev.Valid()
    ensures OnlyRegs(old(dev.regs), dev.regs, if m == Packet.TX then {0x44} else {0x75})
    ensures ModeOf(old(dev.regs)) != NONE ==> dev.regs == old(dev.regs)
    ensures status == 0 && ModeOf(old(dev.regs)) == NONE ==>
              if m == Packet.TX then PaField(dev.regs) == PaBits(if lowBand then PA_1 else PA_2)
              else LnaField(dev.regs) == if lowBand then 0x10 else 0x20
    ensures AndNot(dev.regs[0x44], PA_MASK) == AndNot(old(dev.regs)[0x44], PA_MASK)
    ensures AndNot(dev.regs[0x75], LNA_MASK) == AndNot(old(dev.regs)[0x75], LNA_MASK)
    ensures Reliable(dev) ==> status == 0
    ensures Step(Select(m, lowBand), status, old(dev.regs), dev.regs)
    ensures status == 0 ==> dev.failures == old(dev.failures)
  {
    hide ModeOf, PaField, LnaField, AndNot, Step;
    ghost var before := dev.regs;
    status := IsLoopbackEnabled(dev);
    NothingChanged(before, if m == Packet.TX then {0x44} else {0x75});
    if status != 0 {
      SelectIsStep(m, lowBand, if status < 0 then status else 0, before, dev.regs);
      return if status < 0 then status else 0;
    }
    if m == Packet.TX {
      status := SelectPa(dev, if lowBand then PA_1 else PA_2);
    } else {
      status := SelectLna(dev, if lowBand then 1 else 2);
    }
    SelectIsStep(m, lowBand, status, before, dev.regs);
  }

  lemma NothingChanged(regs: seq<Byte>, s: set<nat>)
    requires |regs| == 0x80
    ensures OnlyRegs(regs, regs, s)
  {}

  lemma SelectIsStep(m: Packet.Module, lowBand: bool, status: int, before: seq<Byte>, after: seq<Byte>)
    requires OnlyRegs(before, after, if m == Packet.TX then {0x44} else {0x75})
    requires ModeOf(before) != NONE ==> after == before
    ensures Step(Select(m, lowBand), status, before, after)
  {}

  // ---- The RX blocks along the path ----

  // Nothing but these bits changed.
  ghost predicate OnlyRxBits(before: seq<Byte>, after: seq<Byte>) {
    && |before| == |after| == 0x80
    && (forall a :: 0 <= a < 0x80 && !RxBlock(a) ==> after[a] == before[a])
    && (forall a :: 0 <= a < 0x80 && RxBlock(a) ==> AndNot(after[a], RxMask(a)) == AndNot(before[a], RxMask(a)))
  }

  // One bit of one register was switched.
  ghost predicate Switched(before: seq<Byte>, after: seq<Byte>, addr: nat, n: nat, on: bool) {
    && OnlyRegs(before, after, {addr}) && addr < 0x80
    && forall i: nat :: Bit(after[addr], i) == if i == n then on else Bit(before[addr], i)
  }

  lemma BitSwitched(data: Byte, n: nat)
    requires n < 8
    ensures Pow2(n) < 0x100
    ensures forall i: nat :: Bit(Or(data, Pow2(n)), i) == (i == n || Bit(data, i))
    ensures forall i: nat :: Bit(AndNot(data, Pow2(n)), i) == (i != n && Bit(data, i))
  {
    hide Bit, Or, AndNot, Pow2;
    SmallPower(n);
    forall i: nat
      ensures Bit(Or(data, Pow2(n)), i) == (i == n || Bit(data, i))
      ensures Bit(AndNot(data, Pow2(n)), i) == (i != n && Bit(data, i))
    {
      OrBit(data, Pow2(n), i);
      AndNotBit(data, Pow2(n), i);
      Pow2Bit(n, i);
    }
  }

  lemma SmallPower(n: nat)
    requires n < 8
    ensures Pow2(n) < 0x100
  {
    assert Pow2(1) == 2 && Pow2(2) == 4 && Pow2(3) == 8 && Pow2(4) == 16;
    assert Pow2(5) == 32 && Pow2(6) == 64 && Pow2(7) == 128;
  }

  method SwitchBit(dev: Device, addr: Byte, n: nat, on: bool) returns (status: int)
    requires dev.Valid() && addr < 0x80 && !Volatile(addr) && n < 8
    modifies dev`trace, dev`failures, dev`regs
    ensures dev.Valid()
    ensures if status == 0 then Switched(old(dev.regs), dev.regs, addr, n, on) else dev.regs == old(dev.regs)
    ensures AndNot(dev.regs[addr], Pow2(n)) == AndNot(old(dev.regs)[addr], Pow2(n))
    ensures Reliable(dev) ==> status == 0
    ensures status == 0 ==> dev.failures == old(dev.failures)
  {
    hide Bit, Or, AndNot, Pow2;
    BitSwitched(dev.regs[addr], n);
    ClearAndSet(dev.regs[addr], Pow2(n));
    if on {
      status := SetReg(dev, addr, Pow2(n));
    } else {
      status := ClearReg(dev, addr, Pow2(n));
    }
  }

  // What switching one of these bits does to the blocks.
  function SwitchedState(s: RxState, addr: nat, n: nat, on: bool): RxState {
    RxState(
      if addr == 0x7d && n == 3 then on else s.vga1Off,
      if addr == 0x64 && n == 1 then on else s.vga2On,
      if addr == 0x7d && n == 0 then on else s.lnaOff,
      if addr == 0x70 && n == 1 then on else s.lnaDecode,
      if addr == 0x54 && n == 1 then on else s.lpfEnabled,
      if addr == 0x55 && n == 6 then on else s.lpfBypassed,
      if addr == 0x0b && n == 0 then on else s.rfSwitch)
  }

  lemma BitAfter(before: seq<Byte>, after: seq<Byte>, addr: nat, n: nat, on: bool, a: nat, i: nat)
    requires Switched(before, after, addr, n, on) && a < 0x80
    ensures Bit(after[a], i) == if a == addr && i == n then on else Bit(before[a], i)
  {
    hide Bit;
  }

  lemma StateSwitched(before: seq<Byte>, after: seq<Byte>, addr: nat, n: nat, on: bool)
    requires Switched(before, after, addr, n, on)
    ensures RxStateOf(after) == SwitchedState(RxStateOf(before), addr, n, on)
  {
    hide Bit, Switched, OnlyRegs;
    BitAfter(before, after, addr, n, on, 0x7d, 3);
    BitAfter(before, after, addr, n, on, 0x64, 1);
    BitAfter(before, after, addr, n, on, 0x7d, 0);
    BitAfter(before, after, addr, n, on, 0x70, 1);
    BitAfter(before, after, addr, n, on, 0x54, 1);
    BitAfter(before, after, addr, n, on, 0x55, 6);
    BitAfter(before, after, addr, n, on, 0x0b, 0);
  }

  // Other registers do not matter to the blocks.
  lemma StateElsewhere(before: seq<Byte>, after: seq<Byte>, changed: set<nat>)
    requires OnlyRegs(before, after, changed) && forall a :: a in changed ==> !RxBlock(a)
    ensures RxStateOf(after) == RxStateOf(before)
  {
    hide Bit;
    assert forall a :: 0 <= a < 0x80 && RxBlock(a) ==> after[a] == before[a];
  }

  lemma SwitchMasks()
    ensures Pow2(0) == 0x01 && Pow2(1) == 0x02 && Pow2(3) == 0x08 && Pow2(6) == 0x40
  {
    ShlConstants(0);
  }

  // A change of one tracked bit.
  lemma OneRxBit(before: seq<Byte>, after: seq<Byte>, addr: nat, mask: nat)
    requires OnlyRegs(before, after, {addr}) && addr < 0x80 && RxBlock(addr)
    requires AndNot(after[addr], mask) == AndNot(before[addr], mask)
    requires mask == RxMask(addr) || (addr == 0x7d && (mask == 0x01 || mask == 0x08))
    ensures OnlyRxBits(before, after)
  {
    hide AndNot;
    if addr == 0x7d {
      forall i: nat
        ensures Bit(mask, i) ==> Bit(0x09, i)
      {
        assert Or(0x01, 0x08) == 0x09;
        hide Bit, Or;
        OrBit(0x01, 0x08, i);
      }
      hide Bit;
      WiderMask(after[addr], before[addr], mask, 0x09);
    }
  }

  // lms_rxvga1_enable: a set bit powers the amplifier down.
  method Rxvga1Enable(dev: Device, enable: bool) returns (status: int)
    requires dev.Valid()
    modifies dev`trace, dev`failures, dev`regs
    ensures dev.Valid() && OnlyRxBits(old(dev.regs), dev.regs)
    ensures if status == 0 then Switched(old(dev.regs), dev.regs, 0x7d, 3, !enable) else dev.regs == old(dev.regs)
    ensures status == 0 ==> RxStateOf(dev.regs) == RxStateOf(old(dev.regs)).(vga1Off := !enable)
    ensures Reliable(dev) ==> status == 0
    ensures status == 0 ==> dev.failures == old(dev.failures)
  {
    hide Bit, RxStateOf, AndNot, Pow2;
    SwitchMasks();
    status := SwitchBit(dev, 0x7d, 3, !enable);
    OneRxBit(old(dev.regs), dev.regs, 0x7d, 0x08);
    hide Switched;
    if status == 0 {
      StateSwitched(old(dev.regs), dev.regs, 0x7d, 3, !enable);
    }
  }

  method Rxvga2Enable(dev: Device, enable: bool) returns (status: int)
    requires dev.Valid()
    modifies dev`trace, dev`failures, dev`regs
    ensures dev.Valid() && OnlyRxBits(old(dev.regs), dev.regs)
    ensures if status == 0 then Switched(old(dev.regs), dev.regs, 0x64, 1, enable) else dev.regs == old(dev.regs)
    ensures status == 0 ==> RxStateOf(dev.regs) == RxStateOf(old(dev.regs)).(vga2On := enable)
    ensures Reliable(dev) ==> status == 0
    ensures status == 0 ==> dev.failures == old(dev.failures)
  {
    hide Bit, RxStateOf, AndNot, Pow2;
    SwitchMasks();
    status := SwitchBit(dev, 0x64, 1, enable);
    OneRxBit(old(dev.regs), dev.regs, 0x64, 0x02);
    hide Switched;
    if status == 0 {
      StateSwitched(old(dev.regs), dev.regs, 0x64, 1, enable);
    }
  }

  method EnableRfLoopbackSwitch(dev: Device, enable: bool) returns (status: int)
    requires dev.Valid()
    modifies dev`trace, dev`failures, dev`regs
    ensures dev.Valid() && OnlyRxBits(old(dev.regs), dev.regs) && OnlyRegs(old(dev.regs), dev.regs, {0x0b})
    ensures if status == 0 then Switched(old(dev.regs), dev.regs, 0x0b, 0, enable) else dev.regs == old(dev.regs)
    ensures status == 0 ==> RxStateOf(dev.regs) == RxStateOf(old(dev.regs)).(rfSwitch := enable)
    ensures Reliable(dev) ==> status == 0
    ensures status == 0 ==> dev.failures == old(dev.failures)
  {
    hide Bit, RxStateOf, AndNot, Pow2;
    SwitchMasks();
    status := SwitchBit(dev, 0x0b, 0, enable);
    OneRxBit(old(dev.regs), dev.regs, 0x0b, 0x01);
    hide Switched;
    if status == 0 {
      StateSwitched(old(dev.regs), dev.regs, 0x0b, 0, enable);
    }
  }

  // enable_lna_power: a test bit and a decode bit power the LNAs down.
  method EnableLnaPower(dev: Device, enable: bool) returns (status: int)
    requires dev.Valid()
    modifies dev`trace, dev`failures, dev`regs
    ensures dev.Valid() && OnlyRxBits(old(dev.regs), dev.regs) && OnlyRegs(old(dev.regs), dev.regs, {0x7d, 0x70})
    ensures AndNot(dev.regs[0x7d], 0x01) == AndNot(old(dev.regs)[0x7d], 0x01)
    ensures status == 0 ==>
              RxStateOf(dev.regs) == RxStateOf(old(dev.regs)).(lnaOff := !enable, lnaDecode := !enable)
    ensures Reliable(dev) ==> status == 0
    ensures status == 0 ==> dev.failures == old(dev.failures)
  {
    hide Bit, RxStateOf, AndNot, Pow2;
    SwitchMasks();
    status := SwitchBit(dev, 0x7d, 0, !enable);
    ghost var r := dev.regs;
    OneRxBit(old(dev.regs), r, 0x7d, 0x01);
    if status != 0 {
      return;
    }
    StateSwitched(old(dev.regs), r, 0x7d, 0, !enable);
    status := SwitchBit(dev, 0x70, 1, !enable);
    OneRxBit(r, dev.regs, 0x70, 0x02);
    if status == 0 {
      StateSwitched(r, dev.regs, 0x70, 1, !enable);
    }
  }

  method RxLpfGetMode(dev: Device) returns (status: int, mode: LpfMode)
    requires dev.Valid()
    modifies dev`trace, dev`failures
    ensures status == 0 ==> LpfIs(RxStateOf(dev.regs), mode)
    ensures Reliable(dev) ==> status == if LpfMixed(RxStateOf(dev.regs)) then ERR_INVAL else 0
    ensures status == 0 ==> dev.failures == old(dev.failures)
  {
    hide Bit, And, Pow2;
    SwitchMasks();
    mode := LPF_NORMAL;
    var dataL, dataH;
    status, dataL := dev.Read(0x54);
    if status != 0 {
      return;
    }
    status, dataH := dev.Read(0x55);
    if status != 0 {
      return;
    }
    TestReadsBit(dataL, 1);
    TestReadsBit(dataH, 6);
    var lpfEnabled, lpfBypassed := And(dataL, 0x02) != 0, And(dataH, 0x40) != 0;
    if lpfEnabled && !lpfBypassed {
      mode := LPF_NORMAL;
    } else if !lpfEnabled && lpfBypassed {
      mode := LPF_BYPASSED;
    } else if !lpfEnabled && !lpfBypassed {
      mode := LPF_DISABLED;
    } else {
      status := ERR_INVAL;
    }
  }

  function WithLpf(s: RxState, mode: LpfMode): (r: RxState)
    ensures LpfIs(r, mode)
  {
    s.(lpfEnabled := mode == LPF_NORMAL, lpfBypassed := mode == LPF_BYPASSED)
  }

  function LpfEnable(data: Byte, mode: LpfMode): Byte {
    if mode == LPF_NORMAL then SetBits(data, 0x02) else ClearBits(data, 0x02)
  }

  function LpfBypass(data: Byte, mode: LpfMode): Byte {
    if mode == LPF_BYPASSED then SetBits(data, 0x40) else ClearBits(data, 0x40)
  }

  // The registers after the first n of the filter's two writes.
  function LpfWrites(regs: seq<Byte>, mode: LpfMode, n: nat): seq<Byte>
    requires |regs| == 0x80
  {
    if n == 0 then regs
    else if n == 1 then regs[0x54 := LpfEnable(regs[0x54], mode)]
    else regs[0x54 := LpfEnable(regs[0x54], mode)][0x55 := LpfBypass(regs[0x55], mode)]
  }

  // The filter's bits are replaced, whichever of the two registers have been written.
  lemma LpfWritten(before: seq<Byte>, mode: LpfMode, n: nat)
    requires |before| == 0x80
    ensures var after := LpfWrites(before, mode, n);
            && OnlyRegs(before, after, {0x54, 0x55}) && OnlyRxBits(before, after)
            && AndNot(after[0x54], 0x02) == AndNot(before[0x54], 0x02)
            && AndNot(after[0x55], 0x40) == AndNot(before[0x55], 0x40)
    ensures n >= 2 ==> RxStateOf(LpfWrites(before, mode, n)) == WithLpf(RxStateOf(before), mode)
  {
    hide Bit, Or, AndNot, Pow2;
    SwitchMasks();
    BitSwitched(before[0x54], 1);
    BitSwitched(before[0x55], 6);
    ClearAndSet(before[0x54], 0x02);
    ClearAndSet(before[0x55], 0x40);
  }

  method RxLpfSetMode(dev: Device, mode: LpfMode) returns (status: int)
    requires dev.Valid()
    modifies dev`trace, dev`failures, dev`regs
    ensures dev.Valid() && OnlyRxBits(old(dev.regs), dev.regs) && OnlyRegs(old(dev.regs), dev.regs, {0x54, 0x55})
    ensures AndNot(dev.regs[0x54], 0x02) == AndNot(old(dev.regs)[0x54], 0x02)
    ensures AndNot(dev.regs[0x55], 0x40) == AndNot(old(dev.regs)[0x55], 0x40)
    ensures status == 0 ==> RxStateOf(dev.regs) == WithLpf(RxStateOf(old(dev.regs)), mode)
    ensures Reliable(dev) ==> status == 0
    ensures status == 0 ==> dev.failures == old(dev.failures)
  {
    hide Bit, Or, And, AndNot, Pow2, SetBits, ClearBits, RxStateOf, WithLpf, OnlyRegs, OnlyRxBits;
    LpfWritten(dev.regs, mode, 0);
    var dataL, dataH;
    status, dataL := dev.Read(0x54);
    if status != 0 {
      return;
    }
    status, dataH := dev.Read(0x55);
    if status != 0 {
      return;
    }
    match mode {
      case LPF_NORMAL => dataL, dataH := SetBits(dataL, 0x02), ClearBits(dataH, 0x40);
      case LPF_BYPASSED => dataL, dataH := ClearBits(dataL, 0x02), SetBits(dataH, 0x40);
      case LPF_DISABLED => dataL, dataH := ClearBits(dataL, 0x02), ClearBits(dataH, 0x40);
    }
    status := dev.Write(0x54, dataL);
    LpfWritten(old(dev.regs), mode, 1);
    if status != 0 {
      return;
    }
    status := dev.Write(0x55, dataH);
    LpfWritten(old(dev.regs), mode, 2);
  }

  lemma RxBitsSteps(r0: seq<Byte>, r1: seq<Byte>, r2: seq<Byte>)
    requires OnlyRxBits(r0, r1) && OnlyRxBits(r1, r2)
    ensures OnlyRxBits(r0, r2)
  {
    hide AndNot, RxMask, RxBlock;
  }

  // The filter is turned on only if it was off.
  method RxChain(dev: Device, vga1: bool, lpf: LpfMode) returns (status: int)
    requires dev.Valid() && LpfIs(RxStateOf(dev.regs), lpf)
    modifies dev`trace, dev`failures, dev`regs
    ensures dev.Valid() && OnlyRxBits(old(dev.regs), dev.regs)
    ensures status == 0 ==>
              RxStateOf(dev.regs) ==
              WithLpf(RxStateOf(old(dev.regs)), if lpf == LPF_DISABLED then LPF_NORMAL else lpf)
              .(vga1Off := !vga1, vga2On := true)
    ensures Reliable(dev) ==> status == 0
    ensures status == 0 ==> dev.failures == old(dev.failures)
  {
    hide RxStateOf, OnlyRxBits, Switched;
    ghost var r0 := dev.regs;
    status := Rxvga1Enable(dev, vga1);
    if status != 0 {
      return;
    }
    ghost var r1 := dev.regs;
    if lpf == LPF_DISABLED {
      status := RxLpfSetMode(dev, LPF_NORMAL);
      RxBitsSteps(r0, r1, dev.regs);
      if status != 0 {
        return;
      }
    }
    ghost var r2 := dev.regs;
    status := Rxvga2Enable(dev, true);
    RxBitsSteps(r0, r2, dev.regs);
  }

  // All RX blocks on, the loopback switch open.
  method RxReconnect(dev: Device, lpf: LpfMode) returns (status: int)
    requires dev.Valid() && LpfIs(RxStateOf(dev.regs), lpf)
    modifies dev`trace, dev`failures, dev`regs
    ensures dev.Valid() && OnlyRxBits(old(dev.regs), dev.regs)
    ensures status == 0 ==> RxReady(NONE, RxStateOf(dev.regs))
    ensures Reliable(dev) ==> status == 0
    ensures status == 0 ==> dev.failures == old(dev.failures)
  {
    hide RxStateOf, OnlyRxBits, Switched;
    ghost var r0 := dev.regs;
    status := RxChain(dev, true, lpf);
    ghost var r1 := dev.regs;
    if status != 0 {
      return;
    }
    status := EnableRfLoopbackSwitch(dev, false);
    ghost var r2 := dev.regs;
    RxBitsSteps(r0, r1, r2);
    if status != 0 {
      return;
    }
    status := EnableLnaPower(dev, true);
    RxBitsSteps(r0, r2, dev.regs);
  }

  // Enable or disable the RX blocks as the mode needs them.
  method RxBlocks(dev: Device, mode: Mode, lpf: LpfMode) returns (status: int)
    requires dev.Valid() && mode != FIRMWARE && LpfIs(RxStateOf(dev.regs), lpf)
    modifies dev`trace, dev`failures, dev`regs
    ensures dev.Valid() && OnlyRxBits(old(dev.regs), dev.regs)
    ensures status == 0 ==> RxReady(mode, RxStateOf(dev.regs))
    ensures Reliable(dev) ==> status == 0
    ensures status == 0 ==> dev.failures == old(dev.failures)
  {
    hide RxStateOf, OnlyRxBits, Switched;
    ghost var r0 := dev.regs;
    if mode == TXLPF_RXVGA2 || mode == TXVGA1_RXVGA2 {
      status := Rxvga2Enable(dev, true);
      ghost var r1 := dev.regs;
      if status != 0 {
        return;
      }
      status := RxLpfSetMode(dev, LPF_DISABLED);
      RxBitsSteps(r0, r1, dev.regs);
    } else if mode == TXLPF_RXLPF || mode == TXVGA1_RXLPF {
      status := RxChain(dev, false, lpf);
    } else if mode == NONE {
      status := RxReconnect(dev, lpf);
    } else {
      status := EnableLnaPower(dev, false);
      ghost var r1 := dev.regs;
      if status != 0 {
        return;
      }
      status := RxChain(dev, true, lpf);
      RxBitsSteps(r0, r1, dev.regs);
    }
  }

  // ---- The switches along the path: registers 0x46 and 0x08 ----

  function LoopbbenBits(mode: Mode): (r: Byte) {
    match mode
    case TXLPF_RXVGA2 => LOOPBBEN_TXLPF
    case TXLPF_RXLPF => LOOPBBEN_TXLPF
    case TXVGA1_RXVGA2 => LOOPBBEN_TXVGA
    case TXVGA1_RXLPF => LOOPBBEN_TXVGA
    case _ => 0
  }

  function LbenBits(mode: Mode): (r: Byte) {
    match mode
    case TXLPF_RXVGA2 => LBEN_VGA2IN
    case TXVGA1_RXVGA2 => LBEN_VGA2IN
    case TXLPF_RXLPF => LBEN_LPFIN
    case TXVGA1_RXLPF => LBEN_LPFIN
    case RF_LNA1 => 1
    case RF_LNA2 => 2
    case RF_LNA3 => 3
    case _ => 0
  }

  lemma LoopbbenTests(loopbben: Byte, mode: Mode)
    ensures var r := SetBits(ClearBits(loopbben, LOOPBBEN_MASK), LoopbbenBits(mode));
            && (And(r, LOOPBBEN_TXLPF) != 0 <==> LoopbbenBits(mode) == LOOPBBEN_TXLPF)
            && (And(r, LOOPBBEN_TXVGA) != 0 <==> LoopbbenBits(mode) == LOOPBBEN_TXVGA)
            && (Bit(r, 2) <==> LoopbbenBits(mode) == 4) && (Bit(r, 3) <==> LoopbbenBits(mode) == 8)
  {
    ShlConstants(0);
    assert Pow2(3) == 8 && Pow2(4) == 16;
    hide And, Or, AndNot, Bit, Pow2;
    var cleared := ClearBits(loopbben, LOOPBBEN_MASK);
    var r := SetBits(cleared, LoopbbenBits(mode));
    forall i | i in {2, 3}
      ensures Bit(r, i) == Bit(LoopbbenBits(mode), i)
    {
      FieldMaskBit(2, 4, i);
      AndNotBit(loopbben, LOOPBBEN_MASK, i);
      OrBit(cleared, LoopbbenBits(mode), i);
    }
    TestReadsBit(r, 2);
    TestReadsBit(r, 3);
    Pow2Bit(2, 2);
    Pow2Bit(2, 3);
    Pow2Bit(3, 2);
    Pow2Bit(3, 3);
    ZeroBit(2);
    ZeroBit(3);
    assert Bit(r, 2) == Bit(LoopbbenBits(mode), 2) && Bit(r, 3) == Bit(LoopbbenBits(mode), 3);
  }

  lemma LowerReplaced(v: Byte, bits: nat)
    requires bits < 0x80
    ensures SetBits(ClearBits(v, LBRFEN_LBEN_MASK), bits) == 0x80 * (v / 0x80) + bits
  {
    hide Or, AndNot, Shl, Low, Pow2;
    ShlConstants(v / 0x80);
    AndNotLower(v, 7);
    ShiftsAreDivisions(v);
    OrIsSum(v / 0x80, bits, 7);
  }

  lemma LowerVisible(q: nat, bits: nat)
    requires bits < 0x80
    ensures (0x80 * q + bits) % 8 == bits % 8 && (0x80 * q + bits) % 0x80 == bits
  {
    RemainderIs(0x80 * q + bits, 0x80, q, bits);
    RemainderIs(0x80 * q + bits, 8, 16 * q + bits / 8, bits % 8);
  }

  lemma LbenValue(lbenLbrf: Byte, bits: nat)
    requires bits < 0x80
    ensures var r := SetBits(ClearBits(lbenLbrf, LBRFEN_LBEN_MASK), bits);
            r % 0x80 == bits && r % 8 == bits % 8 && And(r, LBEN_MASK) == And(bits, LBEN_MASK)
  {
    hide And, Or, AndNot, SetBits, ClearBits, Low, Pow2;
    ShlConstants(0);
    var r := SetBits(ClearBits(lbenLbrf, LBRFEN_LBEN_MASK), bits);
    LowerReplaced(lbenLbrf, bits);
    LowerVisible(lbenLbrf / 0x80, bits);
    AndLow(r, LBEN_MASK, 7);
    ShiftsAreDivisions(r);
  }

  lemma LbenMasked(mode: Mode)
    ensures And(LbenBits(mode), LBEN_MASK) == (match LbenBits(mode) case 0x20 => 0x20 case 0x40 => 0x40 case _ => 0)
  {
    hide And;
    MaskedSmall(LbenBits(mode));
    AndZeroLeft(1);
    AndZeroLeft(0);
    AndUnfold(1, 3);
    AndUnfold(1, 1);
    AndUnfold(2, 7);
    AndUnfold(4, 14);
    AndUnfold(8, 28);
    AndUnfold(16, 56);
    AndUnfold(32, 112);
    AndUnfold(2, 3);
    AndUnfold(4, 7);
    AndUnfold(8, 14);
    AndUnfold(16, 28);
    AndUnfold(32, 56);
    AndUnfold(64, 112);
  }

  lemma MaskedSmall(bits: nat)
    ensures bits < 4 ==> And(bits, LBEN_MASK) == 0
  {
    if bits < 4 {
      hide And;
      AndUnfold(bits, 112);
      AndUnfold(bits / 2, 56);
      AndZeroLeft(28);
    }
  }

  lemma AndZeroLeft(v: nat)
    ensures And(0, v) == 0
  {}

  // Reading the mode back undoes connecting the path, whatever the other bits of the two registers are.
  lemma PathReadsBack(lbenLbrf: Byte, loopbben: Byte, mode: Mode)
    requires mode != FIRMWARE
    ensures ModeFrom(SetBits(ClearBits(lbenLbrf, LBRFEN_LBEN_MASK), LbenBits(mode)),
                     SetBits(ClearBits(loopbben, LOOPBBEN_MASK), LoopbbenBits(mode))) == mode
    ensures PathIs(mode, SetBits(ClearBits(lbenLbrf, LBRFEN_LBEN_MASK), LbenBits(mode)),
                   SetBits(ClearBits(loopbben, LOOPBBEN_MASK), LoopbbenBits(mode)))
  {
    hide And, Or, AndNot, SetBits, ClearBits, Bit;
    LbenValue(lbenLbrf, LbenBits(mode));
    LbenMasked(mode);
    LoopbbenTests(loopbben, mode);
  }

  lemma PathKeeps(lbenLbrf: Byte, loopbben: Byte, mode: Mode)
    ensures AndNot(SetBits(ClearBits(loopbben, LOOPBBEN_MASK), LoopbbenBits(mode)), LOOPBBEN_MASK) ==
            AndNot(loopbben, LOOPBBEN_MASK)
    ensures AndNot(SetBits(ClearBits(lbenLbrf, LBRFEN_LBEN_MASK), LbenBits(mode)), LBRFEN_LBEN_MASK) ==
            AndNot(lbenLbrf, LBRFEN_LBEN_MASK)
  {
    hide Bit, And, Or, AndNot, Low, Shr, Pow2;
    Powers();
    ShlConstants(0);
    forall i: nat
      ensures Bit(LoopbbenBits(mode), i) ==> Bit(LOOPBBEN_MASK, i)
    {
      PathBits(mode, i);
    }
    FieldSet(loopbben, LOOPBBEN_MASK, LoopbbenBits(mode));
    forall i: nat
      ensures Bit(LbenBits(mode), i) ==> Bit(LBRFEN_LBEN_MASK, i)
    {
      PathBits(mode, i);
    }
    FieldSet(lbenLbrf, LBRFEN_LBEN_MASK, LbenBits(mode));
  }

  lemma PathBits(mode: Mode, i: nat)
    ensures Bit(LoopbbenBits(mode), i) ==> Bit(LOOPBBEN_MASK, i)
    ensures Bit(LbenBits(mode), i) ==> Bit(LBRFEN_LBEN_MASK, i)
  {
    assert Pow2(0) == 1 && Pow2(2) == 4 && Pow2(3) == 8 && Pow2(4) == 16 && Pow2(7) == 0x80 by {
      ShlConstants(0);
    }
    hide Bit, Pow2;
    FieldMaskBit(2, 4, i);
    FieldMaskBit(0, 7, i);
    Pow2Bit(2, i);
    Pow2Bit(3, i);
    ZeroBit(i);
    if i >= 7 {
      NoHighBits(LbenBits(mode), 7, i);
    }
  }

  // The two registers with a mode's bits in place, whichever of them have been written.
  lemma PathWritten(before: seq<Byte>, after: seq<Byte>, mode: Mode)
    requires |before| == 0x80
    requires var half := before[0x46 := SetBits(ClearBits(before[0x46], LOOPBBEN_MASK), LoopbbenBits(mode))];
             || after == before || after == half
             || after == half[0x08 := SetBits(ClearBits(before[0x08], LBRFEN_LBEN_MASK), LbenBits(mode))]
    ensures OnlyRegs(before, after, {0x46, 0x08})
    ensures AndNot(after[0x46], LOOPBBEN_MASK) == AndNot(before[0x46], LOOPBBEN_MASK)
    ensures AndNot(after[0x08], LBRFEN_LBEN_MASK) == AndNot(before[0x08], LBRFEN_LBEN_MASK)
  {
    hide SetBits, ClearBits, AndNot;
    PathKeeps(before[0x08], before[0x46], mode);
  }

  method LoopbackPath(dev: Device, mode: Mode) returns (status: int)
    requires dev.Valid()
    modifies dev`trace, dev`failures, dev`regs
    ensures dev.Valid()
    ensures OnlyRegs(old(dev.regs), dev.regs, {0x46, 0x08})
    ensures mode == FIRMWARE ==> status != 0 && dev.regs == old(dev.regs)
    ensures AndNot(dev.regs[0x46], 0x0c) == AndNot(old(dev.regs)[0x46], 0x0c)
    ensures AndNot(dev.regs[0x08], 0x7f) == AndNot(old(dev.regs)[0x08], 0x7f)
    ensures status == 0 ==> ModeOf(dev.regs) == mode && PathConnected(mode, dev.regs)
    ensures Reliable(dev) && mode != FIRMWARE ==> status == 0
    ensures status == 0 ==> dev.failures == old(dev.failures)
  {
    hide SetBits, ClearBits, ModeFrom, AndNot, OnlyRegs, LoopbbenBits, LbenBits, PathIs;
    PathWritten(dev.regs, dev.regs, mode);
    var loopbben, lbenLbrf;
    status, loopbben := dev.Read(0x46);
    if status != 0 {
      return;
    }
    status, lbenLbrf := dev.Read(0x08);
    if status != 0 {
      return;
    }
    if mode == FIRMWARE {
      return ERR_INVAL;
    }
    PathReadsBack(lbenLbrf, loopbben, mode);
    loopbben := SetBits(ClearBits(loopbben, LOOPBBEN_MASK), LoopbbenBits(mode));
    lbenLbrf := SetBits(ClearBits(lbenLbrf, LBRFEN_LBEN_MASK), LbenBits(mode));
    status := dev.Write(0x46, loopbben);
    PathWritten(old(dev.regs), dev.regs, mode);
    if status == 0 {
      status := dev.Write(0x08, lbenLbrf);
      PathWritten(old(dev.regs), dev.regs, mode);
    }
  }

  // ---- Leaving loopback, and entering it ----

  function RestoredRegs(m: Packet.Module): set<nat> {
    RetuneRegs(m) + {0x09, if m == Packet.TX then 0x44 else 0x75}
  }

  // If a VCO could produce the old frequency, the new one is within 1 Hz of it.
  lemma SameWithinRange(before: Pll, after: Pll)
    requires SameHz(before, after) && InVcoRange(before) && before.nfrac < 0x80_0000
    ensures Tuning.Divider(after.freqsel) > 0 && HzOf(before) - 1 <= HzOf(after) <= HzOf(before) + 1
  {
    FrequencyKept(before);
    hide Tuning.ToHz, Tuning.Divider, ReadBackHz, Tuning.CarryLost, Tuning.Clamp;
  }

  // What setting a PLL to the frequency it has leaves in its fields.
  lemma Retuned(pll: Pll, after: Pll)
    requires Tuning.Divider(pll.freqsel) > 0 && pll.nfrac < 0x80_0000
    requires var p := Tuning.ParamsFor(HzOf(pll));
             after.nint == p.nint && after.nfrac == p.nfrac % 0x80_0000 && after.freqsel == p.freqsel
    ensures SameHz(pll, after)
    ensures Tuning.ParamsFor(HzOf(pll)).lowBand <==> HzOf(pll) < 1500000000
  {
    Tuning.VcoInRange(HzOf(pll));
    ReadBack(HzOf(pll));
    hide Tuning.ToHz, Tuning.Divider, Tuning.VcoLow, Tuning.VcoHigh, Tuning.RowFor, Tuning.Bands;
    hide Tuning.CarryLost, Tuning.Clamp;
  }

  // VCOCAP can be tuned for the frequency a PLL has, its comparators being those of an ideal device.
  predicate Retunable(regs: seq<Byte>, m: Packet.Module, h: int, l: int)
    requires |regs| == 0x80
  {
    var pll := PllOf(regs, BaseOf(m));
    Tuning.Divider(pll.freqsel) > 0 && FirstWalk(h, l, Tuning.HintFor(HzOf(pll))) <= VTUNE_MAX_ITERATIONS
  }

  // Retune a PLL to the frequency it has, now that loopback is off, and select the PA or LNA for its band.
  method Restore(dev: Device, m: Packet.Module, ghost h: int, ghost l: int) returns (status: int)
    requires dev.Valid() && Tuned(dev.regs) && ModeOf(dev.regs) == NONE && m != Packet.INVALID
    modifies dev`trace, dev`failures, dev`regs
    ensures dev.Valid() && Tuned(dev.regs) && ModeOf(dev.regs) == NONE
    ensures OnlyRegs(old(dev.regs), dev.regs, RestoredRegs(m)) && KeepsUpper(m, old(dev.regs), dev.regs)
    ensures AndNot(dev.regs[0x44], PA_MASK) == AndNot(old(dev.regs)[0x44], PA_MASK)
    ensures AndNot(dev.regs[0x75], LNA_MASK) == AndNot(old(dev.regs)[0x75], LNA_MASK)
    ensures status == 0 ==> Restored(old(dev.regs), dev.regs, m)
    ensures Ideal(dev, BaseOf(m), h, l) ==> (status == 0 <==> Retunable(old(dev.regs), m, h, l))
    ensures status == 0 ==> dev.failures == old(dev.failures)
  {
    hide ModeOf, PllOf, RetuneRegs, RestoredRegs, PaField, LnaField, AndNot, OnlyRegs, KeepsUpper, SameHz;
    hide Tuning.ToHz, Tuning.Divider, Tuning.ParamsFor, Tuning.FitsWidths, Tuning.HintFor, FirstWalk, Region;
    ghost var r0 := dev.regs;
    NothingRestored(r0, m);
    TunedDivider(r0, m);
    FieldWidths(r0, BaseOf(m));
    var pll, x;
    status, pll, x := GetFrequency(dev, m);
    if status != 0 {
      return;
    }
    DividerBound(pll.freqsel);
    Tuning.FieldsFit(x, pll.nint, pll.nfrac);
    var hz := Tuning.FrequencyToHz(x as Tuning.uint8, pll.nint as Tuning.uint16, pll.nfrac as Tuning.uint32);
    status := SetFrequency(dev, m, hz as int, h, l);
    ghost var r1 := dev.regs;
    RestoredSteps(r0, r1, r1, m);
    if status != 0 {
      return;
    }
    SameFields(r1, m);
    Retuned(pll, PllOf(r1, BaseOf(m)));
    status := SelectBand(dev, m, hz < Tuning.BAND_HIGH as Tuning.uint32);
    RestoredSteps(r0, r1, dev.regs, m);
  }

  lemma SameFields(regs: seq<Byte>, m: Packet.Module)
    requires |regs| == 0x80 && m != Packet.INVALID
    ensures FieldsOf(regs, m) == PllOf(regs, BaseOf(m)) && OutputBuffer(regs, BaseOf(m)) == regs[ConfigReg(m)] % 4
  {}

  lemma TunedDivider(regs: seq<Byte>, m: Packet.Module)
    requires |regs| == 0x80 && Tuned(regs)
    ensures PllOf(regs, BaseOf(m)).freqsel % 8 >= 3
  {}

  lemma NothingRestored(regs: seq<Byte>, m: Packet.Module)
    requires |regs| == 0x80
    ensures OnlyRegs(regs, regs, RestoredRegs(m)) && KeepsUpper(m, regs, regs)
  {}

  // What a retune and a PA or LNA selection after it change between them.
  lemma RestoredSteps(r0: seq<Byte>, r1: seq<Byte>, r2: seq<Byte>, m: Packet.Module)
    requires OnlyRegs(r0, r1, RetuneRegs(m) + {0x09}) && KeepsUpper(m, r0, r1)
    requires r2 == r1 || OnlyRegs(r1, r2, if m == Packet.TX then {0x44} else {0x75})
    ensures OnlyRegs(r0, r2, RestoredRegs(m)) && KeepsUpper(m, r0, r2)
    ensures ModeOf(r2) == ModeOf(r1) && (Tuned(r1) ==> Tuned(r2))
    ensures PllOf(r2, BaseOf(m)) == PllOf(r1, BaseOf(m)) && r2[ConfigReg(m)] == r1[ConfigReg(m)]
    ensures OutputBuffer(r2, BaseOf(m)) == OutputBuffer(r1, BaseOf(m))
    ensures r1[0x44] == r0[0x44] && r1[0x75] == r0[0x75]
  {
    RestoredFrame(r0, r1, r2, m);
    hide AndNot, ModeFrom, Packet.Nint, Packet.Nfrac, KeepsUpper, RestoredRegs;
  }

  lemma RestoredFrame(r0: seq<Byte>, r1: seq<Byte>, r2: seq<Byte>, m: Packet.Module)
    requires OnlyRegs(r0, r1, RetuneRegs(m) + {0x09}) && KeepsUpper(m, r0, r1)
    requires r2 == r1 || OnlyRegs(r1, r2, if m == Packet.TX then {0x44} else {0x75})
    ensures OnlyRegs(r0, r2, RestoredRegs(m)) && KeepsUpper(m, r0, r2)
  {
    hide AndNot;
  }

  // Select the RX PLL's output buffer and the LNA of an RF loopback.
  method RxSelect(dev: Device, lna: nat) returns (status: int)
    requires dev.Valid() && 1 <= lna <= 3
    modifies dev`trace, dev`failures, dev`regs
    ensures dev.Valid()
    ensures OnlyRegs(old(dev.regs), dev.regs, {0x25, 0x75, 0x0b})
    ensures AndNot(dev.regs[0x25], 0x03) == AndNot(old(dev.regs)[0x25], 0x03)
    ensures AndNot(dev.regs[0x75], LNA_MASK) == AndNot(old(dev.regs)[0x75], LNA_MASK)
    ensures AndNot(dev.regs[0x0b], 0x01) == AndNot(old(dev.regs)[0x0b], 0x01)
    ensures status == 0 ==> LnaField(dev.regs) == lna * 0x10 && OutputBuffer(dev.regs, 0x20) == lna
    ensures status == 0 ==> RxStateOf(dev.regs) == RxStateOf(old(dev.regs)).(rfSwitch := true)
    ensures Reliable(dev) ==> status == 0
    ensures status == 0 ==> dev.failures == old(dev.failures)
  {
    hide SetBits, ClearBits, And, AndNot, RxStateOf, LnaField, OutputBuffer, OnlyRegs;
    ghost var r0 := dev.regs;
    RxSelected(r0, r0, r0, r0);
    var regval;
    status, regval := dev.Read(0x25);
    if status != 0 {
      return;
    }
    BufferReplaced(regval, lna);
    status := dev.Write(0x25, SetBits(ClearBits(regval, 0x03), lna));
    ghost var r1 := dev.regs;
    WroteOnly(r0, 0x25, SetBits(ClearBits(regval, 0x03), lna));
    RxSelected(r0, r1, r1, r1);
    if status != 0 {
      return;
    }
    status := SelectLna(dev, lna);
    ghost var r2 := dev.regs;
    RxSelected(r0, r1, r2, r2);
    if status != 0 {
      return;
    }
    status := EnableRfLoopbackSwitch(dev, true);
    RxSelected(r0, r1, r2, dev.regs);
  }

  // The three steps concern different registers.
  lemma RxSelected(r0: seq<Byte>, r1: seq<Byte>, r2: seq<Byte>, r3: seq<Byte>)
    requires |r0| == 0x80 && (r1 == r0 || OnlyRegs(r0, r1, {0x25}))
    requires (r2 == r1 || OnlyRegs(r1, r2, {0x75})) && (r3 == r2 || OnlyRegs(r2, r3, {0x0b}))
    ensures OnlyRegs(r0, r3, {0x25, 0x75, 0x0b})
    ensures r3[0x25] == r1[0x25] && r3[0x75] == r2[0x75] && r1[0x75] == r0[0x75] && r2[0x0b] == r0[0x0b]
    ensures RxStateOf(r2) == RxStateOf(r0) && LnaField(r3) == LnaField(r2)
    ensures OutputBuffer(r3, 0x20) == r1[0x25] % 4
  {
    hide Bit, And;
  }

  lemma BufferReplaced(v: Byte, lna: nat)
    requires lna < 4
    ensures SetBits(ClearBits(v, 0x03), lna) == v / 4 * 4 + lna
    ensures SetBits(ClearBits(v, 0x03), lna) % 4 == lna
    ensures AndNot(SetBits(ClearBits(v, 0x03), lna), 0x03) == AndNot(v, 0x03)
  {
    hide Or, AndNot, Shl, Shr, Low, Pow2;
    ShlConstants(v / 4);
    AndNotLower(v, 2);
    ShiftsAreDivisions(v);
    OrIsSum(v / 4, lna, 2);
    UpperAndLower(v / 4, lna);
    AndNotLower(SetBits(ClearBits(v, 0x03), lna), 2);
    ShiftsAreDivisions(SetBits(ClearBits(v, 0x03), lna));
  }

  // ---- What a mode may change ----

  lemma OnlyForSteps(mode: Mode, r0: seq<Byte>, r1: seq<Byte>, r2: seq<Byte>)
    requires OnlyFor(mode, r0, r1) && OnlyFor(mode, r1, r2)
    ensures OnlyFor(mode, r0, r2)
  {
    hide AndNot, MayChange;
  }

  // One step of the sequence, from what it says about the registers it changes.
  lemma OnlyForStep(mode: Mode, before: seq<Byte>, after: seq<Byte>, changed: set<nat>)
    requires OnlyRegs(before, after, changed)
    requires forall a :: a in changed && a < 0x80 ==>
                           AndNot(after[a], MayChange(mode, a)) == AndNot(before[a], MayChange(mode, a))
    ensures OnlyFor(mode, before, after)
  {
    hide AndNot, MayChange;
  }

  lemma OnlyForRx(mode: Mode, before: seq<Byte>, after: seq<Byte>)
    requires OnlyRxBits(before, after)
    ensures OnlyFor(mode, before, after)
  {
    hide AndNot, RxMask, PllMask;
  }

  lemma UpperSix(v: Byte, w: Byte)
    requires v / 0x40 == w / 0x40
    ensures AndNot(v, 0x3f) == AndNot(w, 0x3f)
  {
    hide AndNot, Low, Shr, Pow2;
    ShlConstants(0);
    AndNotLower(v, 6);
    AndNotLower(w, 6);
    ShiftsAreDivisions(v);
    ShiftsAreDivisions(w);
  }

  lemma ByteCleared(v: Byte)
    ensures AndNot(v, 0xff) == 0
  {
    hide AndNot, Pow2;
    Powers();
    AndNotAll(v, 8);
  }

  lemma OnlyForRestore(before: seq<Byte>, after: seq<Byte>, m: Packet.Module)
    requires m != Packet.INVALID && OnlyRegs(before, after, RestoredRegs(m)) && KeepsUpper(m, before, after)
    requires AndNot(after[0x44], PA_MASK) == AndNot(before[0x44], PA_MASK)
    requires AndNot(after[0x75], LNA_MASK) == AndNot(before[0x75], LNA_MASK)
    ensures OnlyFor(NONE, before, after)
  {
    hide AndNot;
    UpperSix(before[BaseOf(m) + 9], after[BaseOf(m) + 9]);
    forall a | a in RestoredRegs(m) && a < 0x80
      ensures AndNot(after[a], MayChange(NONE, a)) == AndNot(before[a], MayChange(NONE, a))
    {
      ByteCleared(before[a]);
      ByteCleared(after[a]);
    }
    OnlyForStep(NONE, before, after, RestoredRegs(m));
  }

  // In particular, both PLLs keep all their fields in every mode but NONE, and their output buffers but for the RX
  // buffer of an RF loopback.
  lemma PllsKept(mode: Mode, before: seq<Byte>, after: seq<Byte>)
    requires OnlyFor(mode, before, after) && mode != NONE
    ensures PllOf(after, 0x10) == PllOf(before, 0x10) && PllOf(after, 0x20) == PllOf(before, 0x20)
    ensures OutputBuffer(after, 0x10) == OutputBuffer(before, 0x10)
    ensures !IsRf(mode) ==> OutputBuffer(after, 0x20) == OutputBuffer(before, 0x20)
  {
    forall a | 0 <= a < 0x80 && MayChange(mode, a) == 0
      ensures after[a] == before[a]
    {
      hide AndNot;
      AndNotZero(before[a]);
      AndNotZero(after[a]);
    }
    hide AndNot, Packet.Nint, Packet.Nfrac, OnlyFor;
    if IsRf(mode) {
      assert AndNot(after[0x25], 0x03) == AndNot(before[0x25], 0x03) by {
        MaskAt(mode, before, after, 0x25);
      }
      UpperTwo(before[0x25], after[0x25]);
    }
  }

  lemma MaskAt(mode: Mode, before: seq<Byte>, after: seq<Byte>, a: nat)
    requires OnlyFor(mode, before, after) && a < 0x80
    ensures AndNot(after[a], MayChange(mode, a)) == AndNot(before[a], MayChange(mode, a))
  {}

  lemma UpperTwo(v: Byte, w: Byte)
    requires AndNot(v, 0x03) == AndNot(w, 0x03)
    ensures v / 4 == w / 4
  {
    hide AndNot, Low, Shr, Pow2;
    ShlConstants(0);
    AndNotLower(v, 2);
    AndNotLower(w, 2);
    ShiftsAreDivisions(v);
    ShiftsAreDivisions(w);
  }

  // ---- The RX and TX sides ----

  // A PLL and its output buffer are the same.
  predicate SamePll(before: seq<Byte>, after: seq<Byte>, base: nat)
    requires |before| == |after| == 0x80 && IsBase(base)
  {
    PllOf(after, base) == PllOf(before, base) && OutputBuffer(after, base) == OutputBuffer(before, base)
  }

  // What a step of the sequence keeps: the mode stays off, and the PLLs stay tuned.
  ghost predicate Quiet(before: seq<Byte>, after: seq<Byte>) {
    && |before| == |after| == 0x80
    && (Tuned(before) ==> Tuned(after)) && (ModeOf(before) == NONE ==> ModeOf(after) == NONE)
  }

  lemma PllElsewhere(before: seq<Byte>, after: seq<Byte>, changed: set<nat>, base: nat)
    requires IsBase(base) && OnlyRegs(before, after, changed) && changed !! PllRegs(base)
    ensures SamePll(before, after, base) && after[base + 5] == before[base + 5]
  {
    hide Packet.Nint, Packet.Nfrac;
  }

  lemma RxBlocksQuiet(before: seq<Byte>, after: seq<Byte>)
    requires OnlyRxBits(before, after)
    ensures Quiet(before, after) && SamePll(before, after, 0x10) && SamePll(before, after, 0x20)
    ensures after[0x44] == before[0x44] && after[0x75] == before[0x75]
  {
    hide AndNot, ModeFrom, Packet.Nint, Packet.Nfrac;
  }

  lemma RxSelectQuiet(mode: Mode, before: seq<Byte>, after: seq<Byte>)
    requires OnlyRegs(before, after, {0x25, 0x75, 0x0b}) && IsRf(mode)
    requires AndNot(after[0x25], 0x03) == AndNot(before[0x25], 0x03)
    requires AndNot(after[0x75], LNA_MASK) == AndNot(before[0x75], LNA_MASK)
    requires AndNot(after[0x0b], 0x01) == AndNot(before[0x0b], 0x01)
    ensures Quiet(before, after) && SamePll(before, after, 0x10) && after[0x44] == before[0x44]
    ensures OnlyFor(mode, before, after)
  {
    hide AndNot, ModeFrom, Packet.Nint, Packet.Nfrac;
    UpperTwo(before[0x25], after[0x25]);
    OnlyForStep(mode, before, after, {0x25, 0x75, 0x0b});
  }

  lemma RxRestoreKeepsTx(before: seq<Byte>, after: seq<Byte>)
    requires OnlyRegs(before, after, RestoredRegs(Packet.RX))
    ensures SamePll(before, after, 0x10) && after[0x44] == before[0x44]
    ensures RxStateOf(after) == RxStateOf(before)
  {
    hide RxStateOf, SamePll;
    StateElsewhere(before, after, RestoredRegs(Packet.RX));
    PllElsewhere(before, after, RestoredRegs(Packet.RX), 0x10);
  }

  // The RX side. Nothing about the TX PLL or the PA changes.
  method LoopbackRx(dev: Device, mode: Mode, ghost h: int, ghost l: int) returns (status: int)
    requires dev.Valid() && (mode == NONE ==> Tuned(dev.regs)) && ModeOf(dev.regs) == NONE && mode != FIRMWARE
    modifies dev`trace, dev`failures, dev`regs
    ensures dev.Valid() && (Tuned(old(dev.regs)) ==> Tuned(dev.regs)) && ModeOf(dev.regs) == NONE
    ensures SamePll(old(dev.regs), dev.regs, 0x10) && dev.regs[0x44] == old(dev.regs)[0x44]
    ensures OnlyFor(mode, old(dev.regs), dev.regs)
    ensures status == 0 && IsRf(mode) ==>
              LnaField(dev.regs) == LnaOf(mode) * 0x10 && OutputBuffer(dev.regs, 0x20) == LnaOf(mode)
    ensures status == 0 && mode == NONE ==> Restored(old(dev.regs), dev.regs, Packet.RX)
    ensures !IsRf(mode) && mode != NONE ==> dev.regs[0x75] == old(dev.regs)[0x75]
    ensures status == 0 ==> RxConnected(mode, RxStateOf(dev.regs))
    ensures Reliable(dev) && mode != NONE ==> (status == 0 <==> !LpfMixed(RxStateOf(old(dev.regs))))
    ensures Reliable(dev) && mode != NONE && status != 0 ==> dev.regs == old(dev.regs)
    ensures Ideal(dev, 0x20, h, l) && mode == NONE ==>
              (status == 0 <==> !LpfMixed(RxStateOf(old(dev.regs))) && Retunable(old(dev.regs), Packet.RX, h, l))
    ensures status == 0 ==> dev.failures == old(dev.failures)
  {
    hide ModeOf, PllOf, PllRegs, OnlyRegs, OnlyRxBits, LnaField, OutputBuffer, Restored, Tuned, RxStateOf, OnlyFor;
    hide AndNot, KeepsUpper, RestoredRegs, Retunable, Region;
    var lpf;
    ghost var r0 := dev.regs;
    OnlyForNothing(mode, r0);
    status, lpf := RxLpfGetMode(dev);
    if status != 0 {
      return;
    }
    status := RxBlocks(dev, mode, lpf);
    ghost var r1 := dev.regs;
    RxBlocksQuiet(r0, r1);
    OnlyForRx(mode, r0, r1);
    if status != 0 {
      return;
    }
    if IsRf(mode) {
      status := RxSelect(dev, LnaOf(mode));
      RxSelectQuiet(mode, r1, dev.regs);
      OnlyForSteps(mode, r0, r1, dev.regs);
    } else if mode == NONE {
      RetunableSince(r0, r1, Packet.RX, h, l);
      status := Restore(dev, Packet.RX, h, l);
      RxRestoreKeepsTx(r1, dev.regs);
      OnlyForRestore(r1, dev.regs, Packet.RX);
      OnlyForSteps(mode, r0, r1, dev.regs);
      if status == 0 {
        RestoredSince(r0, r1, dev.regs, dev.regs, Packet.RX);
      }
    }
  }

  lemma OnlyForNothing(mode: Mode, regs: seq<Byte>)
    requires |regs| == 0x80
    ensures OnlyFor(mode, regs, regs)
  {}

  lemma RetunableSince(r0: seq<Byte>, r1: seq<Byte>, m: Packet.Module, h: int, l: int)
    requires |r0| == |r1| == 0x80 && SamePll(r0, r1, BaseOf(m))
    ensures Retunable(r1, m, h, l) <==> Retunable(r0, m, h, l)
  {
    hide PllOf, FirstWalk, Tuning.HintFor, Tuning.Divider, Tuning.ToHz;
  }

  // Restored depends on the PLL before, and on PLL, PA and LNA after.
  lemma RestoredSince(b0: seq<Byte>, b1: seq<Byte>, a0: seq<Byte>, a1: seq<Byte>, m: Packet.Module)
    requires |b0| == |b1| == |a0| == |a1| == 0x80 && Restored(b1, a0, m)
    requires SamePll(b0, b1, BaseOf(m)) && SamePll(a0, a1, BaseOf(m))
    requires if m == Packet.TX then a1[0x44] == a0[0x44] else a1[0x75] == a0[0x75]
    ensures Restored(b0, a1, m)
  {
    hide PllOf, OutputBuffer, SameHz, And, PaBits;
  }

  lemma TxRestoreKeepsRx(before: seq<Byte>, after: seq<Byte>)
    requires OnlyRegs(before, after, RestoredRegs(Packet.TX))
    ensures after[0x75] == before[0x75] && SamePll(before, after, 0x20)
    ensures RxStateOf(after) == RxStateOf(before)
  {
    hide RxStateOf, SamePll;
    StateElsewhere(before, after, RestoredRegs(Packet.TX));
    PllElsewhere(before, after, RestoredRegs(Packet.TX), 0x20);
  }

  lemma PaOnlyQuiet(mode: Mode, before: seq<Byte>, after: seq<Byte>)
    requires OnlyRegs(before, after, {0x44}) && AndNot(after[0x44], PA_MASK) == AndNot(before[0x44], PA_MASK)
    ensures Quiet(before, after) && SamePll(before, after, 0x10) && SamePll(before, after, 0x20)
    ensures after[0x75] == before[0x75] && RxStateOf(after) == RxStateOf(before) && OnlyFor(mode, before, after)
  {
    hide RxStateOf, AndNot, ModeFrom, SamePll, OnlyFor;
    OnlyForStep(mode, before, after, {0x44});
    StateElsewhere(before, after, {0x44});
    PllElsewhere(before, after, {0x44}, 0x10);
    PllElsewhere(before, after, {0x44}, 0x20);
  }

  // The TX side.
  method LoopbackTx(dev: Device, mode: Mode, ghost h: int, ghost l: int) returns (status: int)
    requires dev.Valid() && (mode == NONE ==> Tuned(dev.regs)) && ModeOf(dev.regs) == NONE && mode != FIRMWARE
    modifies dev`trace, dev`failures, dev`regs
    ensures dev.Valid() && (Tuned(old(dev.regs)) ==> Tuned(dev.regs)) && ModeOf(dev.regs) == NONE
    ensures dev.regs[0x75] == old(dev.regs)[0x75] && SamePll(old(dev.regs), dev.regs, 0x20)
    ensures RxStateOf(dev.regs) == RxStateOf(old(dev.regs)) && OnlyFor(mode, old(dev.regs), dev.regs)
    ensures status == 0 && IsRf(mode) ==> PaField(dev.regs) == PaBits(PA_AUX)
    ensures status == 0 && mode == NONE ==> Restored(old(dev.regs), dev.regs, Packet.TX)
    ensures mode != NONE ==> SamePll(old(dev.regs), dev.regs, 0x10)
    ensures !IsRf(mode) && mode != NONE ==> dev.regs == old(dev.regs)
    ensures Reliable(dev) && mode != NONE ==> status == 0
    ensures Ideal(dev, 0x10, h, l) && mode == NONE ==> (status == 0 <==> Retunable(old(dev.regs), Packet.TX, h, l))
    ensures status == 0 ==> dev.failures == old(dev.failures)
  {
    hide ModeOf, PllOf, PllRegs, OnlyRegs, PaField, PaBits, OutputBuffer, Restored, Tuned, RxStateOf, OnlyFor, AndNot;
    hide KeepsUpper, RestoredRegs, Retunable, Region;
    status := 0;
    OnlyForNothing(mode, dev.regs);
    if IsRf(mode) {
      status := SelectPa(dev, PA_AUX);
      PaOnlyQuiet(mode, old(dev.regs), dev.regs);
    } else if mode == NONE {
      status := Restore(dev, Packet.TX, h, l);
      TxRestoreKeepsRx(old(dev.regs), dev.regs);
      OnlyForRestore(old(dev.regs), dev.regs, Packet.TX);
    }
  }

  lemma LnaOnlyQuiet(mode: Mode, before: seq<Byte>, after: seq<Byte>)
    requires OnlyRegs(before, after, {0x75}) && AndNot(after[0x75], LNA_MASK) == AndNot(before[0x75], LNA_MASK)
    ensures Quiet(before, after) && SamePll(before, after, 0x10) && SamePll(before, after, 0x20)
    ensures after[0x44] == before[0x44] && RxStateOf(after) == RxStateOf(before) && OnlyFor(mode, before, after)
  {
    hide RxStateOf, AndNot, ModeFrom, SamePll, OnlyFor;
    OnlyForStep(mode, before, after, {0x75});
    StateElsewhere(before, after, {0x75});
    PllElsewhere(before, after, {0x75}, 0x10);
    PllElsewhere(before, after, {0x75}, 0x20);
  }

  lemma PathAside(mode: Mode, before: seq<Byte>, after: seq<Byte>)
    requires OnlyRegs(before, after, {0x46, 0x08})
    requires AndNot(after[0x46], LOOPBBEN_MASK) == AndNot(before[0x46], LOOPBBEN_MASK)
    requires AndNot(after[0x08], LBRFEN_LBEN_MASK) == AndNot(before[0x08], LBRFEN_LBEN_MASK)
    ensures Tuned(before) ==> Tuned(after)
    ensures SamePll(before, after, 0x10) && SamePll(before, after, 0x20)
    ensures after[0x44] == before[0x44] && after[0x75] == before[0x75]
    ensures RxStateOf(after) == RxStateOf(before) && OnlyFor(mode, before, after)
  {
    hide RxStateOf, AndNot, SamePll, OnlyFor;
    OnlyForStep(mode, before, after, {0x46, 0x08});
    StateElsewhere(before, after, {0x46, 0x08});
    PllElsewhere(before, after, {0x46, 0x08}, 0x10);
    PllElsewhere(before, after, {0x46, 0x08}, 0x20);
  }

  // lms_set_loopback_mode. On a reliable bus it either establishes the mode, or leaves loopback off; an invalid mode
  // changes nothing. Whatever happens, no bit that is not the mode's to change is changed. It fails only if the RX
  // filter was in no mode, or, when loopback is turned off, if VCOCAP cannot be tuned for a frequency that a PLL has.
  method SetLoopbackMode(dev: Device, mode: Mode, ghost hTx: int, ghost lTx: int, ghost hRx: int,
                         ghost lRx: int)
    returns (status: int)
    requires dev.Valid() && (mode == NONE ==> Tuned(dev.regs))
    modifies dev`trace, dev`failures, dev`regs
    ensures dev.Valid() && (Tuned(old(dev.regs)) ==> Tuned(dev.regs))
    ensures mode == FIRMWARE ==> status == -3 && dev.regs == old(dev.regs)
    ensures mode != FIRMWARE && status == 0 ==> ModeOf(dev.regs) == mode && Established(mode, old(dev.regs), dev.regs)
    ensures mode != FIRMWARE && status != 0 && Reliable(dev) ==> ModeOf(dev.regs) == NONE
    ensures mode != FIRMWARE && mode != NONE && status != 0 && Reliable(dev) ==>
              && PathConnected(NONE, dev.regs) && PaField(dev.regs) == PaBits(PA_NONE) && LnaField(dev.regs) == 0
              && RxStateOf(dev.regs) == RxStateOf(old(dev.regs))
    ensures OnlyFor(mode, old(dev.regs), dev.regs)
    ensures Reliable(dev) ==> Step(SetLoopback(mode), status, old(dev.regs), dev.regs)
    ensures Ideal(dev, 0x10, hTx, lTx) && Ideal(dev, 0x20, hRx, lRx) && mode == NONE ==>
              (status == 0 <==>
                && !LpfMixed(RxStateOf(old(dev.regs)))
                && Retunable(old(dev.regs), Packet.RX, hRx, lRx) && Retunable(old(dev.regs), Packet.TX, hTx, lTx))
    ensures status == 0 ==> dev.failures == old(dev.failures)
  {
    hide ModeOf, PllOf, OnlyRegs, And, AndNot, PaBits, LnaOf, OutputBuffer, Tuned, RxStateOf, RxConnected, OnlyFor;
    hide Restored, Retunable, Region, LpfMixed, PathConnected, Ideal, Reliable;
    IdealIsReliable(dev, 0x10, hTx, lTx);
    ghost var r0 := dev.regs;
    OnlyForNothing(mode, r0);
    if mode == FIRMWARE {
      return ERR_INVAL;
    }
    status := SelectPa(dev, PA_NONE);
    ghost var r1 := dev.regs;
    PaOnlyQuiet(mode, r0, r1);
    if status != 0 {
      return;
    }
    status := SelectLna(dev, 0);
    ghost var r2 := dev.regs;
    LnaOnlyQuiet(mode, r1, r2);
    OnlyForSteps(mode, r0, r1, r2);
    if status != 0 {
      return;
    }
    status := LoopbackPath(dev, NONE);
    ghost var r3 := dev.regs;
    PathAside(mode, r2, r3);
    OnlyForSteps(mode, r0, r2, r3);
    if status != 0 {
      return;
    }
    RetunableSince(r0, r3, Packet.RX, hRx, lRx);
    status := LoopbackRx(dev, mode, hRx, lRx);
    ghost var r4 := dev.regs;
    OnlyForSteps(mode, r0, r3, r4);
    if status != 0 {
      return;
    }
    RetunableSince(r0, r4, Packet.TX, hTx, lTx);
    status := LoopbackTx(dev, mode, hTx, lTx);
    ghost var r5 := dev.regs;
    OnlyForSteps(mode, r0, r4, r5);
    if status != 0 {
      return;
    }
    status := LoopbackPath(dev, mode);
    PathAside(mode, r5, dev.regs);
    OnlyForSteps(mode, r0, r5, dev.regs);
    if status == 0 {
      PathOf(mode, dev.regs);
    }
    if mode == NONE {
      RestoredSince(r0, r4, r5, dev.regs, Packet.TX);
      RestoredSince(r0, r3, r4, dev.regs, Packet.RX);
    }
  }

  lemma PathOf(mode: Mode, regs: seq<Byte>)
    requires |regs| == 0x80 && PathConnected(mode, regs)
    ensures regs[0x08] % 8 == LnaOf(mode) && (IsRf(mode) <==> LnaOf(mode) != 0)
  {
    hide Bit;
    var v, path := regs[0x08], regs[0x08] % 0x80;
    RemainderIs(v, 8, 16 * (v / 0x80) + path / 8, path % 8);
  }

  // ---- Runs ----

  // SetLoopbackMode and SelectBand promise to be such steps; so is any retune, whatever its fields.
  lemma RetuneIsStep(m: Packet.Module, f: Tuning.LmsFreq, status: int, before: seq<Byte>, after: seq<Byte>)
    requires OnlyRegs(before, after, RetuneRegs(m) + {0x09})
    requires after[ConfigReg(m)] == before[ConfigReg(m)] || SelectsFor(before, after, m, f)
    ensures Step(Retune(m), status, before, after)
  {
    RetuneGuards(before, after, m, f);
    hide ModeOf, OutputBuffer, SelectsFor, Tuned;
  }

  // What loopback selects is unaffected.
  lemma GuardedKeeps(before: seq<Byte>, after: seq<Byte>)
    requires Guarded(before, after)
    ensures PaField(after) == PaField(before) && LnaField(after) == LnaField(before)
    ensures after[0x08] == before[0x08] && after[0x46] == before[0x46] && RxStateOf(after) == RxStateOf(before)
  {
    StateElsewhere(before, after, PllRegs(0x10) + PllRegs(0x20) + {0x09});
    hide And, RxStateOf;
  }

  // A run: the registers before and after every operation, and what the operations returned.
  ghost predicate Run(states: seq<seq<Byte>>, ops: seq<Op>, statuses: seq<int>) {
    && |states| == |ops| + 1 && |statuses| == |ops|
    && |states[0]| == 0x80
    && forall i :: 0 <= i < |ops| ==> Step(ops[i], statuses[i], states[i], states[i + 1])
  }

  predicate SetsMode(op: Op) {
    op.SetLoopback? && op.mode != FIRMWARE
  }

  // The mode last set: off if setting it failed part way, unaffected by an invalid mode and by everything else.
  function LastSet(initial: Mode, ops: seq<Op>, statuses: seq<int>): Mode
    requires |ops| == |statuses|
  {
    if ops == [] then initial
    else
      var n := |ops| - 1;
      if SetsMode(ops[n]) then (if statuses[n] == 0 then ops[n].mode else NONE)
      else LastSet(initial, ops[..n], statuses[..n])
  }

  lemma {:induction false} RunPrefix(states: seq<seq<Byte>>, ops: seq<Op>, statuses: seq<int>, n: nat)
    requires Run(states, ops, statuses) && n <= |ops|
    ensures Run(states[..n + 1], ops[..n], statuses[..n])
    ensures |states[n]| == 0x80
    decreases n
  {
    if n > 0 {
      RunPrefix(states, ops, statuses, n - 1);
      assert Step(ops[n - 1], statuses[n - 1], states[n - 1], states[n]);
    }
  }

  // Over any run, the mode read back is the one last set.
  lemma {:induction false} ModeIsLastSet(states: seq<seq<Byte>>, ops: seq<Op>, statuses: seq<int>)
    requires Run(states, ops, statuses)
    ensures |states[|ops|]| == 0x80
    ensures ModeOf(states[|ops|]) == LastSet(ModeOf(states[0]), ops, statuses)
    decreases |ops|
  {
    hide ModeOf, Tuned, Established, Guarded;
    if ops != [] {
      var n := |ops| - 1;
      RunPrefix(states, ops, statuses, n);
      ModeIsLastSet(states[..n + 1], ops[..n], statuses[..n]);
      assert Step(ops[n], statuses[n], states[n], states[n + 1]);
    }
  }

  // While loopback is on and no mode is set, nothing that disconnects the path changes, however many retunes and band
  // selections happen.
  lemma {:induction false} GuardedWhileOn(states: seq<seq<Byte>>, ops: seq<Op>, statuses: seq<int>, i: nat, j: nat)
    requires Run(states, ops, statuses) && i <= j <= |ops|
    requires |states[i]| == 0x80 && ModeOf(states[i]) != NONE
    requires forall k :: i <= k < j ==> !SetsMode(ops[k])
    ensures |states[j]| == 0x80 && ModeOf(states[j]) == ModeOf(states[i]) && Guarded(states[i], states[j])
    decreases j - i
  {
    if i < j {
      GuardedWhileOn(states, ops, statuses, i, j - 1);
      hide ModeOf, Tuned, Established, OutputBuffer, PllRegs;
      assert Step(ops[j - 1], statuses[j - 1], states[j - 1], states[j]);
    }
  }

  // So the selections a loopback mode was established with are still in place at any later point before the next change
  // of mode.
  lemma StaysEstablished(states: seq<seq<Byte>>, ops: seq<Op>, statuses: seq<int>, i: nat, j: nat)
    requires Run(states, ops, statuses) && i < j <= |ops|
    requires SetsMode(ops[i]) && ops[i].mode != NONE && statuses[i] == 0
    requires forall k :: i < k < j ==> !SetsMode(ops[k])
    ensures |states[i]| == |states[j]| == 0x80
    ensures ModeOf(states[j]) == ops[i].mode && Established(ops[i].mode, states[i], states[j])
  {
    hide ModeOf, Tuned, PaBits, And, OutputBuffer, PllRegs, RxStateOf, RxConnected, Bit;
    assert Step(ops[i], statuses[i], states[i], states[i + 1]);
    GuardedWhileOn(states, ops, statuses, i + 1, j);
    GuardedKeeps(states[i + 1], states[j]);
  }

  // And from there any other loopback mode can be set: on a reliable bus that cannot fail.
  lemma NextModeSucceeds(states: seq<seq<Byte>>, ops: seq<Op>, statuses: seq<int>, i: nat, j: nat)
    requires Run(states, ops, statuses) && i < j < |ops|
    requires SetsMode(ops[i]) && ops[i].mode != NONE && statuses[i] == 0
    requires forall k :: i < k < j ==> !SetsMode(ops[k])
    requires SetsMode(ops[j]) && ops[j].mode != NONE
    ensures statuses[j] == 0 && ModeOf(states[j + 1]) == ops[j].mode
  {
    hide ModeOf, PaBits, And, OutputBuffer, PllRegs, RxStateOf;
    StaysEstablished(states, ops, statuses, i, j);
    assert Step(ops[j], statuses[j], states[j], states[j + 1]);
  }
}
