/** DC offset calibration of the receive and transmit chains: what it changes in the transceiver while it searches for
    gains at which it converges, and what it puts back afterwards. */
module DcCal {
  import opened BitOps
  import opened GainTables
  import opened LmsDevice

  datatype CalModule = LPF_TUNING | TX_LPF | RX_LPF | RXVGA2 | INVALID

  predicate IsRx(m: CalModule) {
    m == RX_LPF || m == RXVGA2
  }

  // ---- Gains ----

  const LNA_GAIN_MAX := 3
  const RXVGA2_GAIN_MIN := 0
  const RXVGA2_GAIN_MAX := 30

  // What the two gain getters report for a register's value.
  function Vga1(data: Byte): (r: nat)
    ensures RXVGA1_GAIN_MIN <= r <= RXVGA1_GAIN_MAX
  {
    Code2Val(if data % 0x80 > 120 then 120 else data % 0x80)
  }

  function LnaGain(data: Byte): (r: nat)
    ensures r < 4
  {
    data / 0x40
  }

  predicate IsLnaGain(gain: nat) {
    gain == 1 || gain == 2 || gain == 3
  }

  function WithLna(data: Byte, gain: nat): (r: Byte)
    requires gain < 4
  {
    data % 0x40 + gain * 0x40
  }

  // Equal but for the LNA gain.
  predicate SameBelowLna(a: Byte, b: Byte) {
    a % 0x40 == b % 0x40
  }

  // A byte times three, in a byte.
  function Vga2(data: Byte): (r: nat) {
    (data as int * 3) % 0x100
  }

  // The RX gains that calibration lowers.
  datatype Gains = Gains(vga1: nat, vga2: nat)

  function GainsOf(regs: seq<Byte>): Gains
    requires |regs| == 0x80
  {
    Gains(Vga1(regs[0x76]), Vga2(regs[0x65]))
  }

  function Clamp(gain: int, min: nat, max: nat): (r: nat)
    requires min <= max
    ensures min <= r <= max
    ensures min <= gain <= max ==> r == gain
  {
    if gain > max then max else if gain < min then min else gain
  }

  // A saved reading of RXVGA2 is clamped and divided again when it is written back.
  lemma Vga2RestoredIff(data: Byte)
    ensures (Clamp(Vga2(data), 0, 30) / 3 == data) <==> data <= 10
  {}

  // ---- Register access ----

  lemma TopReplaced(data: Byte, gain: nat)
    requires gain < 4
    ensures SetBits(ClearBits(data, 0xC0), gain * 0x40) == WithLna(data, gain)
    ensures SameBelowLna(WithLna(data, gain), data)
  {
    hide Or, AndNot, Shl, Shr, Low, Pow2;
    Powers();
    ShlConstants(gain);
    ShlConstants(3);
    AndNotUpper(data, 2, 6);
    assert ClearBits(data, 0xC0) == data % 0x40 by {
      ShiftsAreDivisions(data);
    }
    OrIsSum(gain, data % 0x40, 6);
    OrCommutes(data % 0x40, gain * 0x40);
  }

  method LnaSetGain(dev: Device, gain: nat) returns (status: int)
    requires dev.Valid()
    modifies dev`trace, dev`failures, dev`regs
    ensures dev.Valid() && OnlyRegs(old(dev.regs), dev.regs, {0x75})
    ensures old(dev.trace) <= dev.trace && |dev.trace| <= |old(dev.trace)| + 2
    ensures !IsLnaGain(gain) ==> status == ERR_INVAL && dev.regs == old(dev.regs)
    ensures status == 0 ==> IsLnaGain(gain) && dev.regs[0x75] == WithLna(old(dev.regs)[0x75], gain)
    ensures SameBelowLna(dev.regs[0x75], old(dev.regs)[0x75])
    ensures Reliable(dev) && IsLnaGain(gain) ==> status == 0
    ensures status == 0 ==> dev.failures == old(dev.failures)
  {
    hide SetBits, ClearBits, OnlyRegs, WithLna;
    WroteOnly(dev.regs, 0x75, 0);
    if IsLnaGain(gain) {
      var data;
      status, data := dev.Read(0x75);
      TopReplaced(data, gain);
      WroteOnly(dev.regs, 0x75, WithLna(data, gain));
      if status == 0 {
        status := dev.Write(0x75, SetBits(ClearBits(data, 0xC0), gain * 0x40));
      }
    } else {
      status := ERR_INVAL;
    }
  }

  // A gain field of zero is not a gain.
  method LnaGetGain(dev: Device) returns (status: int, gain: nat)
    requires dev.Valid()
    modifies dev`trace, dev`failures
    ensures old(dev.trace) <= dev.trace && |dev.trace| == |old(dev.trace)| + 1
    ensures status == 0 ==> gain == LnaGain(dev.regs[0x75]) && IsLnaGain(gain)
    ensures Reliable(dev) ==> status == if IsLnaGain(LnaGain(dev.regs[0x75])) then 0 else ERR_INVAL
    ensures status == 0 ==> dev.failures == old(dev.failures)
  {
    var data;
    status, data := dev.Read(0x75);
    gain := data / 0x40;
    if status == 0 && gain == 0 {
      status := ERR_INVAL;
    }
  }

  method Rxvga1SetGain(dev: Device, gain: int) returns (status: int)
    requires dev.Valid()
    modifies dev`trace, dev`failures, dev`regs
    ensures dev.Valid() && OnlyRegs(old(dev.regs), dev.regs, {0x76})
    ensures old(dev.trace) <= dev.trace && |dev.trace| == |old(dev.trace)| + 1
    ensures var g := Clamp(gain, 5, 30);
            status == 0 ==>
              Vga1(dev.regs[0x76]) == g && dev.regs[0x76] == Val2Code(g) && (gain <= 5 ==> dev.regs[0x76] == 2)
    ensures Reliable(dev) ==> status == 0
    ensures status == 0 ==> dev.failures == old(dev.failures)
  {
    var g := gain;
    if g > RXVGA1_GAIN_MAX {
      g := RXVGA1_GAIN_MAX;
    } else if g < RXVGA1_GAIN_MIN {
      g := RXVGA1_GAIN_MIN;
    }
    TablesInverse(g);
    assert Vga1(Val2Code(g)) == g;
    hide Val2Code, Code2Val, Vga1;
    status := dev.Write(0x76, Val2Code(g));
  }

  method Rxvga1GetGain(dev: Device) returns (status: int, gain: nat)
    requires dev.Valid()
    modifies dev`trace, dev`failures
    ensures old(dev.trace) <= dev.trace && |dev.trace| == |old(dev.trace)| + 1
    ensures status == 0 ==> gain == Vga1(dev.regs[0x76])
    ensures Reliable(dev) ==> status == 0
    ensures status == 0 ==> dev.failures == old(dev.failures)
  {
    hide Code2Val;
    var data;
    status, data := dev.Read(0x76);
    data := data % 0x80;
    if data > 120 {
      data := 120;
    }
    gain := Code2Val(data);
  }

  method Rxvga2GetGain(dev: Device) returns (status: int, gain: nat)
    requires dev.Valid()
    modifies dev`trace, dev`failures
    ensures old(dev.trace) <= dev.trace && |dev.trace| == |old(dev.trace)| + 1
    ensures status == 0 ==> gain == Vga2(dev.regs[0x65])
    ensures Reliable(dev) ==> status == 0
    ensures status == 0 ==> dev.failures == old(dev.failures)
  {
    var data;
    status, data := dev.Read(0x65);
    gain := data as int * 3 % 0x100;
  }

  method Rxvga2SetGain(dev: Device, gain: int) returns (status: int)
    requires dev.Valid()
    modifies dev`trace, dev`failures, dev`regs
    ensures dev.Valid() && OnlyRegs(old(dev.regs), dev.regs, {0x65})
    ensures old(dev.trace) <= dev.trace && |dev.trace| == |old(dev.trace)| + 1
    ensures status == 0 ==> dev.regs[0x65] == Clamp(gain, 0, 30) / 3
    ensures Reliable(dev) ==> status == 0
    ensures status == 0 ==> dev.failures == old(dev.failures)
  {
    var g := gain;
    if g > RXVGA2_GAIN_MAX {
      g := RXVGA2_GAIN_MAX;
    } else if g < RXVGA2_GAIN_MIN {
      g := RXVGA2_GAIN_MIN;
    }
    status := dev.Write(0x65, g / 3);
  }

  // ---- The state of one calibration ----

  class DcCalState {
    var clkEn: Byte
    var reg0x72: Byte
    var lnaGain: nat
    var rxvga1Gain: int
    var rxvga2Gain: int
    var baseAddr: Byte
    var numSubmodules: nat
    var rxvga1CurrGain: int
    var rxvga2CurrGain: int

    // memset(state, 0, sizeof(state[0]))
    constructor ()
      ensures baseAddr == 0 && numSubmodules == 0
    {
      clkEn, reg0x72, lnaGain, rxvga1Gain, rxvga2Gain := 0, 0, 0, 0, 0;
      baseAddr, numSubmodules, rxvga1CurrGain, rxvga2CurrGain := 0, 0, 0, 0;
    }

    // The saved values are those of a register file.
    ghost predicate Saves(m: CalModule, regs: seq<Byte>)
      reads this
    {
      && |regs| == 0x80 && clkEn == regs[0x09]
      && (IsRx(m) ==>
            && reg0x72 == regs[0x72] && lnaGain == LnaGain(regs[0x75]) && IsLnaGain(lnaGain)
            && rxvga1Gain == Vga1(regs[0x76]) && rxvga2Gain == Vga2(regs[0x65]))
    }

    // The gains tried next are within range, and RXVGA2 is stepped through the gains it has codes for.
    ghost predicate InRange(m: CalModule)
      reads this
    {
      IsRx(m) ==>
        && RXVGA1_GAIN_MIN <= rxvga1CurrGain <= RXVGA1_GAIN_MAX
        && RXVGA2_GAIN_MIN <= rxvga2CurrGain <= RXVGA2_GAIN_MAX && rxvga2CurrGain % 3 == 0
    }

    // How many more times the gains can be lowered.
    ghost function TriesLeft(m: CalModule): (n: nat)
      requires InRange(m)
      reads this
      ensures n <= 35
    {
      if m == RX_LPF then rxvga1CurrGain - RXVGA1_GAIN_MIN
      else if m == RXVGA2 then rxvga1CurrGain - RXVGA1_GAIN_MIN + rxvga2CurrGain / 3
      else 0
    }

    // RXVGA2 is lowered only once RXVGA1 is as low as it goes.
    ghost predicate InOrder(m: CalModule)
      reads this
    {
      IsRx(m) && (m == RX_LPF || rxvga1CurrGain > RXVGA1_GAIN_MIN) ==> rxvga2CurrGain == RXVGA2_GAIN_MAX
    }
  }

  // How often the gains can be lowered at most.
  function MaxTries(m: CalModule): (n: nat)
    ensures n <= 35
  {
    if m == RX_LPF then 25 else if m == RXVGA2 then 35 else 0
  }

  // The gains of the attempt after which n more are left; modules without RX gains keep those they find.
  function GainsAt(m: CalModule, n: nat, found: Gains): Gains {
    if m == RX_LPF then Gains(5 + n, 30)
    else if m == RXVGA2 then if n <= 10 then Gains(5, 3 * n) else Gains(n - 5, 30)
    else found
  }

  // The registers the calibration of a module works on, besides those it saves first.
  function Worked(m: CalModule): set<nat> {
    match m
    case LPF_TUNING => {0x02, 0x03, 0x35, 0x55}
    case TX_LPF => {0x32, 0x33, 0x36, 0x3f}
    case RX_LPF => {0x52, 0x53, 0x5f}
    case RXVGA2 => {0x62, 0x63, 0x64, 0x68, 0x6e}
    case INVALID => {}
  }

  function Saved(m: CalModule): set<nat> {
    if IsRx(m) then {0x09, 0x65, 0x72, 0x75, 0x76} else {0x09}
  }

  function BaseAddr(m: CalModule): Byte {
    match m case LPF_TUNING => 0x00 case TX_LPF => 0x30 case RX_LPF => 0x50 case RXVGA2 => 0x60 case INVALID => 0x00
  }

  function Submodules(m: CalModule): nat {
    match m case LPF_TUNING => 1 case TX_LPF => 2 case RX_LPF => 2 case RXVGA2 => 5 case INVALID => 0
  }

  // The channels a module has, as the address of their registers and their number.
  predicate HasChannel(m: CalModule, base: Byte, i: nat) {
    match m
    case LPF_TUNING => base == 0x00 && i == 0
    case TX_LPF => base == 0x30 && i < 2
    case RX_LPF => base == 0x50 && i < 2
    case RXVGA2 => base == 0x60 && i < 5
    case INVALID => false
  }

  lemma Channels(m: CalModule, base: Byte, i: nat)
    ensures HasChannel(m, base, i) <==> base == BaseAddr(m) && i < Submodules(m)
  {}

  // The gains an RX calibration saves.
  method BackupGains(dev: Device, state: DcCalState) returns (status: int)
    requires dev.Valid()
    modifies dev`trace, dev`failures, state`lnaGain, state`rxvga1Gain, state`rxvga2Gain
    ensures old(dev.trace) <= dev.trace && |dev.trace| <= |old(dev.trace)| + 3
    ensures status == 0 ==> IsLnaGain(state.lnaGain) && state.lnaGain == LnaGain(dev.regs[0x75])
    ensures status == 0 ==> state.rxvga1Gain == Vga1(dev.regs[0x76]) && state.rxvga2Gain == Vga2(dev.regs[0x65])
    ensures Reliable(dev) ==> status == if IsLnaGain(LnaGain(dev.regs[0x75])) then 0 else ERR_INVAL
    ensures status == 0 ==> dev.failures == old(dev.failures)
  {
    hide Vga1, Vga2, LnaGain, IsLnaGain;
    var gain;
    status, gain := LnaGetGain(dev);
    if status != 0 {
      return;
    }
    state.lnaGain := gain;
    status, gain := Rxvga1GetGain(dev);
    if status != 0 {
      return;
    }
    state.rxvga1Gain := gain;
    status, gain := Rxvga2GetGain(dev);
    if status != 0 {
      return;
    }
    state.rxvga2Gain := gain;
  }

  method Backup(dev: Device, m: CalModule) returns (status: int, state: DcCalState)
    requires dev.Valid()
    modifies dev`trace, dev`failures
    ensures fresh(state) && old(dev.trace) <= dev.trace && |dev.trace| <= |old(dev.trace)| + 5
    ensures status == 0 ==> state.Saves(m, dev.regs)
    ensures state.baseAddr == 0 && state.numSubmodules == 0
    ensures Reliable(dev) ==> status == if IsRx(m) && !IsLnaGain(LnaGain(dev.regs[0x75])) then ERR_INVAL else 0
    ensures status == 0 ==> dev.failures == old(dev.failures)
  {
    hide Vga1, Vga2, LnaGain, IsLnaGain;
    state := new DcCalState();
    var data;
    status, data := dev.Read(0x09);
    if status != 0 {
      return;
    }
    state.clkEn := data;
    if IsRx(m) {
      status, data := dev.Read(0x72);
      if status != 0 {
        return;
      }
      state.reg0x72 := data;
      status := BackupGains(dev, state);
    }
  }

  // ---- The calibration loop of one submodule ----

  const DC_ADDR := 0x07
  const DC_LOAD := 0x10
  const DC_START := 0x20

  predicate IsBase(base: Byte) {
    base == 0x00 || base == 0x30 || base == 0x50 || base == 0x60
  }

  // A control write for submodule i with a strobe bit raised or lowered.
  predicate Strobes(access: Access, base: Byte, i: nat, strobe: nat, up: bool) {
    && access.Write? && access.addr == base + 3
    && And(access.value, 0x07) == i && And(access.value, strobe) == if up then strobe else 0
  }

  // The last five accesses load DC_CNTVAL and then start the calibration, each by raising and lowering its strobe.
  predicate Launched(trace: seq<Access>, base: Byte, i: nat, cntval: Byte) {
    var n := |trace|;
    && n >= 5 && trace[n - 5] == Access.Write(base + 2, cntval)
    && Strobes(trace[n - 4], base, i, 0x10, true) && Strobes(trace[n - 3], base, i, 0x10, false)
    && Strobes(trace[n - 2], base, i, 0x20, true) && Strobes(trace[n - 1], base, i, 0x20, false)
  }

  // Some time after the first `from` accesses, submodule i was calibrated.
  ghost predicate Calibrated(trace: seq<Access>, from: nat, base: Byte, i: nat) {
    exists k: nat, cntval: Byte :: from <= k <= |trace| && Launched(trace[..k], base, i, cntval)
  }

  lemma StillCalibrated(trace: seq<Access>, longer: seq<Access>, from: nat, later: nat, base: Byte, i: nat)
    requires trace <= longer && from <= later && Calibrated(trace, later, base, i)
    ensures Calibrated(longer, from, base, i)
  {
    hide Launched;
    var k: nat, cntval: Byte :| later <= k <= |trace| && Launched(trace[..k], base, i, cntval);
    assert longer[..k] == trace[..k];
  }

  lemma StrobeMasks(i: nat)
    ensures Bit(DC_ADDR, i) == (i < 3) && Bit(DC_LOAD, i) == (i == 4) && Bit(DC_START, i) == (i == 5)
  {
    assert Pow2(0) == 1 && Pow2(3) == 8 && Pow2(4) == 16 && Pow2(5) == 32;
    hide Bit, Pow2;
    FieldMaskBit(0, 3, i);
    Pow2Bit(4, i);
    Pow2Bit(5, i);
  }

  // The bits of the control register that are neither the address nor a strobe.
  ghost predicate KeepsControl(before: Byte, after: Byte) {
    Bit(after, 3) == Bit(before, 3) && Bit(after, 6) == Bit(before, 6) && Bit(after, 7) == Bit(before, 7)
  }

  lemma ControlKept(v: Byte, i: nat, strobe: Byte)
    requires i <= DC_ADDR && (strobe == DC_LOAD || strobe == DC_START)
    ensures KeepsControl(v, SetBits(ClearBits(v, DC_ADDR), i))
    ensures KeepsControl(v, SetBits(v, strobe)) && KeepsControl(v, ClearBits(v, strobe))
  {
    hide Bit, Or, AndNot;
    forall k | k in {3, 6, 7}
      ensures Bit(SetBits(ClearBits(v, DC_ADDR), i), k) == Bit(v, k)
      ensures Bit(SetBits(v, strobe), k) == Bit(v, k) && Bit(ClearBits(v, strobe), k) == Bit(v, k)
    {
      StrobeMasks(k);
      SmallBits(i, k);
      AndNotBit(v, DC_ADDR, k);
      OrBit(ClearBits(v, DC_ADDR), i, k);
      OrBit(v, strobe, k);
      AndNotBit(v, strobe, k);
    }
    assert 3 in {3, 6, 7} && 6 in {3, 6, 7} && 7 in {3, 6, 7};
  }

  lemma StrobePulse(v: Byte, strobe: Byte)
    requires strobe == DC_LOAD || strobe == DC_START
    ensures var up, down := SetBits(v, strobe), ClearBits(SetBits(v, strobe), strobe);
            && And(up, strobe) == strobe && And(down, strobe) == 0
            && And(up, DC_ADDR) == And(v, DC_ADDR) == And(down, DC_ADDR)
  {
    hide And, Or, AndNot, Bit;
    forall i: nat
      ensures Bit(DC_ADDR, i) ==> !Bit(strobe, i)
    {
      StrobeMasks(i);
    }
    MaskUndisturbed(v, DC_ADDR, strobe);
    MaskUndisturbed(SetBits(v, strobe), DC_ADDR, strobe);
    FieldSet(v, strobe, strobe);
    ClearAndSet(v, strobe);
    ClearedIsClear(SetBits(v, strobe), strobe);
  }

  lemma AddressSet(v: Byte, i: nat)
    requires i <= DC_ADDR
    ensures And(SetBits(ClearBits(v, DC_ADDR), i), DC_ADDR) == i
  {
    hide And, Or, AndNot, Bit;
    forall k: nat
      ensures Bit(i, k) ==> Bit(DC_ADDR, k)
    {
      SmallBits(i, k);
    }
    FieldSet(v, DC_ADDR, i);
  }

  lemma SmallBits(i: nat, k: nat)
    requires i <= DC_ADDR
    ensures Bit(i, k) ==> Bit(DC_ADDR, k)
  {
    StrobeMasks(k);
    if k >= 3 {
      ZeroBit(k - 3);
      assert !Bit(i / 2 / 2, k - 2);
      assert !Bit(i / 2, k - 1);
    }
  }

  // Raise and lower a strobe.
  method Pulse(dev: Device, base: Byte, val: Byte, strobe: Byte) returns (status: int, low: Byte)
    requires dev.Valid() && IsBase(base) && (strobe == DC_LOAD || strobe == DC_START)
    modifies dev`trace, dev`failures, dev`regs
    ensures dev.Valid() && OnlyRegs(old(dev.regs), dev.regs, {base + 3})
    ensures old(dev.trace) <= dev.trace && |dev.trace| <= |old(dev.trace)| + 2
    ensures And(low, DC_ADDR) == And(val, DC_ADDR) && KeepsControl(val, low)
    ensures KeepsControl(val, old(dev.regs)[base + 3]) ==> KeepsControl(val, dev.regs[base + 3])
    ensures status == ERR_IO || status == 0
    ensures status == 0 ==>
              && |dev.trace| == |old(dev.trace)| + 2 && dev.regs[base + 3] == low
              && Strobes(dev.trace[|dev.trace| - 2], base, And(val, DC_ADDR), strobe, true)
              && Strobes(dev.trace[|dev.trace| - 1], base, And(val, DC_ADDR), strobe, false)
    ensures Reliable(dev) ==> status == 0
    ensures status == 0 ==> dev.failures == old(dev.failures)
  {
    hide Bit, And, Or, AndNot, SetBits, ClearBits, IsBase, Volatile;
    BaseRegisters(base);
    StrobePulse(val, strobe);
    ControlKept(val, 0, strobe);
    ControlKept(SetBits(val, strobe), 0, strobe);
    low := ClearBits(SetBits(val, strobe), strobe);
    status := dev.Write(base + 3, SetBits(val, strobe));
    if status != 0 {
      return;
    }
    status := dev.Write(base + 3, low);
  }

  lemma AddressSteps(regs: seq<Byte>, base: Byte, val: Byte, cntval: Byte)
    requires |regs| == 0x80 && IsBase(base)
    ensures var used := {base + 2, base + 3};
            && OnlyRegs(regs, regs, used) && OnlyRegs(regs, regs[base + 3 := val], used)
            && OnlyRegs(regs, regs[base + 3 := val][base + 2 := cntval], used)
  {}

  lemma BaseRegisters(base: Byte)
    requires IsBase(base)
    ensures base + 3 < 0x80 && (base + 2) % 0x80 == base + 2 && (base + 3) % 0x80 == base + 3
    ensures !Volatile(base + 2) && !Volatile(base + 3)
  {}

  // Select the submodule and set its DC_CNTVAL.
  method Address(dev: Device, base: Byte, calAddress: nat, dcCntval: Byte) returns (status: int, val: Byte)
    requires dev.Valid() && IsBase(base) && calAddress < 5
    modifies dev`trace, dev`failures, dev`regs
    ensures dev.Valid() && OnlyRegs(old(dev.regs), dev.regs, {base + 2, base + 3})
    ensures old(dev.trace) <= dev.trace && |dev.trace| <= |old(dev.trace)| + 3
    ensures KeepsControl(old(dev.regs)[base + 3], dev.regs[base + 3])
    ensures status == 0 ==> KeepsControl(dev.regs[base + 3], val) && KeepsControl(old(dev.regs)[base + 3], val)
    ensures status == ERR_IO || status == 0
    ensures status == 0 ==>
              && dev.regs[base + 2] == dcCntval && And(val, DC_ADDR) == calAddress
              && |dev.trace| > 0 && dev.trace[|dev.trace| - 1] == Access.Write(base + 2, dcCntval)
    ensures Reliable(dev) ==> status == 0
    ensures status == 0 ==> dev.failures == old(dev.failures)
  {
    hide Bit, And, SetBits, ClearBits, OnlyRegs, IsBase, Volatile;
    BaseRegisters(base);
    ghost var r0 := dev.regs;
    status, val := dev.Read(base + 3);
    AddressSteps(r0, base, SetBits(ClearBits(val, DC_ADDR), calAddress), dcCntval);
    if status != 0 {
      return;
    }
    AddressSet(val, calAddress);
    ControlKept(val, calAddress, DC_LOAD);
    val := SetBits(ClearBits(val, DC_ADDR), calAddress);
    status := dev.Write(base + 3, val);
    if status != 0 {
      return;
    }
    status := dev.Write(base + 2, dcCntval);
  }

  method Launch(dev: Device, base: Byte, calAddress: nat, dcCntval: Byte) returns (status: int)
    requires dev.Valid() && IsBase(base) && calAddress < 5
    modifies dev`trace, dev`failures, dev`regs
    ensures dev.Valid() && OnlyRegs(old(dev.regs), dev.regs, {base + 2, base + 3})
    ensures old(dev.trace) <= dev.trace && |dev.trace| <= |old(dev.trace)| + 7
    ensures KeepsControl(old(dev.regs)[base + 3], dev.regs[base + 3])
    ensures status == ERR_IO || status == 0
    ensures status == 0 ==> dev.regs[base + 2] == dcCntval && Launched(dev.trace, base, calAddress, dcCntval)
    ensures status == 0 ==> And(dev.regs[base + 3], DC_ADDR) == calAddress
    ensures Reliable(dev) ==> status == 0
    ensures status == 0 ==> dev.failures == old(dev.failures)
  {
    hide Bit, And, Strobes;
    var val;
    status, val := Address(dev, base, calAddress, dcCntval);
    if status != 0 {
      return;
    }
    status, val := Pulse(dev, base, val, DC_LOAD);
    if status != 0 {
      return;
    }
    status, val := Pulse(dev, base, val, DC_START);
  }

  // DC_CLBR_DONE is active low.
  predicate Done(data: Byte) {
    !Bit(data, 1)
  }

  lemma DoneBit(data: Byte)
    ensures Done(data) <==> data / 2 % 2 == 0
  {
    assert Bit(data, 1) == Bit(data / 2, 0);
  }

  // DC_REGVAL is the lower six bits.
  function RegVal(data: Byte): (r: Byte)
    ensures r < 0x40
  {
    data % 0x40
  }

  type Sensor = (seq<Access>, seq<Byte>, nat) -> Byte

  ghost predicate NotDoneAt(sensed: Sensor, regs: seq<Byte>, trace: seq<Access>, base: Byte, k: nat)
    requires k < |trace|
  {
    trace[k] == Access.Read(base + 1) && !Done(sensed(trace[..k], regs, base + 1))
  }

  // The last n accesses polled the status, which never said done.
  ghost predicate PolledInVain(sensed: Sensor, regs: seq<Byte>, trace: seq<Access>, base: Byte, n: nat) {
    n <= |trace| && forall k :: |trace| - n <= k < |trace| ==> NotDoneAt(sensed, regs, trace, base, k)
  }

  lemma NotPolledYet(sensed: Sensor, regs: seq<Byte>, trace: seq<Access>, base: Byte)
    ensures PolledInVain(sensed, regs, trace, base, 0)
  {}

  lemma PolledOnceMore(sensed: Sensor, regs: seq<Byte>, trace: seq<Access>, base: Byte, n: nat)
    requires PolledInVain(sensed, regs, trace, base, n) && !Done(sensed(trace, regs, base + 1))
    ensures PolledInVain(sensed, regs, trace + [Access.Read(base + 1)], base, n + 1)
  {
    hide Done;
    var longer := trace + [Access.Read(base + 1)];
    assert longer[..|trace|] == trace;
    forall k | |trace| - n <= k < |trace|
      ensures NotDoneAt(sensed, regs, longer, base, k)
    {
      assert NotDoneAt(sensed, regs, trace, base, k);
      assert longer[..k] == trace[..k];
    }
  }

  // The last two accesses read a status that said done, and then the resulting DC_REGVAL.
  ghost predicate Measured(sensed: Sensor, regs: seq<Byte>, trace: seq<Access>, base: Byte, regval: Byte) {
    var n := |trace|;
    && n >= 2
    && trace[n - 2] == Access.Read(base + 1) && Done(sensed(trace[..n - 2], regs, base + 1))
    && trace[n - 1] == Access.Read(base) && regval == RegVal(sensed(trace[..n - 1], regs, base))
  }

  lemma MeasuredNow(sensed: Sensor, regs: seq<Byte>, trace: seq<Access>, base: Byte, longer: seq<Access>)
    requires Done(sensed(trace, regs, base + 1)) && longer == trace + [Access.Read(base + 1)] + [Access.Read(base)]
    ensures Measured(sensed, regs, longer, base, RegVal(sensed(trace + [Access.Read(base + 1)], regs, base)))
  {
    assert longer[..|trace|] == trace && longer[..|trace| + 1] == trace + [Access.Read(base + 1)];
  }

  const MAX_CAL_COUNT := 25

  method Poll(dev: Device, base: Byte) returns (status: int, dcRegval: Byte)
    requires dev.Valid() && IsBase(base)
    modifies dev`trace, dev`failures
    ensures old(dev.trace) <= dev.trace && |dev.trace| <= |old(dev.trace)| + 26
    ensures status == 0 ==> dcRegval < 0x40 && Measured(dev.sensed, dev.regs, dev.trace, base, dcRegval)
    ensures status == ERR_UNEXPECTED ==> PolledInVain(dev.sensed, dev.regs, dev.trace, base, 25)
    ensures Reliable(dev) ==> status == 0 || status == ERR_UNEXPECTED
    ensures status == 0 ==> dev.failures == old(dev.failures)
  {
    hide Done, Measured, PolledInVain;
    NotPolledYet(dev.sensed, dev.regs, dev.trace, base);
    var i, done := 0, false;
    dcRegval, status := 0, 0;
    while i < MAX_CAL_COUNT && !done
      invariant 0 <= i <= MAX_CAL_COUNT && old(dev.trace) <= dev.trace
      invariant |dev.trace| == |old(dev.trace)| + i + if done then 1 else 0
      invariant status == 0 ==> dev.failures == old(dev.failures)
      invariant !done ==> status == 0 && PolledInVain(dev.sensed, dev.regs, dev.trace, base, i)
      invariant done ==> (status == 0 || status == ERR_IO) && (Reliable(dev) ==> status == 0)
      invariant done && status == 0 ==> dcRegval < 0x40 && Measured(dev.sensed, dev.regs, dev.trace, base, dcRegval)
      decreases MAX_CAL_COUNT - i
    {
      var val;
      ghost var before := dev.trace;
      status, val := dev.Read(base + 1);
      if status != 0 {
        return;
      }
      DoneBit(val);
      if val / 2 % 2 == 0 {
        done := true;
        status, dcRegval := dev.Read(base);
        MeasuredNow(dev.sensed, dev.regs, before, base, dev.trace);
        if status == 0 {
          dcRegval := dcRegval % 0x40;
        }
      } else {
        PolledOnceMore(dev.sensed, dev.regs, before, base, i);
      }
      i := i + 1;
    }
    if !done {
      status := ERR_UNEXPECTED;
    }
  }

  // Calibrate one submodule from one starting value.
  method DcCalLoop(dev: Device, base: Byte, calAddress: nat, dcCntval: Byte) returns (status: int, dcRegval: Byte)
    requires dev.Valid() && IsBase(base) && calAddress < 5
    modifies dev`trace, dev`failures, dev`regs
    ensures dev.Valid() && OnlyRegs(old(dev.regs), dev.regs, {base + 2, base + 3})
    ensures old(dev.trace) <= dev.trace && |dev.trace| <= |old(dev.trace)| + 33
    ensures KeepsControl(old(dev.regs)[base + 3], dev.regs[base + 3])
    ensures status == 0 ==>
              && dcRegval < 0x40 && Measured(dev.sensed, dev.regs, dev.trace, base, dcRegval)
              && dev.regs[base + 2] == dcCntval && Calibrated(dev.trace, |old(dev.trace)|, base, calAddress)
              && And(dev.regs[base + 3], 0x07) == calAddress
    ensures status == ERR_UNEXPECTED ==>
              && PolledInVain(dev.sensed, dev.regs, dev.trace, base, 25)
              && And(dev.regs[base + 3], 0x07) == calAddress
    ensures Reliable(dev) ==> status == 0 || status == ERR_UNEXPECTED
    ensures status == 0 ==> dev.failures == old(dev.failures)
  {
    hide Launched, Measured, PolledInVain, OnlyRegs, Done, And, Bit;
    dcRegval := 0;
    status := Launch(dev, base, calAddress, dcCntval);
    if status != 0 {
      return;
    }
    ghost var launched := dev.trace;
    assert launched[..|launched|] == launched;
    assert Calibrated(launched, |old(dev.trace)|, base, calAddress);
    status, dcRegval := Poll(dev, base);
    StillCalibrated(launched, dev.trace, |old(dev.trace)|, |old(dev.trace)|, base, calAddress);
  }

  // The RXVGA2 stage gains a submodule is calibrated with: A = B = 0 for the RC reference, then A, then B.
  function StageGains(submodule: nat): Byte {
    if submodule == 0 then 0x01 else if submodule < 3 then 0x06 else 0x60
  }

  // Except for the reference, the gains are controlled directly.
  ghost predicate StageSet(m: CalModule, submodule: nat, regs: seq<Byte>)
    requires |regs| == 0x80
  {
    m == RXVGA2 ==> regs[0x68] == StageGains(submodule) && regs[0x64] % 2 == if submodule == 0 then 0 else 1
  }

  // ---- A device whose calibrations always finish ----

  // Whether the search for a submodule stays at the DC_CNTVAL it starts from, at some gains.
  type Sticking = (nat, Byte, Gains) -> bool

  // The search from 0 matters only where the one from 31 sticks. Otherwise a result may be anything.
  ghost predicate AnswersAt(sensed: Sensor, base: Byte, sticks: Sticking, t: seq<Access>, regs: seq<Byte>)
    requires |regs| == 0x80 && IsBase(base)
  {
    var i, regval := And(regs[base + 3], 0x07), RegVal(sensed(t, regs, base));
    && Done(sensed(t, regs, base + 1))
    && (regs[base + 2] == 31 ==> (regval == 31 <==> sticks(i, 31, GainsOf(regs))))
    && (regs[base + 2] == 0 && sticks(i, 31, GainsOf(regs)) ==> (regval == 0 <==> sticks(i, 0, GainsOf(regs))))
  }

  // The calibration clock runs, the comparators are powered up, the DAC is off, and the LNA is disconnected and at its
  // highest gain, as far as the module needs it.
  predicate Ready(m: CalModule, regs: seq<Byte>)
    requires |regs| == 0x80
  {
    match m
    case LPF_TUNING => Bit(regs[0x09], 5)
    case TX_LPF => Bit(regs[0x09], 1) && Bit(regs[0x36], 7) && !Bit(regs[0x3f], 7)
    case RX_LPF => Bit(regs[0x09], 3) && !Bit(regs[0x5f], 7) && !Bit(regs[0x72], 7) && regs[0x75] / 0x40 == 3
    case RXVGA2 =>
      && Bit(regs[0x09], 4) && !Bit(regs[0x6e], 6) && !Bit(regs[0x6e], 7)
      && !Bit(regs[0x72], 7) && regs[0x75] / 0x40 == 3
    case INVALID => false
  }

  lemma ReadySince(m: CalModule, before: seq<Byte>, after: seq<Byte>, changed: set<nat>)
    requires OnlyRegs(before, after, changed) && changed !! {0x09, 0x36, 0x3f, 0x5f, 0x6e, 0x72, 0x75}
    ensures Ready(m, after) <==> Ready(m, before)
  {
    hide Bit;
  }

  // The module is ready, and the stages are set for the channel it is about to calibrate.
  ghost predicate Prepared(m: CalModule, regs: seq<Byte>)
    requires |regs| == 0x80
  {
    Ready(m, regs) && StageSet(m, And(regs[BaseAddr(m) + 3], 0x07), regs)
  }

  // Every search finishes, provided that the chip is prepared for it.
  ghost predicate Answers(dev: Device, m: CalModule, sticks: Sticking) {
    && Reliable(dev)
    && forall t, regs :: |regs| == 0x80 && Prepared(m, regs) ==> AnswersAt(dev.sensed, BaseAddr(m), sticks, t, regs)
  }

  lemma AnswersReliably(dev: Device, m: CalModule, sticks: Sticking)
    ensures Answers(dev, m, sticks) ==> Reliable(dev)
  {}

  predicate Converges(sticks: Sticking, i: nat, gains: Gains) {
    !sticks(i, 31, gains) || !sticks(i, 0, gains)
  }

  ghost predicate AllConverge(sticks: Sticking, m: CalModule, gains: Gains) {
    forall base, i :: HasChannel(m, base, i) ==> Converges(sticks, i, gains)
  }

  ghost predicate ConvergesAt(sticks: Sticking, m: CalModule, n: nat, found: Gains) {
    AllConverge(sticks, m, GainsAt(m, n, found))
  }

  // All submodules converge at some of the gains tried.
  ghost predicate SomeConverge(sticks: Sticking, m: CalModule, found: Gains, tries: nat) {
    exists n: nat :: n <= tries && ConvergesAt(sticks, m, n, found)
  }

  lemma NeverInVain(dev: Device, m: CalModule, sticks: Sticking, regs: seq<Byte>, trace: seq<Access>, n: nat)
    requires Answers(dev, m, sticks) && |regs| == 0x80 && Prepared(m, regs) && n > 0
    ensures !PolledInVain(dev.sensed, regs, trace, BaseAddr(m), n)
  {
    hide Done, GainsOf, And, RegVal, Prepared;
    if n <= |trace| {
      assert AnswersAt(dev.sensed, BaseAddr(m), sticks, trace[..|trace| - 1], regs);
      assert !NotDoneAt(dev.sensed, regs, trace, BaseAddr(m), |trace| - 1);
    }
  }

  lemma ResultIs(dev: Device, m: CalModule, sticks: Sticking, regs: seq<Byte>, trace: seq<Access>, regval: Byte)
    requires Answers(dev, m, sticks) && |regs| == 0x80 && Prepared(m, regs)
    requires Measured(dev.sensed, regs, trace, BaseAddr(m), regval)
    ensures var i, base := And(regs[BaseAddr(m) + 3], 0x07), BaseAddr(m);
            && (regs[base + 2] == 31 ==> (regval == 31 <==> sticks(i, 31, GainsOf(regs))))
            && (regs[base + 2] == 0 && sticks(i, 31, GainsOf(regs)) ==> (regval == 0 <==> sticks(i, 0, GainsOf(regs))))
  {
    hide Done, GainsOf, And, RegVal, Prepared;
    assert AnswersAt(dev.sensed, BaseAddr(m), sticks, trace[..|trace| - 1], regs);
  }

  // ---- One submodule ----

  // Up to the bits that finishing the calibration of a module sets, clears or may set to a result, the work registers
  // are the same.
  ghost predicate Alike(m: CalModule, before: seq<Byte>, after: seq<Byte>) {
    && |before| == |after| == 0x80
    && KeepsControl(before[BaseAddr(m) + 3], after[BaseAddr(m) + 3])
    && match m
       case LPF_TUNING => after[0x35] / 0x40 == before[0x35] / 0x40 && after[0x55] / 0x40 == before[0x55] / 0x40
       case TX_LPF =>
         && ClearBits(after[0x36], 0x80) == ClearBits(before[0x36], 0x80)
         && SetBits(after[0x3f], 0x80) == SetBits(before[0x3f], 0x80)
       case RX_LPF => SetBits(after[0x5f], 0x80) == SetBits(before[0x5f], 0x80)
       case RXVGA2 =>
         && ClearBits(after[0x64], 0x01) == ClearBits(before[0x64], 0x01)
         && SetBits(after[0x6e], 0xC0) == SetBits(before[0x6e], 0xC0)
       case INVALID => true
  }

  lemma AlikeSteps(m: CalModule, r0: seq<Byte>, r1: seq<Byte>, r2: seq<Byte>)
    requires Alike(m, r0, r1) && Alike(m, r1, r2)
    ensures Alike(m, r0, r2)
  {
    hide SetBits, ClearBits, Bit;
  }

  lemma AlikeElsewhere(m: CalModule, before: seq<Byte>, after: seq<Byte>, changed: set<nat>)
    requires OnlyRegs(before, after, changed)
    requires changed !! {0x03, 0x33, 0x53, 0x63, 0x35, 0x36, 0x3f, 0x55, 0x5f, 0x64, 0x6e}
    ensures Alike(m, before, after)
  {
    hide SetBits, ClearBits, Bit;
  }

  lemma DecodeBit(v: Byte)
    ensures SetBits(v, 0x01) % 2 == 1 && ClearBits(v, 0x01) % 2 == 0
    ensures ClearBits(SetBits(v, 0x01), 0x01) == ClearBits(v, 0x01) == ClearBits(ClearBits(v, 0x01), 0x01)
  {
    hide And, Or, AndNot, SetBits, ClearBits;
    OrHalf(v, 0x01);
    AndNotUnfold(v, 0x01);
    ClearAndSet(v, 0x01);
  }

  function Decoded(v: Byte, direct: bool): Byte {
    if direct then SetBits(v, 0x01) else ClearBits(v, 0x01)
  }

  lemma Staged(regs: seq<Byte>, direct: bool, gains: Byte)
    requires |regs| == 0x80
    ensures var half := regs[0x64 := Decoded(regs[0x64], direct)];
            && OnlyRegs(regs, regs, {0x64, 0x68}) && Alike(RXVGA2, regs, regs)
            && OnlyRegs(regs, half, {0x64, 0x68}) && Alike(RXVGA2, regs, half)
            && OnlyRegs(regs, half[0x68 := gains], {0x64, 0x68}) && Alike(RXVGA2, regs, half[0x68 := gains])
            && half[0x64] % 2 == if direct then 1 else 0
  {
    hide SetBits, ClearBits, Bit;
    DecodeBit(regs[0x64]);
  }

  // Choose who controls the stage gains, and set them.
  method StageControl(dev: Device, direct: bool, gains: Byte) returns (status: int)
    requires dev.Valid()
    modifies dev`trace, dev`failures, dev`regs
    ensures dev.Valid() && OnlyRegs(old(dev.regs), dev.regs, {0x64, 0x68})
    ensures Alike(RXVGA2, old(dev.regs), dev.regs)
    ensures old(dev.trace) <= dev.trace && |dev.trace| <= |old(dev.trace)| + 3
    ensures status == 0 ==> dev.regs[0x68] == gains && dev.regs[0x64] % 2 == if direct then 1 else 0
    ensures Reliable(dev) ==> status == 0
    ensures status == 0 ==> dev.failures == old(dev.failures)
  {
    hide SetBits, ClearBits, OnlyRegs, Alike;
    Staged(dev.regs, direct, gains);
    if direct {
      status := SetReg(dev, 0x64, 0x01);
    } else {
      status := ClearReg(dev, 0x64, 0x01);
    }
    if status == 0 {
      status := dev.Write(0x68, gains);
    }
  }

  // The stage gains rely on the submodules being calibrated in increasing order.
  method SetStage(dev: Device, submodule: nat) returns (status: int)
    requires dev.Valid() && submodule < 5
    requires submodule > 0 ==> StageSet(RXVGA2, submodule - 1, dev.regs)
    modifies dev`trace, dev`failures, dev`regs
    ensures dev.Valid() && OnlyRegs(old(dev.regs), dev.regs, {0x64, 0x68})
    ensures Alike(RXVGA2, old(dev.regs), dev.regs)
    ensures old(dev.trace) <= dev.trace && |dev.trace| <= |old(dev.trace)| + 3
    ensures status == 0 ==> StageSet(RXVGA2, submodule, dev.regs)
    ensures Reliable(dev) ==> status == 0
    ensures status == 0 ==> dev.failures == old(dev.failures)
  {
    hide SetBits, ClearBits, Bit;
    status := 0;
    if submodule == 0 {
      status := StageControl(dev, false, 0x01);
    } else if submodule == 1 {
      status := StageControl(dev, true, 0x06);
    } else if submodule == 3 {
      status := dev.Write(0x68, 0x60);
    }
  }

  function Replaced(v: Byte, low: Byte): (r: Byte)
    requires low < 0x40
  {
    v / 0x40 * 0x40 + low
  }

  lemma ReplacedParts(v: Byte, low: Byte)
    requires low < 0x40
    ensures Replaced(v, low) / 0x40 == v / 0x40 && Replaced(v, low) % 0x40 == low
  {}

  lemma FieldReplaced(v: Byte, low: Byte)
    requires low < 0x40
    ensures SetBits(ClearBits(v, 0x3f), low) == Replaced(v, low)
  {
    hide Or, AndNot, Shl, Shr, Low, Pow2;
    ShlConstants(v / 0x40);
    AndNotLower(v, 6);
    ShiftsAreDivisions(v);
    OrIsSum(v / 0x40, low, 6);
  }

  // Put a result in the lower six bits of a register.
  method PutResult(dev: Device, addr: Byte, dcRegval: Byte) returns (status: int)
    requires dev.Valid() && (addr == 0x35 || addr == 0x55) && dcRegval < 0x40
    modifies dev`trace, dev`failures, dev`regs
    ensures dev.Valid() && OnlyRegs(old(dev.regs), dev.regs, {addr as int})
    ensures old(dev.trace) <= dev.trace && |dev.trace| <= |old(dev.trace)| + 2
    ensures status == 0 ==> dev.regs[addr] == Replaced(old(dev.regs)[addr], dcRegval)
    ensures status != 0 ==> dev.regs == old(dev.regs)
    ensures Reliable(dev) ==> status == 0
    ensures status == 0 ==> dev.failures == old(dev.failures)
  {
    hide SetBits, ClearBits, Replaced, OnlyRegs;
    WroteOnly(dev.regs, addr, Replaced(dev.regs[addr], dcRegval));
    var val;
    status, val := dev.Read(addr);
    FieldReplaced(val, dcRegval);
    if status == 0 {
      status := dev.Write(addr, SetBits(ClearBits(val, 0x3f), dcRegval));
    }
  }

  method PutResults(dev: Device, dcRegval: Byte) returns (status: int)
    requires dev.Valid() && dcRegval < 0x40
    modifies dev`trace, dev`failures, dev`regs
    ensures dev.Valid() && OnlyRegs(old(dev.regs), dev.regs, {0x35, 0x55}) && Alike(LPF_TUNING, old(dev.regs), dev.regs)
    ensures old(dev.trace) <= dev.trace && |dev.trace| <= |old(dev.trace)| + 4
    ensures status == 0 ==> dev.regs[0x35] % 0x40 == dev.regs[0x55] % 0x40 == dcRegval
    ensures Reliable(dev) ==> status == 0
    ensures status == 0 ==> dev.failures == old(dev.failures)
  {
    hide Replaced;
    ReplacedParts(dev.regs[0x35], dcRegval);
    ReplacedParts(dev.regs[0x55], dcRegval);
    status := PutResult(dev, 0x35, dcRegval);
    if status != 0 {
      return;
    }
    status := PutResult(dev, 0x55, dcRegval);
  }

  // What a submodule's calibration left behind: the result last measured, which is good exactly when it differs from
  // the DC_CNTVAL the search started from. LPF tuning hands its good result to both low-pass filters.
  ghost predicate Result(m: CalModule, dev: Device, converged: bool)
    requires dev.Valid()
    reads dev`trace, dev`regs
  {
    if m == LPF_TUNING && converged then
      dev.regs[0x35] % 0x40 == dev.regs[0x55] % 0x40 != dev.regs[0x02]
    else
      exists dcRegval: Byte ::
        && Measured(dev.sensed, dev.regs, dev.trace, BaseAddr(m), dcRegval)
        && (converged <==> dcRegval != dev.regs[BaseAddr(m) + 2])
  }

  // A search changes nothing but the base registers of its module.
  lemma SearchSteps(m: CalModule, submodule: nat, r0: seq<Byte>, r1: seq<Byte>, r2: seq<Byte>)
    requires OnlyRegs(r0, r1, Worked(m)) && Alike(m, r0, r1) && m != INVALID
    requires OnlyRegs(r1, r2, {BaseAddr(m) + 2, BaseAddr(m) + 3})
    requires KeepsControl(r1[BaseAddr(m) + 3], r2[BaseAddr(m) + 3])
    ensures OnlyRegs(r0, r2, Worked(m)) && Alike(m, r0, r2)
    ensures StageSet(m, submodule, r1) ==> StageSet(m, submodule, r2)
  {
    hide SetBits, ClearBits, Bit;
  }

  lemma PreparedSince(m: CalModule, before: seq<Byte>, after: seq<Byte>)
    requires m != INVALID && OnlyRegs(before, after, {BaseAddr(m) + 2, BaseAddr(m) + 3}) && Ready(m, before)
    requires StageSet(m, And(after[BaseAddr(m) + 3], 0x07), before)
    ensures Prepared(m, after)
  {
    ReadySince(m, before, after, {BaseAddr(m) + 2, BaseAddr(m) + 3});
    hide And, Ready;
  }

  // What one search of a device that answers says, whichever way it ended.
  lemma Searched(dev: Device, m: CalModule, i: nat, sticks: Sticking, r0: seq<Byte>, regs: seq<Byte>,
                 trace: seq<Access>, status: int, regval: Byte)
    requires m != INVALID && OnlyRegs(r0, regs, {BaseAddr(m) + 2, BaseAddr(m) + 3})
    requires status == 0 ==>
               Measured(dev.sensed, regs, trace, BaseAddr(m), regval) && And(regs[BaseAddr(m) + 3], 0x07) == i
    requires status == ERR_UNEXPECTED ==>
               PolledInVain(dev.sensed, regs, trace, BaseAddr(m), 25) && And(regs[BaseAddr(m) + 3], 0x07) == i
    requires Reliable(dev) ==> status == 0 || status == ERR_UNEXPECTED
    ensures var base := BaseAddr(m);
            Answers(dev, m, sticks) && Ready(m, r0) && StageSet(m, i, r0) ==>
              && status == 0
              && (regs[base + 2] == 31 ==> (regval == 31 <==> sticks(i, 31, GainsOf(r0))))
              && (regs[base + 2] == 0 && sticks(i, 31, GainsOf(r0)) ==> (regval == 0 <==> sticks(i, 0, GainsOf(r0))))
  {
    SameGains(r0, regs, {BaseAddr(m) + 2, BaseAddr(m) + 3});
    if Answers(dev, m, sticks) && Ready(m, r0) && StageSet(m, i, r0) {
      hide And, GainsOf, Measured, PolledInVain, AnswersAt, Ready, StageSet, Prepared;
      PreparedSince(m, r0, regs);
      if status == 0 {
        ResultIs(dev, m, sticks, regs, trace, regval);
      } else {
        NeverInVain(dev, m, sticks, regs, trace, 25);
      }
    }
  }

  lemma SameGains(before: seq<Byte>, after: seq<Byte>, changed: set<nat>)
    requires OnlyRegs(before, after, changed) && changed !! {0x65, 0x76}
    ensures GainsOf(after) == GainsOf(before)
  {
    hide Vga1, Vga2;
  }

  // Calibrate from 31, and if the result says that the search never left 31, from 0, which is then just as bad.
  method Search(dev: Device, base: Byte, submodule: nat, ghost m: CalModule, ghost sticks: Sticking)
    returns (status: int, dcRegval: Byte, good: bool)
    requires dev.Valid() && m != INVALID && base == BaseAddr(m) && submodule < 5
    modifies dev`trace, dev`failures, dev`regs
    ensures dev.Valid() && OnlyRegs(old(dev.regs), dev.regs, {base + 2, base + 3})
    ensures old(dev.trace) <= dev.trace && |dev.trace| <= |old(dev.trace)| + 66
    ensures KeepsControl(old(dev.regs)[base + 3], dev.regs[base + 3])
    ensures status == 0 ==>
              && dcRegval < 0x40 && Measured(dev.sensed, dev.regs, dev.trace, base, dcRegval)
              && (good <==> dcRegval != dev.regs[base + 2])
              && Calibrated(dev.trace, |old(dev.trace)|, base, submodule)
    ensures Reliable(dev) ==> status == 0 || status == ERR_UNEXPECTED
    ensures status == ERR_UNEXPECTED ==> PolledInVain(dev.sensed, dev.regs, dev.trace, base, 25)
    ensures Answers(dev, m, sticks) && Ready(m, old(dev.regs)) && StageSet(m, submodule, old(dev.regs)) ==>
              status == 0 && (good <==> Converges(sticks, submodule, GainsOf(old(dev.regs))))
    ensures status == 0 ==> dev.failures == old(dev.failures)
  {
    hide Measured, PolledInVain, Calibrated, Answers, GainsOf, And, Ready, StageSet, Bit;
    ghost var r0 := dev.regs;
    good := true;
    status, dcRegval := DcCalLoop(dev, base, submodule, 31);
    Searched(dev, m, submodule, sticks, r0, dev.regs, dev.trace, status, dcRegval);
    if status != 0 {
      return;
    }
    if dcRegval == 31 {
      ghost var first := dev.trace;
      status, dcRegval := DcCalLoop(dev, base, submodule, 0);
      Searched(dev, m, submodule, sticks, r0, dev.regs, dev.trace, status, dcRegval);
      StillCalibrated(first, dev.trace, |old(dev.trace)|, |old(dev.trace)|, base, submodule);
      if status == 0 && dcRegval == 0 {
        good := false;
      }
    }
  }

  lemma WorkKeepsGains(m: CalModule, before: seq<Byte>, after: seq<Byte>)
    requires OnlyRegs(before, after, Worked(m))
    ensures GainsOf(after) == GainsOf(before)
  {
    SameGains(before, after, Worked(m));
  }

  // Only RXVGA2 has stages.
  method PrepareStage(dev: Device, m: CalModule, submodule: nat) returns (status: int)
    requires dev.Valid() && submodule < Submodules(m)
    requires submodule > 0 ==> StageSet(m, submodule - 1, dev.regs)
    modifies dev`trace, dev`failures, dev`regs
    ensures dev.Valid() && OnlyRegs(old(dev.regs), dev.regs, Worked(m)) && Alike(m, old(dev.regs), dev.regs)
    ensures old(dev.trace) <= dev.trace && |dev.trace| <= |old(dev.trace)| + 3
    ensures status == 0 ==> StageSet(m, submodule, dev.regs)
    ensures Ready(m, dev.regs) <==> Ready(m, old(dev.regs))
    ensures Reliable(dev) ==> status == 0
    ensures status == 0 ==> dev.failures == old(dev.failures)
  {
    hide SetBits, ClearBits, Ready;
    status := 0;
    if m == RXVGA2 {
      status := SetStage(dev, submodule);
      ReadySince(m, old(dev.regs), dev.regs, {0x64, 0x68});
    }
  }

  lemma StoreSteps(m: CalModule, submodule: nat, r0: seq<Byte>, r1: seq<Byte>, r2: seq<Byte>)
    requires OnlyRegs(r0, r1, Worked(m)) && Alike(m, r0, r1) && m == LPF_TUNING
    requires OnlyRegs(r1, r2, {0x35, 0x55}) && Alike(m, r1, r2)
    ensures OnlyRegs(r0, r2, Worked(m)) && Alike(m, r0, r2) && StageSet(m, submodule, r2) && r2[0x02] == r1[0x02]
  {}

  method Submodule(dev: Device, m: CalModule, submodule: nat, state: DcCalState, ghost sticks: Sticking)
    returns (status: int, converged: bool)
    requires dev.Valid() && state.baseAddr == BaseAddr(m) && submodule < Submodules(m)
    requires submodule > 0 ==> StageSet(m, submodule - 1, dev.regs)
    modifies dev`trace, dev`failures, dev`regs
    ensures dev.Valid() && OnlyRegs(old(dev.regs), dev.regs, Worked(m)) && Alike(m, old(dev.regs), dev.regs)
    ensures old(dev.trace) <= dev.trace && |dev.trace| <= |old(dev.trace)| + 73
    ensures converged ==> status == 0
    ensures status == 0 ==> Result(m, dev, converged) && StageSet(m, submodule, dev.regs)
    ensures status == 0 ==> Calibrated(dev.trace, |old(dev.trace)|, BaseAddr(m), submodule)
    ensures Reliable(dev) ==> status == 0 || status == ERR_UNEXPECTED
    ensures Reliable(dev) && status == ERR_UNEXPECTED ==>
              PolledInVain(dev.sensed, dev.regs, dev.trace, BaseAddr(m), 25)
    ensures Ready(m, dev.regs) <==> Ready(m, old(dev.regs))
    ensures Answers(dev, m, sticks) && Ready(m, old(dev.regs)) ==>
              status == 0 && (converged <==> Converges(sticks, submodule, GainsOf(old(dev.regs))))
    ensures status == 0 ==> dev.failures == old(dev.failures)
  {
    hide Measured, PolledInVain, Calibrated, Answers, Reliable, GainsOf, Converges, OnlyRegs, Alike, StageSet, Worked;
    hide Ready;
    AnswersReliably(dev, m, sticks);
    ghost var r0 := dev.regs;
    converged := false;
    status := PrepareStage(dev, m, submodule);
    WorkKeepsGains(m, r0, dev.regs);
    if status != 0 {
      return;
    }
    ghost var r1 := dev.regs;
    var dcRegval;
    var good;
    ghost var t := |dev.trace|;
    status, dcRegval, good := Search(dev, state.baseAddr, submodule, m, sticks);
    ReadySince(m, r1, dev.regs, {BaseAddr(m) + 2, BaseAddr(m) + 3});
    SearchSteps(m, submodule, r0, r1, dev.regs);
    ghost var r2 := dev.regs;
    if status != 0 {
      return;
    }
    StillCalibrated(dev.trace, dev.trace, |old(dev.trace)|, t, BaseAddr(m), submodule);
    if !good {
      return;
    }
    ghost var searched := dev.trace;
    if m == LPF_TUNING {
      status := PutResults(dev, dcRegval);
      StoreSteps(m, submodule, r0, r2, dev.regs);
      ReadySince(m, r2, dev.regs, {0x35, 0x55});
      if status != 0 {
        return;
      }
    }
    StillCalibrated(searched, dev.trace, |old(dev.trace)|, t, BaseAddr(m), submodule);
    converged := true;
  }

  ghost predicate AllCalibrated(trace: seq<Access>, from: nat, m: CalModule) {
    forall base, i :: HasChannel(m, base, i) ==> Calibrated(trace, from, base, i)
  }

  // All the submodules in order, until one fails to converge.
  method Module(dev: Device, m: CalModule, state: DcCalState, ghost sticks: Sticking)
    returns (status: int, converged: bool)
    requires dev.Valid() && m != INVALID && state.baseAddr == BaseAddr(m) && state.numSubmodules == Submodules(m)
    modifies dev`trace, dev`failures, dev`regs
    ensures dev.Valid() && OnlyRegs(old(dev.regs), dev.regs, Worked(m)) && Alike(m, old(dev.regs), dev.regs)
    ensures old(dev.trace) <= dev.trace && |dev.trace| <= |old(dev.trace)| + 365
    ensures status == 0 ==> Result(m, dev, converged)
    ensures status == 0 && converged ==> AllCalibrated(dev.trace, |old(dev.trace)|, m)
    ensures Reliable(dev) ==> status == 0 || status == ERR_UNEXPECTED
    ensures Reliable(dev) && status == ERR_UNEXPECTED ==>
              PolledInVain(dev.sensed, dev.regs, dev.trace, BaseAddr(m), 25)
    ensures Ready(m, dev.regs) <==> Ready(m, old(dev.regs))
    ensures Answers(dev, m, sticks) && Ready(m, old(dev.regs)) ==>
              status == 0 && (converged <==> AllConverge(sticks, m, GainsOf(old(dev.regs))))
    ensures status == 0 ==> dev.failures == old(dev.failures)
  {
    hide Calibrated, SetBits, ClearBits, Result, StageSet, Worked, OnlyRegs, Alike, PolledInVain, AnswersAt, GainsOf;
    hide Converges, Ready, AllConverge, AllCalibrated;
    ghost var r0, t0 := dev.regs, |dev.trace|;
    Untouched(m, r0);
    status, converged := 0, true;
    var i := 0;
    while i < state.numSubmodules && converged && status == 0
      invariant 0 <= i <= Submodules(m) && dev.Valid()
      invariant OnlyRegs(r0, dev.regs, Worked(m)) && Alike(m, r0, dev.regs)
      invariant status == 0 ==> dev.failures == old(dev.failures)
      invariant old(dev.trace) <= dev.trace && |dev.trace| <= t0 + 73 * i
      invariant i == 0 ==> status == 0 && converged
      invariant i > 0 && status == 0 ==> Result(m, dev, converged) && StageSet(m, i - 1, dev.regs)
      invariant status == 0 && converged ==> forall k :: 0 <= k < i ==> Calibrated(dev.trace, t0, BaseAddr(m), k)
      invariant Reliable(dev) ==> status == 0 || status == ERR_UNEXPECTED
      invariant Reliable(dev) && status == ERR_UNEXPECTED ==>
                  PolledInVain(dev.sensed, dev.regs, dev.trace, BaseAddr(m), 25)
      invariant Ready(m, dev.regs) <==> Ready(m, r0)
      invariant Answers(dev, m, sticks) && Ready(m, r0) ==>
                  && status == 0
                  && (converged ==> forall k :: 0 <= k < i ==> Converges(sticks, k, GainsOf(r0)))
                  && (!converged ==> i > 0 && !Converges(sticks, i - 1, GainsOf(r0)))
      decreases Submodules(m) - i
    {
      ghost var r, t := dev.regs, dev.trace;
      WorkKeepsGains(m, r0, r);
      status, converged := Submodule(dev, m, i, state, sticks);
      StepsOf(m, r0, r, dev.regs);
      if status == 0 && converged {
        AllStillCalibrated(t, dev.trace, t0, m, i);
      }
      i := i + 1;
    }
    AllChannels(dev.trace, t0, m, sticks, GainsOf(r0), i);
  }

  // The channels are those of the loop.
  lemma AllChannels(trace: seq<Access>, from: nat, m: CalModule, sticks: Sticking, gains: Gains, n: nat)
    requires n <= Submodules(m)
    ensures n == Submodules(m) && (forall k :: 0 <= k < n ==> Calibrated(trace, from, BaseAddr(m), k)) ==>
              AllCalibrated(trace, from, m)
    ensures n == Submodules(m) && (forall k :: 0 <= k < n ==> Converges(sticks, k, gains)) ==>
              AllConverge(sticks, m, gains)
    ensures n > 0 && !Converges(sticks, n - 1, gains) ==> !AllConverge(sticks, m, gains)
  {
    hide Calibrated, Converges, HasChannel, Submodules, BaseAddr;
    forall base: Byte, i: nat
      ensures HasChannel(m, base, i) <==> base == BaseAddr(m) && i < Submodules(m)
    {
      Channels(m, base, i);
    }
    assert n > 0 ==> HasChannel(m, BaseAddr(m), n - 1);
  }

  lemma AllStillCalibrated(trace: seq<Access>, longer: seq<Access>, from: nat, m: CalModule, n: nat)
    requires trace <= longer && from <= |trace|
    requires forall k :: 0 <= k < n ==> Calibrated(trace, from, BaseAddr(m), k)
    requires Calibrated(longer, |trace|, BaseAddr(m), n)
    ensures forall k :: 0 <= k <= n ==> Calibrated(longer, from, BaseAddr(m), k)
  {
    hide Calibrated;
    forall k | 0 <= k <= n
      ensures Calibrated(longer, from, BaseAddr(m), k)
    {
      if k < n {
        StillCalibrated(trace, longer, from, from, BaseAddr(m), k);
      } else {
        StillCalibrated(longer, longer, from, |trace|, BaseAddr(m), k);
      }
    }
  }

  lemma Untouched(m: CalModule, regs: seq<Byte>)
    requires |regs| == 0x80
    ensures OnlyRegs(regs, regs, Worked(m)) && OnlyRegs(regs, regs, Worked(m) + Saved(m)) && Alike(m, regs, regs)
    ensures SameBelowLna(regs[0x75], regs[0x75])
  {}

  lemma StepsOf(m: CalModule, r0: seq<Byte>, r1: seq<Byte>, r2: seq<Byte>)
    requires OnlyRegs(r0, r1, Worked(m)) && Alike(m, r0, r1) && OnlyRegs(r1, r2, Worked(m)) && Alike(m, r1, r2)
    ensures OnlyRegs(r0, r2, Worked(m)) && Alike(m, r0, r2)
  {
    hide Worked, SetBits, ClearBits;
  }

  // ---- Setting a module up, and taking it down again ----

  // The gains the chip has are the ones the state remembers having set.
  ghost predicate AtGains(m: CalModule, state: DcCalState, regs: seq<Byte>)
    requires |regs| == 0x80
    reads state
  {
    IsRx(m) ==> Vga1(regs[0x76]) == state.rxvga1CurrGain && Vga2(regs[0x65]) == state.rxvga2CurrGain
  }

  lemma Vga2Reads(gain: nat)
    requires gain <= RXVGA2_GAIN_MAX && gain % 3 == 0
    ensures Vga2(gain / 3) == gain
  {}

  // Calibration of the RX modules starts at the highest gains, with the LNA disconnected from the mixer.
  method InitGains(dev: Device, state: DcCalState) returns (status: int)
    requires dev.Valid()
    modifies dev`trace, dev`failures, dev`regs, state`rxvga1CurrGain, state`rxvga2CurrGain
    ensures dev.Valid() && OnlyRegs(old(dev.regs), dev.regs, {0x65, 0x72, 0x75, 0x76})
    ensures SameBelowLna(dev.regs[0x75], old(dev.regs)[0x75])
    ensures old(dev.trace) <= dev.trace && |dev.trace| <= |old(dev.trace)| + 5
    ensures status == 0 ==>
              && dev.regs[0x72] == ClearBits(state.reg0x72, 0x80) && LnaGain(dev.regs[0x75]) == LNA_GAIN_MAX
              && state.rxvga1CurrGain == RXVGA1_GAIN_MAX && state.rxvga2CurrGain == RXVGA2_GAIN_MAX
              && Vga1(dev.regs[0x76]) == RXVGA1_GAIN_MAX && Vga2(dev.regs[0x65]) == RXVGA2_GAIN_MAX
    ensures Reliable(dev) ==> status == 0
    ensures status == 0 ==> dev.failures == old(dev.failures)
  {
    hide ClearBits, Vga1, Vga2, Val2Code, LnaGain, WithLna;
    LnaGainSet(dev.regs[0x75], LNA_GAIN_MAX);
    status := dev.Write(0x72, ClearBits(state.reg0x72, 0x80));
    if status != 0 {
      return;
    }
    status := LnaSetGain(dev, LNA_GAIN_MAX);
    if status != 0 {
      return;
    }
    state.rxvga1CurrGain := RXVGA1_GAIN_MAX;
    status := Rxvga1SetGain(dev, state.rxvga1CurrGain);
    if status != 0 {
      return;
    }
    state.rxvga2CurrGain := RXVGA2_GAIN_MAX;
    Vga2Reads(RXVGA2_GAIN_MAX);
    status := Rxvga2SetGain(dev, state.rxvga2CurrGain);
  }

  function CalClock(m: CalModule): Byte {
    match m case LPF_TUNING => 0x20 case TX_LPF => 0x02 case RX_LPF => 0x08 case RXVGA2 => 0x10 case INVALID => 0x00
  }

  ghost predicate PoweredUp(m: CalModule, before: seq<Byte>, after: seq<Byte>)
    requires |before| == |after| == 0x80
  {
    match m
    case RXVGA2 => after[0x6e] == ClearBits(before[0x6e], 0xC0)
    case RX_LPF => after[0x5f] == ClearBits(before[0x5f], 0x80)
    case TX_LPF => after[0x36] == SetBits(before[0x36], 0x80) && after[0x3f] == ClearBits(before[0x3f], 0x80)
    case _ => true
  }

  // The DC comparators' power-down bits, and for TX the DAC's.
  method PowerUp(dev: Device, m: CalModule) returns (status: int)
    requires dev.Valid()
    modifies dev`trace, dev`failures, dev`regs
    ensures dev.Valid() && OnlyRegs(old(dev.regs), dev.regs, Worked(m)) && Alike(m, old(dev.regs), dev.regs)
    ensures old(dev.trace) <= dev.trace && |dev.trace| <= |old(dev.trace)| + 4
    ensures status == 0 ==> PoweredUp(m, old(dev.regs), dev.regs)
    ensures Reliable(dev) ==> status == 0
    ensures status == 0 ==> dev.failures == old(dev.failures)
  {
    hide SetBits, ClearBits, Or, AndNot;
    status := 0;
    ghost var r := dev.regs;
    if m == RXVGA2 {
      ClearAndSet(r[0x6e], 0xC0);
      status := ClearReg(dev, 0x6e, 0xC0);
    } else if m == RX_LPF {
      ClearAndSet(r[0x5f], 0x80);
      status := ClearReg(dev, 0x5f, 0x80);
    } else if m == TX_LPF {
      ClearAndSet(r[0x36], 0x80);
      status := SetReg(dev, 0x36, 0x80);
      if status != 0 {
        return;
      }
      ClearAndSet(r[0x3f], 0x80);
      status := ClearReg(dev, 0x3f, 0x80);
    }
  }

  lemma InitSteps(m: CalModule, r0: seq<Byte>, r1: seq<Byte>, r2: seq<Byte>, r3: seq<Byte>)
    requires OnlyRegs(r0, r1, {0x09}) && OnlyRegs(r1, r2, Worked(m)) && Alike(m, r1, r2)
    requires if IsRx(m) then OnlyRegs(r2, r3, {0x65, 0x72, 0x75, 0x76}) && SameBelowLna(r3[0x75], r2[0x75])
             else r3 == r2
    ensures OnlyRegs(r0, r3, Worked(m) + Saved(m)) && Alike(m, r0, r3) && SameBelowLna(r3[0x75], r0[0x75])
    ensures r3[0x09] == r1[0x09] && (PoweredUp(m, r1, r2) ==> PoweredUp(m, r0, r3))
  {
    hide SetBits, ClearBits, OnlyRegs, Alike, SameBelowLna, PoweredUp;
    InitRegs(m, r0, r1, r2, r3);
    AlikeElsewhere(m, r0, r1, {0x09});
    AlikeSteps(m, r0, r1, r2);
    if IsRx(m) {
      AlikeElsewhere(m, r2, r3, {0x65, 0x72, 0x75, 0x76});
      AlikeSteps(m, r0, r2, r3);
    }
  }

  lemma InitRegs(m: CalModule, r0: seq<Byte>, r1: seq<Byte>, r2: seq<Byte>, r3: seq<Byte>)
    requires OnlyRegs(r0, r1, {0x09}) && OnlyRegs(r1, r2, Worked(m))
    requires if IsRx(m) then OnlyRegs(r2, r3, {0x65, 0x72, 0x75, 0x76}) && SameBelowLna(r3[0x75], r2[0x75])
             else r3 == r2
    ensures OnlyRegs(r0, r3, Worked(m) + Saved(m)) && SameBelowLna(r3[0x75], r0[0x75])
    ensures r3[0x09] == r1[0x09] && (PoweredUp(m, r1, r2) ==> PoweredUp(m, r0, r3))
  {
    hide SetBits, ClearBits, Bit;
    assert r2[0x75] == r1[0x75] == r0[0x75];
    hide SameBelowLna;
  }

  lemma IsReady(m: CalModule, before: seq<Byte>, after: seq<Byte>, clkEn: Byte, reg0x72: Byte)
    requires m != INVALID && |before| == |after| == 0x80
    requires after[0x09] == SetBits(clkEn, CalClock(m)) && PoweredUp(m, before, after)
    requires IsRx(m) ==> after[0x72] == ClearBits(reg0x72, 0x80) && LnaGain(after[0x75]) == LNA_GAIN_MAX
    ensures Ready(m, after)
  {
    hide Or, AndNot, Bit, Pow2;
    forall v: Byte
      ensures Bit(SetBits(v, 0x20), 5) && Bit(SetBits(v, 0x02), 1) && Bit(SetBits(v, 0x08), 3)
      ensures Bit(SetBits(v, 0x10), 4) && Bit(SetBits(v, 0x80), 7) && !Bit(ClearBits(v, 0x80), 7)
      ensures !Bit(ClearBits(v, 0xC0), 6) && !Bit(ClearBits(v, 0xC0), 7)
    {
      SwitchedBits(v);
    }
  }

  lemma SwitchedBits(v: Byte)
    ensures Bit(SetBits(v, 0x20), 5) && Bit(SetBits(v, 0x02), 1) && Bit(SetBits(v, 0x08), 3)
    ensures Bit(SetBits(v, 0x10), 4) && Bit(SetBits(v, 0x80), 7) && !Bit(ClearBits(v, 0x80), 7)
    ensures !Bit(ClearBits(v, 0xC0), 6) && !Bit(ClearBits(v, 0xC0), 7)
  {
    assert Pow2(1) == 2 && Pow2(3) == 8 && Pow2(4) == 16 && Pow2(5) == 32;
    assert Pow2(6) == 64 && Pow2(7) == 128 && Pow2(8) == 256;
    hide Bit, Or, AndNot, Pow2;
    Pow2Bit(5, 5);
    Pow2Bit(1, 1);
    Pow2Bit(3, 3);
    Pow2Bit(4, 4);
    Pow2Bit(7, 7);
    FieldMaskBit(6, 8, 6);
    FieldMaskBit(6, 8, 7);
    OrBit(v, 0x20, 5);
    OrBit(v, 0x02, 1);
    OrBit(v, 0x08, 3);
    OrBit(v, 0x10, 4);
    OrBit(v, 0x80, 7);
    AndNotBit(v, 0x80, 7);
    AndNotBit(v, 0xC0, 6);
    AndNotBit(v, 0xC0, 7);
  }

  method ModuleInit(dev: Device, m: CalModule, state: DcCalState) returns (status: int)
    requires dev.Valid()
    modifies dev`trace, dev`failures, dev`regs
    modifies state`baseAddr, state`numSubmodules, state`rxvga1CurrGain, state`rxvga2CurrGain
    ensures dev.Valid() && OnlyRegs(old(dev.regs), dev.regs, Worked(m) + Saved(m)) && Alike(m, old(dev.regs), dev.regs)
    ensures SameBelowLna(dev.regs[0x75], old(dev.regs)[0x75])
    ensures old(dev.trace) <= dev.trace && |dev.trace| <= |old(dev.trace)| + 10
    ensures m == INVALID ==> status == ERR_INVAL && dev.regs == old(dev.regs)
    ensures status == 0 ==>
              && state.baseAddr == BaseAddr(m) && state.numSubmodules == Submodules(m)
              && state.InRange(m) && state.InOrder(m) && state.TriesLeft(m) == MaxTries(m)
              && AtGains(m, state, dev.regs)
              && dev.regs[0x09] == SetBits(state.clkEn, CalClock(m)) && PoweredUp(m, old(dev.regs), dev.regs)
              && (IsRx(m) ==>
                    dev.regs[0x72] == ClearBits(state.reg0x72, 0x80) && LnaGain(dev.regs[0x75]) == LNA_GAIN_MAX)
    ensures status == 0 ==> Ready(m, dev.regs)
    ensures Reliable(dev) && m != INVALID ==> status == 0
    ensures status == 0 ==> dev.failures == old(dev.failures)
  {
    hide SetBits, ClearBits, Vga1, Vga2, LnaGain, OnlyRegs, Alike, PoweredUp, SameBelowLna, Worked, Saved, Ready;
    Untouched(m, dev.regs);
    if m == INVALID {
      return ERR_INVAL;
    }
    state.baseAddr := BaseAddr(m);
    state.numSubmodules := Submodules(m);
    ghost var r0 := dev.regs;
    status := dev.Write(0x09, SetBits(state.clkEn, CalClock(m)));
    ghost var r1 := dev.regs;
    WroteOnly(r0, 0x09, SetBits(state.clkEn, CalClock(m)));
    Untouched(m, r1);
    NoGainsTouched(r1);
    InitSteps(m, r0, r1, r1, r1);
    if status != 0 {
      return;
    }
    status := PowerUp(dev, m);
    ghost var r2 := dev.regs;
    NoGainsTouched(r2);
    InitSteps(m, r0, r1, r2, r2);
    if status != 0 {
      return;
    }
    if IsRx(m) {
      status := InitGains(dev, state);
      InitSteps(m, r0, r1, r2, dev.regs);
    }
    if status == 0 {
      IsReady(m, r0, dev.regs, state.clkEn, state.reg0x72);
    }
  }

  lemma NoGainsTouched(regs: seq<Byte>)
    requires |regs| == 0x80
    ensures OnlyRegs(regs, regs, {0x65, 0x72, 0x75, 0x76}) && SameBelowLna(regs[0x75], regs[0x75])
  {}

  // Lower one gain for the next attempt, or report that there is nothing left to lower.
  method RetryAdjustment(dev: Device, m: CalModule, state: DcCalState) returns (status: int, limitReached: bool)
    requires dev.Valid() && m != INVALID && state.InRange(m) && AtGains(m, state, dev.regs)
    modifies dev`trace, dev`failures, dev`regs, state`rxvga1CurrGain, state`rxvga2CurrGain
    ensures dev.Valid() && OnlyRegs(old(dev.regs), dev.regs, {0x65, 0x76})
    ensures !IsRx(m) ==> dev.regs == old(dev.regs)
    ensures old(dev.trace) <= dev.trace && |dev.trace| <= |old(dev.trace)| + 1
    ensures state.InRange(m)
    ensures status == 0 ==> AtGains(m, state, dev.regs)
    ensures limitReached ==>
              status == 0 && old(state.TriesLeft(m)) == state.TriesLeft(m) == 0 && dev.regs == old(dev.regs)
    ensures !limitReached ==> state.TriesLeft(m) == old(state.TriesLeft(m)) - 1
    ensures limitReached ==> dev.trace == old(dev.trace) && AtGains(m, state, dev.regs)
    ensures old(state.InOrder(m)) ==> state.InOrder(m)
    ensures Reliable(dev) ==> status == 0
    ensures status == 0 ==> dev.failures == old(dev.failures)
  {
    hide Vga1, Vga2, Val2Code;
    status, limitReached := 0, false;
    if IsRx(m) && state.rxvga1CurrGain > RXVGA1_GAIN_MIN {
      state.rxvga1CurrGain := state.rxvga1CurrGain - 1;
      status := Rxvga1SetGain(dev, state.rxvga1CurrGain);
    } else if m == RXVGA2 && state.rxvga2CurrGain > RXVGA2_GAIN_MIN {
      state.rxvga2CurrGain := state.rxvga2CurrGain - 3;
      Vga2Reads(state.rxvga2CurrGain);
      status := Rxvga2SetGain(dev, state.rxvga2CurrGain);
    } else {
      limitReached := true;
    }
  }

  // How the work registers are left, whatever happened in between.
  ghost predicate Settled(m: CalModule, before: seq<Byte>, after: seq<Byte>)
    requires |before| == |after| == 0x80
  {
    match m
    case LPF_TUNING => after[0x35] / 0x40 == before[0x35] / 0x40 && after[0x55] / 0x40 == before[0x55] / 0x40
    case TX_LPF => after[0x36] == ClearBits(before[0x36], 0x80) && after[0x3f] == SetBits(before[0x3f], 0x80)
    case RX_LPF => after[0x5f] == SetBits(before[0x5f], 0x80)
    case RXVGA2 =>
      && after[0x68] == 0x01 && after[0x64] == ClearBits(before[0x64], 0x01)
      && after[0x6e] == SetBits(before[0x6e], 0xC0)
    case INVALID => true
  }

  method ModuleDeinit(dev: Device, m: CalModule) returns (status: int)
    requires dev.Valid()
    modifies dev`trace, dev`failures, dev`regs
    ensures dev.Valid() && OnlyRegs(old(dev.regs), dev.regs, Worked(m))
    ensures m == LPF_TUNING || m == INVALID ==> dev.regs == old(dev.regs)
    ensures dev.regs[BaseAddr(m) + 3] == old(dev.regs)[BaseAddr(m) + 3]
    ensures old(dev.trace) <= dev.trace && |dev.trace| <= |old(dev.trace)| + 5
    ensures m == INVALID ==> status == ERR_INVAL
    ensures status == 0 ==> Settled(m, old(dev.regs), dev.regs)
    ensures Reliable(dev) && m != INVALID ==> status == 0
    ensures status == 0 ==> dev.failures == old(dev.failures)
  {
    hide SetBits, ClearBits, Bit;
    status := 0;
    match m {
      case LPF_TUNING =>
      case RX_LPF =>
        status := SetReg(dev, 0x5f, 0x80);
      case RXVGA2 =>
        status := dev.Write(0x68, 0x01);
        if status != 0 {
          return;
        }
        status := ClearReg(dev, 0x64, 0x01);
        if status != 0 {
          return;
        }
        status := SetReg(dev, 0x6e, 0xC0);
      case TX_LPF =>
        status := SetReg(dev, 0x3f, 0x80);
        if status != 0 {
          return;
        }
        status := ClearReg(dev, 0x36, 0x80);
      case INVALID =>
        status := ERR_INVAL;
    }
  }

  // LNA switch and LNA gain are back bit for bit, RXVGA1 is at the gain it read, and RXVGA2 is at the gain it read as
  // far as that gain exists.
  ghost predicate GainsRestored(before: seq<Byte>, after: seq<Byte>)
    requires |before| == |after| == 0x80
  {
    && after[0x72] == before[0x72] && after[0x75] == before[0x75]
    && Vga1(after[0x76]) == Vga1(before[0x76])
    && after[0x65] == Clamp(Vga2(before[0x65]), 0, 30) / 3
  }

  // What was saved is back, the clock enables included.
  ghost predicate Restored(m: CalModule, before: seq<Byte>, after: seq<Byte>)
    requires |before| == |after| == 0x80
  {
    after[0x09] == before[0x09] && (IsRx(m) ==> GainsRestored(before, after))
  }

  lemma LnaRestored(before: Byte, after: Byte)
    requires SameBelowLna(after, before)
    ensures WithLna(after, LnaGain(before)) == before
  {}

  lemma LnaGainSet(data: Byte, gain: nat)
    requires gain < 4
    ensures LnaGain(WithLna(data, gain)) == gain
  {}

  // The earliest failure is reported, except that one of the last write hides the others.
  method RestoreGains(dev: Device, state: DcCalState, ghost regs: seq<Byte>, first: int) returns (ret: int)
    requires dev.Valid() && state.Saves(RX_LPF, regs) && SameBelowLna(dev.regs[0x75], regs[0x75])
    modifies dev`trace, dev`failures, dev`regs
    ensures dev.Valid() && OnlyRegs(old(dev.regs), dev.regs, {0x65, 0x72, 0x75, 0x76})
    ensures old(dev.trace) <= dev.trace && |dev.trace| <= |old(dev.trace)| + 5
    ensures ret == 0 ==> first == 0 && GainsRestored(regs, dev.regs)
    ensures Reliable(dev) ==> GainsRestored(regs, dev.regs) && ret == first
    ensures ret == 0 ==> dev.failures == old(dev.failures)
  {
    hide Vga1, Vga2, Val2Code, LnaGain, WithLna, SameBelowLna, IsLnaGain;
    ret := first;
    var status := dev.Write(0x72, state.reg0x72);
    if status != 0 && ret == 0 {
      ret := status;
    }
    LnaRestored(regs[0x75], dev.regs[0x75]);
    status := LnaSetGain(dev, state.lnaGain);
    if status != 0 && ret == 0 {
      ret := status;
    }
    status := Rxvga1SetGain(dev, state.rxvga1Gain);
    if status != 0 && ret == 0 {
      ret := status;
    }
    status := Rxvga2SetGain(dev, state.rxvga2Gain);
    if status != 0 {
      ret := status;
    }
  }

  // Every write is attempted even if an earlier one failed.
  method Restore(dev: Device, m: CalModule, state: DcCalState, ghost regs: seq<Byte>) returns (ret: int)
    requires dev.Valid() && state.Saves(m, regs) && SameBelowLna(dev.regs[0x75], regs[0x75])
    modifies dev`trace, dev`failures, dev`regs
    ensures dev.Valid() && OnlyRegs(old(dev.regs), dev.regs, Saved(m))
    ensures old(dev.trace) <= dev.trace && |dev.trace| <= |old(dev.trace)| + 6
    ensures ret == 0 ==> Restored(m, regs, dev.regs)
    ensures Reliable(dev) ==> ret == 0
    ensures ret == 0 ==> dev.failures == old(dev.failures)
  {
    hide GainsRestored, SameBelowLna;
    ret := dev.Write(0x09, state.clkEn);
    if IsRx(m) {
      ghost var r := dev.regs;
      ret := RestoreGains(dev, state, regs, ret);
    }
  }

  // ---- The whole calibration ----

  // LPF tuning left the same good result in both low-pass filters.
  ghost predicate Handed(m: CalModule, regs: seq<Byte>)
    requires |regs| == 0x80
  {
    m == LPF_TUNING ==> regs[0x35] % 0x40 == regs[0x55] % 0x40 != regs[0x02]
  }

  lemma AllCalibratedSince(trace: seq<Access>, longer: seq<Access>, from: nat, later: nat, m: CalModule)
    requires trace <= longer && from <= later && AllCalibrated(trace, later, m)
    ensures AllCalibrated(longer, from, m)
  {
    hide Calibrated;
    forall base: Byte, i: nat | HasChannel(m, base, i)
      ensures Calibrated(longer, from, base, i)
    {
      StillCalibrated(trace, longer, from, later, base, i);
    }
  }

  // Where the registers are while a calibration is under way.
  ghost predicate Underway(m: CalModule, before: seq<Byte>, regs: seq<Byte>) {
    && |before| == |regs| == 0x80
    && OnlyRegs(before, regs, Worked(m) + Saved(m)) && Alike(m, before, regs) && SameBelowLna(regs[0x75], before[0x75])
  }

  lemma UnderwayStep(m: CalModule, r0: seq<Byte>, r1: seq<Byte>, r2: seq<Byte>)
    requires Underway(m, r0, r1)
    requires || (OnlyRegs(r1, r2, Worked(m)) && Alike(m, r1, r2))
             || (m != INVALID && OnlyRegs(r1, r2, if IsRx(m) then {0x65, 0x76} else {}))
    ensures Underway(m, r0, r2)
  {
    hide SetBits, ClearBits, SameBelowLna;
    if OnlyRegs(r1, r2, Worked(m)) && Alike(m, r1, r2) {
      AlikeSteps(m, r0, r1, r2);
    } else {
      AlikeElsewhere(m, r1, r2, if IsRx(m) then {0x65, 0x76} else {});
      AlikeSteps(m, r0, r1, r2);
    }
  }

  // The gains of an RX module are as low as they go.
  predicate Lowest(m: CalModule, regs: seq<Byte>)
    requires |regs| == 0x80
  {
    IsRx(m) ==> Vga1(regs[0x76]) == 5 && (m == RXVGA2 ==> Vga2(regs[0x65]) == 0)
  }

  // Why a calibration on a reliable bus is given up: the status never said done, or the search stayed where it started
  // although there is no gain left to lower.
  ghost predicate GaveUp(m: CalModule, sensed: Sensor, regs: seq<Byte>, trace: seq<Access>) {
    && |regs| == 0x80
    && (|| PolledInVain(sensed, regs, trace, BaseAddr(m), 25)
        || (Lowest(m, regs) && Measured(sensed, regs, trace, BaseAddr(m), regs[BaseAddr(m) + 2])))
  }

  lemma HandedOver(m: CalModule, dev: Device, converged: bool)
    requires dev.Valid() && (converged ==> Result(m, dev, true))
    ensures converged ==> Handed(m, dev.regs)
  {}

  lemma InVainGivesUp(m: CalModule, sensed: Sensor, regs: seq<Byte>, trace: seq<Access>)
    requires |regs| == 0x80 && PolledInVain(sensed, regs, trace, BaseAddr(m), 25)
    ensures GaveUp(m, sensed, regs, trace)
  {}

  lemma NothingLeft(m: CalModule, state: DcCalState, dev: Device)
    requires dev.Valid() && state.InRange(m) && state.TriesLeft(m) == 0 && AtGains(m, state, dev.regs)
    requires Result(m, dev, false)
    ensures GaveUp(m, dev.sensed, dev.regs, dev.trace)
  {
    hide Measured, PolledInVain, Vga1, Vga2;
  }

  // Where the gains stand is where the attempts left say.
  lemma GainsInOrder(m: CalModule, state: DcCalState, r0: seq<Byte>, regs: seq<Byte>)
    requires |regs| == 0x80 && state.InRange(m) && state.InOrder(m) && AtGains(m, state, regs) && Underway(m, r0, regs)
    ensures GainsOf(regs) == GainsAt(m, state.TriesLeft(m), GainsOf(r0))
  {
    hide Vga1, Vga2, Alike, SameBelowLna;
  }

  // One attempt: calibrate at the present gains, and lower them if that does not converge.
  method Attempt(dev: Device, m: CalModule, state: DcCalState, ghost r0: seq<Byte>, ghost sticks: Sticking)
    returns (status: int, converged: bool, limitReached: bool)
    requires dev.Valid() && m != INVALID && Underway(m, r0, dev.regs)
    requires state.baseAddr == BaseAddr(m) && state.numSubmodules == Submodules(m)
    requires state.InRange(m) && AtGains(m, state, dev.regs)
    modifies dev`trace, dev`failures, dev`regs, state`rxvga1CurrGain, state`rxvga2CurrGain
    ensures dev.Valid() && Underway(m, r0, dev.regs) && state.InRange(m)
    ensures old(dev.trace) <= dev.trace && |dev.trace| <= |old(dev.trace)| + 366
    ensures old(state.InOrder(m)) ==> state.InOrder(m)
    ensures status == 0 && converged ==> AllCalibrated(dev.trace, |old(dev.trace)|, m) && Handed(m, dev.regs)
    ensures limitReached ==> status == 0 && !converged && old(state.TriesLeft(m)) == state.TriesLeft(m) == 0
    ensures status == 0 && !converged && !limitReached ==>
              AtGains(m, state, dev.regs) && state.TriesLeft(m) == old(state.TriesLeft(m)) - 1
    ensures Reliable(dev) ==> status == 0 || status == ERR_UNEXPECTED
    ensures (Reliable(dev) && status == ERR_UNEXPECTED) || limitReached ==> GaveUp(m, dev.sensed, dev.regs, dev.trace)
    ensures Ready(m, dev.regs) <==> Ready(m, old(dev.regs))
    ensures Answers(dev, m, sticks) && Ready(m, old(dev.regs)) && old(state.InOrder(m)) ==>
              status == 0 && (converged <==> ConvergesAt(sticks, m, old(state.TriesLeft(m)), GainsOf(r0)))
    ensures status == 0 ==> dev.failures == old(dev.failures)
  {
    hide OnlyRegs, Alike, Underway, AtGains, AllCalibrated, Worked, Saved, Measured, SameBelowLna, Vga1, Vga2;
    hide Result, PolledInVain, GainsOf, GainsAt, AllConverge, GaveUp, Handed, Ready, Answers;
    AnswersReliably(dev, m, sticks);
    limitReached := false;
    ghost var r := dev.regs;
    if state.InOrder(m) {
      GainsInOrder(m, state, r0, r);
    }
    status, converged := Module(dev, m, state, sticks);
    ghost var r1 := dev.regs;
    UnderwayStep(m, r0, r, r1);
    HandedOver(m, dev, status == 0 && converged);
    if status == ERR_UNEXPECTED && Reliable(dev) {
      InVainGivesUp(m, dev.sensed, r1, dev.trace);
    }
    if status == 0 && !converged {
      GainsKept(m, state, r, r1);
      status, limitReached := RetryAdjustment(dev, m, state);
      RetryKeeps(m, r1, dev.regs);
      ReadySince(m, r1, dev.regs, {0x65, 0x76});
      UnderwayStep(m, r0, r1, dev.regs);
      if limitReached {
        NothingLeft(m, state, dev);
      }
    }
  }

  // The attempts: lower the gains until the module converges, or there is nothing left to lower.
  method Attempts(dev: Device, m: CalModule, state: DcCalState, ghost r0: seq<Byte>, ghost t0: nat,
                  ghost sticks: Sticking)
    returns (status: int, converged: bool)
    requires dev.Valid() && m != INVALID && Underway(m, r0, dev.regs) && t0 <= |dev.trace|
    requires state.baseAddr == BaseAddr(m) && state.numSubmodules == Submodules(m)
    requires state.InRange(m) && AtGains(m, state, dev.regs)
    modifies dev`trace, dev`failures, dev`regs, state`rxvga1CurrGain, state`rxvga2CurrGain
    ensures dev.Valid() && Underway(m, r0, dev.regs)
    ensures old(dev.trace) <= dev.trace && |dev.trace| <= |old(dev.trace)| + 366 * (old(state.TriesLeft(m)) + 1)
    ensures status == 0 && converged ==> AllCalibrated(dev.trace, t0, m) && Handed(m, dev.regs)
    ensures state.InRange(m) && (status == 0 && !converged ==> state.TriesLeft(m) == 0)
    ensures Reliable(dev) ==> status == 0 || status == ERR_UNEXPECTED
    ensures (Reliable(dev) && status == ERR_UNEXPECTED) || (status == 0 && !converged) ==>
              GaveUp(m, dev.sensed, dev.regs, dev.trace)
    ensures Answers(dev, m, sticks) && Ready(m, old(dev.regs)) && old(state.InOrder(m)) ==>
              status == 0 && (converged <==> SomeConverge(sticks, m, GainsOf(r0), old(state.TriesLeft(m))))
    ensures status == 0 ==> dev.failures == old(dev.failures)
  {
    hide AtGains, AllCalibrated, OnlyRegs, Alike, SameBelowLna, GainsOf, ConvergesAt, GaveUp, Handed, Answers, Ready;
    status, converged := 0, false;
    var limitReached := false;
    ghost var left: nat := state.TriesLeft(m) + 1;
    ghost var start, found := left, GainsOf(r0);
    while !converged && !limitReached && status == 0
      invariant dev.Valid() && Underway(m, r0, dev.regs) && left <= start && state.InRange(m)
      invariant old(dev.trace) <= dev.trace && |dev.trace| <= |old(dev.trace)| + 366 * (start - left)
      invariant !converged && !limitReached && status == 0 ==> AtGains(m, state, dev.regs)
      invariant !converged && !limitReached && status == 0 ==> left == state.TriesLeft(m) + 1
      invariant limitReached ==> state.TriesLeft(m) == left == 0
      invariant status == 0 && converged ==> AllCalibrated(dev.trace, t0, m) && Handed(m, dev.regs)
      invariant Reliable(dev) ==> status == 0 || status == ERR_UNEXPECTED
      invariant (Reliable(dev) && status == ERR_UNEXPECTED) || limitReached ==>
                  GaveUp(m, dev.sensed, dev.regs, dev.trace)
      invariant old(state.InOrder(m)) ==> state.InOrder(m)
      invariant status == 0 ==> dev.failures == old(dev.failures)
      invariant Ready(m, dev.regs) <==> Ready(m, old(dev.regs))
      invariant Answers(dev, m, sticks) && Ready(m, old(dev.regs)) && old(state.InOrder(m)) ==>
                  && status == 0
                  && (converged ==> left < start && ConvergesAt(sticks, m, left, found))
                  && (!converged ==> forall n: nat :: left <= n < start ==> !ConvergesAt(sticks, m, n, found))
      decreases left
    {
      ghost var t := |dev.trace|;
      status, converged, limitReached := Attempt(dev, m, state, r0, sticks);
      if status == 0 && converged {
        AllCalibratedSince(dev.trace, dev.trace, t0, t, m);
      }
      left := left - 1;
    }
  }

  lemma GainsKept(m: CalModule, state: DcCalState, before: seq<Byte>, after: seq<Byte>)
    requires OnlyRegs(before, after, Worked(m)) && AtGains(m, state, before)
    ensures AtGains(m, state, after)
  {
    hide Vga1, Vga2;
  }

  lemma RetryKeeps(m: CalModule, before: seq<Byte>, after: seq<Byte>)
    requires OnlyRegs(before, after, {0x65, 0x76}) && (!IsRx(m) ==> after == before)
    ensures OnlyRegs(before, after, if IsRx(m) then {0x65, 0x76} else {})
  {}

  lemma DeinitSteps(m: CalModule, r0: seq<Byte>, r1: seq<Byte>, r2: seq<Byte>, status: int)
    requires Underway(m, r0, r1) && OnlyRegs(r1, r2, Worked(m))
    requires m == LPF_TUNING || m == INVALID ==> r2 == r1
    requires r2[BaseAddr(m) + 3] == r1[BaseAddr(m) + 3]
    requires status == 0 ==> Settled(m, r1, r2)
    ensures KeepsControl(r0[BaseAddr(m) + 3], r2[BaseAddr(m) + 3])
    ensures OnlyRegs(r0, r2, Worked(m) + Saved(m)) && SameBelowLna(r2[0x75], r0[0x75])
    ensures status == 0 ==> Settled(m, r0, r2)
    ensures Handed(m, r1) ==> Handed(m, r2)
  {
    hide SetBits, ClearBits, SameBelowLna;
  }

  lemma RestoreSteps(m: CalModule, r0: seq<Byte>, r2: seq<Byte>, r3: seq<Byte>)
    requires OnlyRegs(r0, r2, Worked(m) + Saved(m)) && OnlyRegs(r2, r3, Saved(m))
    ensures OnlyRegs(r0, r3, Worked(m) + Saved(m)) && r3[BaseAddr(m) + 3] == r2[BaseAddr(m) + 3]
    ensures Settled(m, r0, r2) ==> Settled(m, r0, r3)
    ensures Handed(m, r2) ==> Handed(m, r3)
  {
    hide SetBits, ClearBits, Bit;
  }

  // Take the module down and put back what was saved; the earliest failure is reported.
  method Finish(dev: Device, m: CalModule, state: DcCalState, first: int, ghost r0: seq<Byte>) returns (status: int)
    requires dev.Valid() && Underway(m, r0, dev.regs) && state.Saves(m, r0)
    modifies dev`trace, dev`failures, dev`regs
    ensures dev.Valid() && OnlyRegs(r0, dev.regs, Worked(m) + Saved(m))
    ensures KeepsControl(r0[BaseAddr(m) + 3], dev.regs[BaseAddr(m) + 3])
    ensures old(dev.trace) <= dev.trace && |dev.trace| <= |old(dev.trace)| + 11
    ensures status == 0 ==> first == 0 && m != INVALID
    ensures status == 0 || Reliable(dev) ==> Restored(m, r0, dev.regs) && (m != INVALID ==> Settled(m, r0, dev.regs))
    ensures Handed(m, old(dev.regs)) ==> Handed(m, dev.regs)
    ensures Reliable(dev) ==> status == if first == 0 && m == INVALID then ERR_INVAL else first
    ensures status == 0 ==> dev.failures == old(dev.failures)
  {
    hide OnlyRegs, Alike, Settled, Restored, Worked, Saved, SameBelowLna, Handed, Reliable, Bit;
    ghost var r1 := dev.regs;
    var tmpStatus := ModuleDeinit(dev, m);
    ghost var r2 := dev.regs;
    DeinitSteps(m, r0, r1, r2, tmpStatus);
    status := if first != 0 then first else tmpStatus;
    tmpStatus := Restore(dev, m, state, r0);
    RestoreSteps(m, r0, r2, dev.regs);
    status := if status != 0 then status else tmpStatus;
  }

  // At some point after the first `from` accesses, with only the calibration's own registers changed.
  ghost predicate GaveUpDuring(m: CalModule, sensed: Sensor, before: seq<Byte>, from: nat, trace: seq<Access>) {
    exists regs: seq<Byte>, n: nat ::
      from <= n <= |trace| && OnlyRegs(before, regs, Worked(m) + Saved(m)) && GaveUp(m, sensed, regs, trace[..n])
  }

  lemma GaveUpAt(m: CalModule, sensed: Sensor, before: seq<Byte>, from: nat, regs: seq<Byte>, trace: seq<Access>,
                 longer: seq<Access>)
    requires Underway(m, before, regs) && GaveUp(m, sensed, regs, trace) && from <= |trace| && trace <= longer
    ensures GaveUpDuring(m, sensed, before, from, longer)
  {
    hide OnlyRegs, GaveUp, Alike, SameBelowLna;
    assert longer[..|trace|] == trace;
  }

  // lms_calibrate_dc. Whether or not it converges, what was saved first is put back, and the module's comparators, DAC
  // and stage gains are left as after any other calibration. If every search finishes, it succeeds if and only if all
  // submodules converge at one of the gains from the highest to the lowest.
  method CalibrateDc(dev: Device, m: CalModule, ghost sticks: Sticking) returns (status: int)
    requires dev.Valid()
    modifies dev`trace, dev`failures, dev`regs
    ensures dev.Valid() && OnlyRegs(old(dev.regs), dev.regs, Worked(m) + Saved(m))
    ensures KeepsControl(old(dev.regs)[BaseAddr(m) + 3], dev.regs[BaseAddr(m) + 3])
    ensures old(dev.trace) <= dev.trace && |dev.trace| <= |old(dev.trace)| + 13202
    ensures var unknown := IsRx(m) && !IsLnaGain(LnaGain(old(dev.regs)[0x75]));
            && (unknown ==> status != 0 && dev.regs == old(dev.regs))
            && (!unknown && (status == 0 || Reliable(dev)) ==> Restored(m, old(dev.regs), dev.regs))
            && (!unknown && m != INVALID && (status == 0 || Reliable(dev)) ==> Settled(m, old(dev.regs), dev.regs))
            && (Reliable(dev) ==>
                  if unknown || m == INVALID then status == -3 else status == 0 || status == -1)
    ensures status == 0 ==> AllCalibrated(dev.trace, |old(dev.trace)|, m) && Handed(m, dev.regs)
    ensures Reliable(dev) && status == -1 ==>
              GaveUpDuring(m, dev.sensed, old(dev.regs), |old(dev.trace)|, dev.trace)
    ensures Answers(dev, m, sticks) && m != INVALID ==>
              (IsRx(m) ==> IsLnaGain(LnaGain(old(dev.regs)[0x75]))) ==>
              (status == 0 <==> SomeConverge(sticks, m, GainsOf(old(dev.regs)), MaxTries(m)))
    ensures status == 0 ==> dev.failures == old(dev.failures)
  {
    hide OnlyRegs, Settled, Restored, AtGains, AllCalibrated, Worked, Saved, SameBelowLna, LnaGain, Vga1, Vga2;
    hide Answers, Reliable, GainsOf, SomeConverge, GaveUp, GaveUpDuring, Alike, Ready, Bit;
    AnswersReliably(dev, m, sticks);
    ghost var r0, t0 := dev.regs, |dev.trace|;
    var state;
    status, state := Backup(dev, m);
    Untouched(m, r0);
    if status != 0 {
      return;
    }
    status := ModuleInit(dev, m, state);
    var converged := false;
    if status == 0 {
      status, converged := Attempts(dev, m, state, r0, t0, sticks);
      if !converged && status == 0 {
        status := ERR_UNEXPECTED;
      }
    }
    ghost var r1, t1 := dev.regs, dev.trace;
    status := Finish(dev, m, state, status, r0);
    if status == 0 {
      AllCalibratedSince(t1, dev.trace, t0, t0, m);
    } else if m != INVALID && Reliable(dev) {
      GaveUpAt(m, dev.sensed, r0, t0, r1, t1, dev.trace);
    }
  }

  // The status says done, and the result is not 31.
  predicate LeavesStart(sensed: Sensor, base: Byte, t: seq<Access>, regs: seq<Byte>) {
    Done(sensed(t, regs, base + 1)) && RegVal(sensed(t, regs, base)) != 31
  }

  // In particular, a module calibrates if every search finishes and none stays at 31, whatever else it answers.
  lemma NeverStickingSucceeds(dev: Device, m: CalModule, found: Gains)
    requires Reliable(dev)
    requires forall t, regs :: |regs| == 0x80 && Prepared(m, regs) ==> LeavesStart(dev.sensed, BaseAddr(m), t, regs)
    ensures Answers(dev, m, (i, cntval, gains) => false)
    ensures SomeConverge((i, cntval, gains) => false, m, found, MaxTries(m))
  {
    hide Done, RegVal, And, GainsOf, Prepared;
    var sticks: Sticking := (i, cntval, gains) => false;
    forall t, regs: seq<Byte> | |regs| == 0x80 && Prepared(m, regs)
      ensures AnswersAt(dev.sensed, BaseAddr(m), sticks, t, regs)
    {
      assert LeavesStart(dev.sensed, BaseAddr(m), t, regs);
    }
    assert ConvergesAt(sticks, m, 0, found);
  }
}
