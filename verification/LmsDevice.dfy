/** The LMS6002D transceiver as its driver sees it: a file of 128 byte registers behind a bus that may fail, some of
    which report measurements instead of holding what was written. */
module LmsDevice {
  import opened BitOps

  const ERR_UNEXPECTED := -1
  const ERR_INVAL := -3
  const ERR_IO := -5

  // A write with the most significant address bit set takes effect only together with the others of its group.
  datatype Access = Read(addr: nat) | Write(addr: nat, value: Byte) | Grouped(addr: nat, value: Byte)

  // data |= mask
  function SetBits(data: Byte, mask: Byte): (r: Byte)
    ensures r == Or(data, mask)
  {
    Powers();
    OrBound(data, mask, 8);
    Or(data, mask)
  }

  // data &= ~mask
  function ClearBits(data: Byte, mask: Byte): (r: Byte)
    ensures r == AndNot(data, mask)
  {
    AndNotBound(data, mask);
    AndNot(data, mask)
  }

  // Every register outside the given set is as it was.
  ghost predicate OnlyRegs(before: seq<Byte>, after: seq<Byte>, changed: set<nat>) {
    |before| == |after| == 0x80 && forall a :: 0 <= a < 0x80 && a !in changed ==> after[a] == before[a]
  }

  lemma WroteOnly(regs: seq<Byte>, addr: nat, value: Byte)
    requires |regs| == 0x80 && addr < 0x80
    ensures OnlyRegs(regs, regs[addr := value], {addr}) && OnlyRegs(regs, regs, {addr})
  {}

  // Status registers: the two VTUNE comparators, and the DC calibration results of the four modules.
  predicate Volatile(addr: nat) {
    || addr == 0x1A || addr == 0x2A || addr == 0x00 || addr == 0x01 || addr == 0x30 || addr == 0x31
    || addr == 0x50 || addr == 0x51 || addr == 0x60 || addr == 0x61
  }

  // The values written to one register, in order.
  function Written(trace: seq<Access>, addr: nat): seq<Byte> {
    if trace == [] then []
    else
      var before := Written(trace[..|trace| - 1], addr);
      match trace[|trace| - 1]
      case Read(_) => before
      case _ => if trace[|trace| - 1].addr == addr then before + [trace[|trace| - 1].value] else before
  }

  lemma WrittenAppend(trace: seq<Access>, access: Access, addr: nat)
    ensures Written(trace + [access], addr) ==
            Written(trace, addr) + (if !access.Read? && access.addr == addr then [access.value] else [])
  {
    assert (trace + [access])[..|trace|] == trace;
  }

  class Device {
    // What the bus and the chip do next may depend on everything done so far.
    const fails: seq<Access> -> bool
    const sensed: (seq<Access>, seq<Byte>, nat) -> Byte

    // Whether the FPGA supports grouped writes.
    const atomicWrites: bool

    var regs: seq<Byte>
    var trace: seq<Access>
    // How many accesses have failed so far.
    ghost var failures: nat

    ghost predicate Valid()
      reads this`regs
    {
      |regs| == 0x80
    }

    constructor (fails: seq<Access> -> bool, sensed: (seq<Access>, seq<Byte>, nat) -> Byte, atomicWrites: bool,
                 regs: seq<Byte>)
      requires |regs| == 0x80
      ensures Valid() && this.regs == regs && trace == []
      ensures this.fails == fails && this.sensed == sensed && this.atomicWrites == atomicWrites
    {
      this.atomicWrites := atomicWrites;
      this.fails := fails;
      this.sensed := sensed;
      this.regs := regs;
      trace := [];
      failures := 0;
    }

    method Read(addr: Byte) returns (status: int, data: Byte)
      requires Valid()
      modifies this`trace, this`failures
      ensures var a := addr % 0x80;
              && trace == old(trace) + [Access.Read(a)]
              && status == (if fails(old(trace)) then ERR_IO else 0)
              && failures == old(failures) + (if status == 0 then 0 else 1)
              && data == if Volatile(a) then sensed(old(trace), regs, a) else regs[a]
    {
      var a := addr % 0x80;
      status := if fails(trace) then ERR_IO else 0;
      data := if Volatile(a) then sensed(trace, regs, a) else regs[a];
      trace := trace + [Access.Read(a)];
      failures := failures + if status == 0 then 0 else 1;
    }

    method Write(addr: Byte, value: Byte) returns (status: int)
      requires Valid()
      modifies this`trace, this`regs, this`failures
      ensures Valid()
      ensures var a := addr % 0x80;
              && trace == old(trace) + [if addr < 0x80 then Access.Write(a, value) else Grouped(a, value)]
              && status == (if fails(old(trace)) then ERR_IO else 0)
              && failures == old(failures) + (if status == 0 then 0 else 1)
              && regs == if status == 0 && !Volatile(a) then old(regs)[a := value] else old(regs)
    {
      var a := addr % 0x80;
      status := if fails(trace) then ERR_IO else 0;
      if status == 0 && !Volatile(a) {
        regs := regs[a := value];
      }
      failures := failures + if status == 0 then 0 else 1;
      trace := trace + [if addr < 0x80 then Access.Write(a, value) else Grouped(a, value)];
    }
  }

  // No access to the bus fails.
  ghost predicate Reliable(dev: Device) {
    forall t :: !dev.fails(t)
  }

  // lms_set and lms_clear
  method SetReg(dev: Device, addr: Byte, mask: Byte) returns (status: int)
    requires dev.Valid() && addr < 0x80 && !Volatile(addr)
    modifies dev`trace, dev`failures, dev`regs
    ensures dev.Valid()
    ensures OnlyRegs(old(dev.regs), dev.regs, {addr as int})
    ensures if status == 0 then dev.regs == old(dev.regs)[addr := SetBits(old(dev.regs)[addr], mask)]
            else dev.regs == old(dev.regs)
    ensures old(dev.trace) <= dev.trace && |dev.trace| <= |old(dev.trace)| + 2
    ensures Reliable(dev) ==> status == 0
    ensures status == 0 ==> dev.failures == old(dev.failures)
  {
    hide SetBits;
    var regval;
    status, regval := dev.Read(addr);
    if status != 0 {
      return;
    }
    status := dev.Write(addr, SetBits(regval, mask));
  }

  method ClearReg(dev: Device, addr: Byte, mask: Byte) returns (status: int)
    requires dev.Valid() && addr < 0x80 && !Volatile(addr)
    modifies dev`trace, dev`failures, dev`regs
    ensures dev.Valid()
    ensures OnlyRegs(old(dev.regs), dev.regs, {addr as int})
    ensures if status == 0 then dev.regs == old(dev.regs)[addr := ClearBits(old(dev.regs)[addr], mask)]
            else dev.regs == old(dev.regs)
    ensures old(dev.trace) <= dev.trace && |dev.trace| <= |old(dev.trace)| + 2
    ensures Reliable(dev) ==> status == 0
    ensures status == 0 ==> dev.failures == old(dev.failures)
  {
    hide ClearBits;
    var regval;
    status, regval := dev.Read(addr);
    if status != 0 {
      return;
    }
    status := dev.Write(addr, ClearBits(regval, mask));
  }
}
