/** Choosing VCOCAP: the bounded walks of tune_vcocap against a device that answers as it likes, and against one whose
    VTUNE comparators depend on VCOCAP alone. */
module Vcocap {
  import opened BitOps
  import opened LmsDevice
  import opened Tuning

  const VCOCAP_MAX_LOW_HIGH := 12
  const VTUNE_MAX_ITERATIONS := 20
  const MAX_RETRIES := 15

  const VCO_HIGH := 2
  const VCO_NORM := 0
  const VCO_LOW := 1

  predicate IsBase(base: nat) {
    base == 0x10 || base == 0x20
  }

  function VcocapReg(base: nat): Byte
    requires IsBase(base)
  {
    base + 9
  }

  function VtuneReg(base: nat): Byte
    requires IsBase(base)
  {
    base + 10
  }

  lemma Registers(base: nat)
    requires IsBase(base)
    ensures var r, v := VcocapReg(base), VtuneReg(base);
            r < 0x80 && v < 0x80 && r % 0x80 == r && v % 0x80 == v && !Volatile(r) && Volatile(v)
  {}

  // ---- A device whose comparators follow VCOCAP ----

  // HIGH (2) up to h, LOW (1) from l on, NORM (0) strictly between.
  function Region(h: int, l: int, vcocap: int): nat {
    if vcocap <= h then 2 else if vcocap >= l then 1 else 0
  }

  predicate Ordered(h: int, l: int) {
    -1 <= h <= 61 && 2 <= l <= 64 && l - h >= 2
  }

  // The delta-sigma modulators of both PLLs are on.
  predicate DsmsOn(enables: Byte) {
    Bit(enables, 0) && Bit(enables, 2)
  }

  // The comparators follow VCOCAP as long as the modulators are on.
  ghost predicate Ideal(dev: Device, base: nat, h: int, l: int)
    requires IsBase(base)
  {
    && Ordered(h, l)
    && Reliable(dev)
    && (forall t, r :: |r| == 0x80 && DsmsOn(r[0x09]) ==>
                         dev.sensed(t, r, VtuneReg(base)) / 0x40 == Region(h, l, r[VcocapReg(base)] % 0x40))
  }

  ghost predicate Follows(dev: Device, base: nat, h: int, l: int)
    requires IsBase(base)
    reads dev`regs
  {
    dev.Valid() && DsmsOn(dev.regs[0x09]) && Ideal(dev, base, h, l)
  }

  // ---- What every walk does to the device, whatever it answers ----

  // The saved upper bits of the VCOCAP register.
  predicate IsSaved(saved: Byte) {
    saved % 0x40 == 0
  }

  // A register value with the saved upper bits.
  predicate Upper(v: Byte, saved: Byte) {
    v / 0x40 * 0x40 == saved
  }

  // An access of the walks: the comparators are read, or VCOCAP is written with the saved upper bits.
  predicate Tunes(access: Access, base: nat, saved: Byte)
    requires IsBase(base)
  {
    || access == Read(VtuneReg(base))
    || (access.Write? && access.addr == VcocapReg(base) && Upper(access.value, saved))
  }

  // Only such accesses were added, with at most n writes among them.
  ghost predicate OnlyVcocap(before: seq<Access>, after: seq<Access>, base: nat, saved: Byte, n: nat)
    requires IsBase(base)
  {
    && before <= after
    && (forall i :: |before| <= i < |after| ==> Tunes(after[i], base, saved))
    && |Written(after, VcocapReg(base))| <= |Written(before, VcocapReg(base))| + n
  }

  lemma OnlyVcocapSteps(t0: seq<Access>, t1: seq<Access>, t2: seq<Access>, base: nat, saved: Byte, n: nat, m: nat)
    requires IsBase(base)
    requires OnlyVcocap(t0, t1, base, saved, n) && OnlyVcocap(t1, t2, base, saved, m)
    ensures OnlyVcocap(t0, t2, base, saved, n + m)
  {}

  lemma FirstAccess(t0: seq<Access>, t1: seq<Access>, access: Access, base: nat, saved: Byte, n: nat)
    requires IsBase(base) && OnlyVcocap(t0 + [access], t1, base, saved, n)
    ensures |t1| > |t0| && t1[|t0|] == access
  {}

  lemma Extends(t0: seq<Access>, t1: seq<Access>, base: nat, saved: Byte, n: nat)
    requires IsBase(base) && OnlyVcocap(t0, t1, base, saved, n)
    ensures t0 <= t1
  {}

  lemma NoAccess(t: seq<Access>, base: nat, saved: Byte)
    requires IsBase(base)
    ensures OnlyVcocap(t, t, base, saved, 0)
  {}

  lemma OnlyVcocapAtMost(t0: seq<Access>, t1: seq<Access>, base: nat, saved: Byte, n: nat, m: nat)
    requires IsBase(base) && OnlyVcocap(t0, t1, base, saved, n) && n <= m
    ensures OnlyVcocap(t0, t1, base, saved, m)
  {}

  lemma OneRead(t: seq<Access>, base: nat, saved: Byte)
    requires IsBase(base)
    ensures OnlyVcocap(t, t + [Read(VtuneReg(base))], base, saved, 0)
  {
    WrittenAppend(t, Read(VtuneReg(base)), VcocapReg(base));
  }

  lemma OneWrite(t: seq<Access>, base: nat, saved: Byte, value: Byte)
    requires IsBase(base) && Upper(value, saved)
    ensures OnlyVcocap(t, t + [Write(VcocapReg(base), value)], base, saved, 1)
  {
    WrittenAppend(t, Write(VcocapReg(base), value), VcocapReg(base));
  }

  // The device after a walk: nothing but VCOCAP differs, and the upper bits of its register stay.
  twostate predicate Walked(dev: Device, base: nat, saved: Byte, n: nat)
    requires IsBase(base)
    reads dev
  {
    && dev.Valid() && |old(dev.regs)| == 0x80
    && dev.regs == old(dev.regs)[VcocapReg(base) := dev.regs[VcocapReg(base)]]
    && (Upper(old(dev.regs)[VcocapReg(base)], saved) ==> Upper(dev.regs[VcocapReg(base)], saved))
    && OnlyVcocap(old(dev.trace), dev.trace, base, saved, n)
  }

  ghost predicate Holds(dev: Device, base: nat, vcocap: nat)
    requires IsBase(base)
    reads dev
  {
    dev.Valid() && dev.regs[VcocapReg(base)] % 0x40 == vcocap
  }

  // The last access read the comparators, with the given value in the register.
  ghost predicate ReadAt(dev: Device, base: nat, saved: Byte, vcocap: nat, vtune: nat)
    requires IsBase(base)
    reads dev
  {
    && dev.Valid() && vcocap <= VCOCAP_MAX_VALUE && dev.regs[VcocapReg(base)] == saved + vcocap
    && |dev.trace| > 0 && dev.trace[|dev.trace| - 1] == Read(VtuneReg(base))
    && dev.sensed(dev.trace[..|dev.trace| - 1], dev.regs, VtuneReg(base)) / 0x40 == vtune
  }

  method GetVtune(dev: Device, base: nat, ghost saved: Byte, ghost h: int, ghost l: int)
    returns (status: int, vtune: nat)
    requires dev.Valid() && IsBase(base)
    modifies dev`trace, dev`failures
    ensures Walked(dev, base, saved, 0)
    ensures status == if dev.fails(old(dev.trace)) then ERR_IO else 0
    ensures dev.trace == old(dev.trace) + [Read(VtuneReg(base))]
    ensures vtune == dev.sensed(old(dev.trace), dev.regs, VtuneReg(base)) / 0x40 < 4
    ensures Follows(dev, base, h, l) ==> status == 0 && vtune == Region(h, l, dev.regs[VcocapReg(base)] % 0x40)
    ensures status == 0 ==> dev.failures == old(dev.failures)
  {
    hide OnlyVcocap, Upper, Region, Volatile, Written;
    Registers(base);
    OneRead(dev.trace, base, saved);
    var data;
    status, data := dev.Read(VtuneReg(base));
    vtune := data / 0x40;
  }

  lemma SavedPlus(saved: Byte, vcocap: nat)
    requires IsSaved(saved) && vcocap <= VCOCAP_MAX_VALUE
    ensures saved + vcocap < 0x100 && Or(vcocap, saved) == saved + vcocap
    ensures Upper(saved + vcocap, saved) && (saved + vcocap) % 0x40 == vcocap
  {
    hide Or, Shl;
    ShlConstants(saved / 0x40);
    OrIsSum(saved / 0x40, vcocap, 6);
    OrCommutes(vcocap, saved);
  }

  method WriteVcocap(dev: Device, base: nat, vcocap: nat, saved: Byte) returns (status: int)
    requires dev.Valid() && IsBase(base) && IsSaved(saved) && vcocap <= VCOCAP_MAX_VALUE
    modifies dev`trace, dev`failures, dev`regs
    ensures Walked(dev, base, saved, 1)
    ensures dev.trace == old(dev.trace) + [Write(VcocapReg(base), saved + vcocap)]
    ensures status == if dev.fails(old(dev.trace)) then ERR_IO else 0
    ensures status == 0 ==> Holds(dev, base, vcocap) && dev.regs[VcocapReg(base)] == saved + vcocap
    ensures status == 0 ==> dev.failures == old(dev.failures)
  {
    hide OnlyVcocap, Upper, Or, IsSaved, Volatile, Written, VcocapReg;
    Registers(base);
    SavedPlus(saved, vcocap);
    OneWrite(dev.trace, base, saved, saved + vcocap);
    status := dev.Write(VcocapReg(base), Or(vcocap, saved));
  }

  // Write VCOCAP, then read the comparators.
  method Probe(dev: Device, base: nat, vcocap: nat, saved: Byte, ghost h: int, ghost l: int)
    returns (status: int, vtune: nat)
    requires dev.Valid() && IsBase(base) && IsSaved(saved) && vcocap <= VCOCAP_MAX_VALUE
    modifies dev`trace, dev`failures, dev`regs
    ensures Walked(dev, base, saved, 1)
    ensures status == 0 ==> Holds(dev, base, vcocap) && ReadAt(dev, base, saved, vcocap, vtune)
    ensures Follows(dev, base, h, l) ==> status == 0 && vtune == Region(h, l, vcocap)
    ensures status == 0 ==> dev.failures == old(dev.failures)
  {
    hide OnlyVcocap, Upper, Region, IsSaved;
    status := WriteVcocap(dev, base, vcocap, saved);
    if status != 0 {
      return status, VCO_NORM;
    }
    ghost var t := dev.trace;
    status, vtune := GetVtune(dev, base, saved, h, l);
    OnlyVcocapSteps(old(dev.trace), t, dev.trace, base, saved, 1, 0);
  }

  // A walk that came to the end of the range: it started there, or the comparators still did not read what was sought.
  ghost predicate RanOut(dev: Device, base: nat, saved: Byte, start: nat, end: nat, sought: nat)
    requires IsBase(base)
    reads dev
  {
    start == end || exists vtune: nat :: vtune != sought && ReadAt(dev, base, saved, end, vtune)
  }

  // From a VCOCAP in the HIGH region, upwards until NORM. The limit is VCOCAP_MAX_VALUE exactly if the walk ran into
  // the top, and is otherwise the last value before NORM was read.
  method VtuneHighToNorm(dev: Device, base: nat, vcocapEst: nat, saved: Byte, ghost h: int, ghost l: int)
    returns (status: int, vtuneHighLimit: nat)
    requires dev.Valid() && IsBase(base) && IsSaved(saved) && vcocapEst <= VCOCAP_MAX_VALUE
    modifies dev`trace, dev`failures, dev`regs
    ensures Walked(dev, base, saved, VTUNE_MAX_ITERATIONS)
    ensures vtuneHighLimit <= VCOCAP_MAX_VALUE
    ensures status == 0 ==>
              if vtuneHighLimit < VCOCAP_MAX_VALUE then ReadAt(dev, base, saved, vtuneHighLimit + 1, VCO_NORM)
              else RanOut(dev, base, saved, vcocapEst, VCOCAP_MAX_VALUE, VCO_NORM)
    ensures Follows(dev, base, h, l) && vcocapEst < l - 1 ==>
              var limit := if vcocapEst < h then h else vcocapEst;
              && (status == 0 <==> limit + 1 - vcocapEst <= VTUNE_MAX_ITERATIONS)
              && (status == 0 ==> vtuneHighLimit == limit)
    ensures status == 0 ==> dev.failures == old(dev.failures)
  {
    hide OnlyVcocap, IsSaved, Upper, ReadAt;
    var vcocap := vcocapEst;
    vtuneHighLimit := VCOCAP_MAX_VALUE;
    NoAccess(dev.trace, base, saved);
    var i := 0;
    while i < VTUNE_MAX_ITERATIONS
      invariant 0 <= i <= VTUNE_MAX_ITERATIONS && vcocap == vcocapEst + i <= VCOCAP_MAX_VALUE
      invariant vtuneHighLimit == VCOCAP_MAX_VALUE
      invariant Walked(dev, base, saved, i)
      invariant RanOut(dev, base, saved, vcocapEst, vcocap, VCO_NORM)
      invariant dev.failures == old(dev.failures)
      invariant Follows(dev, base, h, l) && i > 0 && vcocapEst < l - 1 ==> vcocap <= h
      decreases VTUNE_MAX_ITERATIONS - i
    {
      OnlyVcocapAtMost(old(dev.trace), dev.trace, base, saved, i, VTUNE_MAX_ITERATIONS);
      if vcocap >= VCOCAP_MAX_VALUE {
        return 0, VCOCAP_MAX_VALUE;
      }
      ghost var t := dev.trace;
      vcocap := vcocap + 1;
      var vtune;
      status, vtune := Probe(dev, base, vcocap, saved, h, l);
      OnlyVcocapSteps(old(dev.trace), t, dev.trace, base, saved, i, 1);
      OnlyVcocapAtMost(old(dev.trace), dev.trace, base, saved, i + 1, VTUNE_MAX_ITERATIONS);
      if status != 0 {
        return;
      }
      if vtune == VCO_NORM {
        vtuneHighLimit := vcocap - 1;
        return 0, vtuneHighLimit;
      }
      i := i + 1;
    }
    status := ERR_UNEXPECTED;
  }

  // From a VCOCAP in the NORM region, downwards until HIGH. The limit never reaches VCOCAP_MAX_VALUE, so the value that
  // stands for "not found" cannot be mistaken for a limit that was.
  method VtuneNormToHigh(dev: Device, base: nat, vcocapEst: nat, saved: Byte, ghost h: int, ghost l: int)
    returns (status: int, vtuneHighLimit: nat)
    requires dev.Valid() && IsBase(base) && IsSaved(saved) && vcocapEst <= VCOCAP_MAX_VALUE
    modifies dev`trace, dev`failures, dev`regs
    ensures Walked(dev, base, saved, VTUNE_MAX_ITERATIONS)
    ensures vtuneHighLimit <= VCOCAP_MAX_VALUE && (status == 0 ==> vtuneHighLimit < VCOCAP_MAX_VALUE)
    ensures status == 0 ==>
              || ReadAt(dev, base, saved, vtuneHighLimit, VCO_HIGH)
              || (vtuneHighLimit == 0 && RanOut(dev, base, saved, vcocapEst, 0, VCO_HIGH))
    ensures Follows(dev, base, h, l) && h < vcocapEst < l ==>
              && (status == 0 <==> vcocapEst - h <= VTUNE_MAX_ITERATIONS)
              && (status == 0 ==> vtuneHighLimit == if h < 0 then 0 else h)
    ensures status == 0 ==> dev.failures == old(dev.failures)
  {
    hide OnlyVcocap, IsSaved, Upper, ReadAt;
    var vcocap := vcocapEst;
    vtuneHighLimit := VCOCAP_MAX_VALUE;
    NoAccess(dev.trace, base, saved);
    var i := 0;
    while i < VTUNE_MAX_ITERATIONS
      invariant 0 <= i <= VTUNE_MAX_ITERATIONS && vcocap == vcocapEst - i >= 0
      invariant vtuneHighLimit == VCOCAP_MAX_VALUE
      invariant Walked(dev, base, saved, i)
      invariant RanOut(dev, base, saved, vcocapEst, vcocap, VCO_HIGH)
      invariant dev.failures == old(dev.failures)
      invariant Follows(dev, base, h, l) && h < vcocapEst < l ==> h < vcocap
      decreases VTUNE_MAX_ITERATIONS - i
    {
      OnlyVcocapAtMost(old(dev.trace), dev.trace, base, saved, i, VTUNE_MAX_ITERATIONS);
      if vcocap == 0 {
        return 0, 0;
      }
      ghost var t := dev.trace;
      vcocap := vcocap - 1;
      var vtune;
      status, vtune := Probe(dev, base, vcocap, saved, h, l);
      OnlyVcocapSteps(old(dev.trace), t, dev.trace, base, saved, i, 1);
      OnlyVcocapAtMost(old(dev.trace), dev.trace, base, saved, i + 1, VTUNE_MAX_ITERATIONS);
      if status != 0 {
        return;
      }
      if vtune == VCO_HIGH {
        return 0, vcocap;
      }
      i := i + 1;
    }
    status := ERR_UNEXPECTED;
  }

  // From a VCOCAP in the LOW region, downwards until NORM.
  method VtuneLowToNorm(dev: Device, base: nat, vcocapEst: nat, saved: Byte, ghost h: int, ghost l: int)
    returns (status: int, vtuneLowLimit: nat)
    requires dev.Valid() && IsBase(base) && IsSaved(saved) && vcocapEst <= VCOCAP_MAX_VALUE
    modifies dev`trace, dev`failures, dev`regs
    ensures Walked(dev, base, saved, VTUNE_MAX_ITERATIONS)
    ensures vtuneLowLimit <= VCOCAP_MAX_VALUE
    ensures status == 0 ==>
              if vtuneLowLimit > 0 then ReadAt(dev, base, saved, vtuneLowLimit - 1, VCO_NORM)
              else RanOut(dev, base, saved, vcocapEst, 0, VCO_NORM)
    ensures Follows(dev, base, h, l) && h + 1 < vcocapEst ==>
              var limit := if vcocapEst > l then l else vcocapEst;
              && (status == 0 <==> vcocapEst - (limit - 1) <= VTUNE_MAX_ITERATIONS)
              && (status == 0 ==> vtuneLowLimit == limit)
    ensures status == 0 ==> dev.failures == old(dev.failures)
  {
    hide OnlyVcocap, IsSaved, Upper, ReadAt;
    var vcocap := vcocapEst;
    vtuneLowLimit := 0;
    NoAccess(dev.trace, base, saved);
    var i := 0;
    while i < VTUNE_MAX_ITERATIONS
      invariant 0 <= i <= VTUNE_MAX_ITERATIONS && vcocap == vcocapEst - i >= 0
      invariant vtuneLowLimit == 0
      invariant Walked(dev, base, saved, i)
      invariant RanOut(dev, base, saved, vcocapEst, vcocap, VCO_NORM)
      invariant dev.failures == old(dev.failures)
      invariant Follows(dev, base, h, l) && i > 0 && h + 1 < vcocapEst ==> vcocap >= l
      decreases VTUNE_MAX_ITERATIONS - i
    {
      OnlyVcocapAtMost(old(dev.trace), dev.trace, base, saved, i, VTUNE_MAX_ITERATIONS);
      if vcocap == 0 {
        return 0, 0;
      }
      ghost var t := dev.trace;
      vcocap := vcocap - 1;
      var vtune;
      status, vtune := Probe(dev, base, vcocap, saved, h, l);
      OnlyVcocapSteps(old(dev.trace), t, dev.trace, base, saved, i, 1);
      OnlyVcocapAtMost(old(dev.trace), dev.trace, base, saved, i + 1, VTUNE_MAX_ITERATIONS);
      if status != 0 {
        return;
      }
      if vtune == VCO_NORM {
        return 0, vcocap + 1;
      }
      i := i + 1;
    }
    status := ERR_UNEXPECTED;
  }

  // Where waiting for a comparator value ends on an ideal device: where it started, or at the edge of the region.
  function Reached(target: nat, h: int, l: int, vcocap: nat): int {
    if Region(h, l, vcocap) == target then vcocap
    else if target == VCO_HIGH then (if h < 0 then 0 else h)
    else (if l > 63 then 63 else l)
  }

  ghost predicate NotSaid(
      sensed: (seq<Access>, seq<Byte>, nat) -> Byte, regs: seq<Byte>, trace: seq<Access>, base: nat, target: nat,
      k: nat)
    requires IsBase(base) && k < |trace|
  {
    trace[k] == Read(VtuneReg(base)) && sensed(trace[..k], regs, VtuneReg(base)) / 0x40 != target
  }

  // The n accesses from `from` on read the comparators, which never said what was waited for.
  ghost predicate WaitedInVain(dev: Device, regs: seq<Byte>, base: nat, from: nat, target: nat, n: nat)
    requires IsBase(base)
    reads dev`trace
  {
    && from + n <= |dev.trace|
    && forall k :: from <= k < from + n ==> NotSaid(dev.sensed, regs, dev.trace, base, target, k)
  }

  lemma StillNotSaid(dev: Device, regs: seq<Byte>, t: seq<Access>, base: nat, from: nat, target: nat, n: nat)
    requires IsBase(base) && t <= dev.trace && from + n <= |t|
    requires forall k :: from <= k < from + n ==> NotSaid(dev.sensed, regs, t, base, target, k)
    ensures WaitedInVain(dev, regs, base, from, target, n)
  {
    forall k | from <= k < from + n
      ensures NotSaid(dev.sensed, regs, dev.trace, base, target, k)
    {
      assert NotSaid(dev.sensed, regs, t, base, target, k);
      assert dev.trace[..k] == t[..k];
    }
  }

  lemma WaitedOnceMore(dev: Device, regs: seq<Byte>, t: seq<Access>, base: nat, from: nat, target: nat, n: nat)
    requires IsBase(base) && dev.trace == t + [Read(VtuneReg(base))] && |t| == from + n
    requires forall k :: from <= k < from + n ==> NotSaid(dev.sensed, regs, t, base, target, k)
    requires dev.sensed(t, regs, VtuneReg(base)) / 0x40 != target
    ensures WaitedInVain(dev, regs, base, from, target, n + 1)
  {
    assert dev.trace[..|t|] == t;
    StillNotSaid(dev, regs, t, base, from, target, n);
  }

  // Wait for HIGH or LOW; if it does not come, walk towards it up to the end of the range, and settle for that.
  method WaitForVtuneValue(dev: Device, base: nat, targetValue: nat, vcocapIn: nat, saved: Byte, ghost h: int,
                           ghost l: int)
    returns (status: int, vcocap: nat)
    requires dev.Valid() && IsBase(base) && IsSaved(saved) && vcocapIn <= VCOCAP_MAX_VALUE
    requires targetValue == VCO_HIGH || targetValue == VCO_LOW
    modifies dev`trace, dev`failures, dev`regs
    ensures Walked(dev, base, saved, if targetValue == VCO_HIGH then vcocapIn else VCOCAP_MAX_VALUE - vcocapIn)
    ensures vcocap <= VCOCAP_MAX_VALUE
    ensures status == 0 && vcocap != vcocapIn ==>
              WaitedInVain(dev, old(dev.regs), base, |old(dev.trace)|, targetValue, 15)
    ensures Follows(dev, base, h, l) && old(Holds(dev, base, vcocapIn)) ==>
              status == 0 && vcocap == Reached(targetValue, h, l, vcocapIn)
    ensures status == 0 ==> dev.failures == old(dev.failures)
  {
    hide IsSaved, Upper, NotSaid, Tunes, Written;
    ghost var from := |dev.trace|;
    vcocap := vcocapIn;
    var limit := if targetValue == VCO_HIGH then 0 else VCOCAP_MAX_VALUE;
    var inc := if targetValue == VCO_HIGH then -1 else 1;
    ghost var bound := if targetValue == VCO_HIGH then vcocapIn else VCOCAP_MAX_VALUE - vcocapIn;
    NoAccess(dev.trace, base, saved);
    var vtune;
    var i := 0;
    while i < MAX_RETRIES
      invariant 0 <= i <= MAX_RETRIES && dev.regs == old(dev.regs)
      invariant Walked(dev, base, saved, 0)
      invariant dev.failures == old(dev.failures)
      invariant WaitedInVain(dev, dev.regs, base, from, targetValue, i) && |dev.trace| == from + i
      invariant Follows(dev, base, h, l) && old(Holds(dev, base, vcocapIn)) && i > 0 ==>
                  Region(h, l, vcocapIn) != targetValue
      decreases MAX_RETRIES - i
    {
      ghost var t := dev.trace;
      status, vtune := GetVtune(dev, base, saved, h, l);
      OnlyVcocapSteps(old(dev.trace), t, dev.trace, base, saved, 0, 0);
      OnlyVcocapAtMost(old(dev.trace), dev.trace, base, saved, 0, bound);
      if status != 0 {
        return;
      }
      if vtune == targetValue {
        return 0, vcocap;
      }
      WaitedOnceMore(dev, dev.regs, t, base, from, targetValue, i);
      i := i + 1;
    }
    ghost var n := 0;
    ghost var waited := dev.trace;
    while vcocap != limit
      invariant waited <= dev.trace && dev.failures == old(dev.failures)
      invariant vcocap == vcocapIn + inc * n && 0 <= n <= bound && vcocap <= VCOCAP_MAX_VALUE
      invariant bound - n == if targetValue == VCO_HIGH then vcocap else VCOCAP_MAX_VALUE - vcocap
      invariant Walked(dev, base, saved, n)
      invariant Follows(dev, base, h, l) && old(Holds(dev, base, vcocapIn)) ==> Region(h, l, vcocap) != targetValue
      decreases bound - n
    {
      ghost var t := dev.trace;
      vcocap := vcocap + inc;
      status, vtune := Probe(dev, base, vcocap, saved, h, l);
      OnlyVcocapSteps(old(dev.trace), t, dev.trace, base, saved, n, 1);
      n := n + 1;
      OnlyVcocapAtMost(old(dev.trace), dev.trace, base, saved, n, bound);
      if status != 0 {
        return;
      } else if vtune == targetValue {
        StillNotSaid(dev, old(dev.regs), waited, base, from, targetValue, 15);
        return 0, vcocap;
      }
    }
    StillNotSaid(dev, old(dev.regs), waited, base, from, targetValue, 15);
    status := 0;
  }

  // ---- The tuning algorithm ----

  const NOT_TUNED := 0xff
  // 20 steps of each walk, up to 51 steps while forcing the comparators over, and two single writes.
  const MAX_WRITES := 93

  function Max(a: int, b: int): int {
    if a > b then a else b
  }

  function Min(a: int, b: int): int {
    if a < b then a else b
  }

  // Division by two in C, towards zero.
  function Half(x: int): int {
    if x >= 0 then x / 2 else -((-x) / 2)
  }

  // The steps of the first walk, from an estimate in any of the three regions.
  function FirstWalk(h: int, l: int, est: int): int {
    if est <= h then h + 1 - est else if est < l then est - h else est - (l - 1)
  }

  // The middle of the NORM region as far as VCOCAP reaches.
  function Middle(h: int, l: int): int {
    Max(h, 0) + (Min(l, 63) - Max(h, 0)) / 2
  }

  lemma MiddleIsNorm(h: int, l: int)
    requires Ordered(h, l)
    ensures Region(h, l, Middle(h, l)) == VCO_NORM && 0 <= Middle(h, l) <= 63
  {}

  // Find one limit, whichever the estimate leads to first.
  method FindFirstLimit(dev: Device, vcocapEst: nat, base: nat, saved: Byte, ghost h: int, ghost l: int)
    returns (status: int, vtune: nat, high: nat, low: nat)
    requires dev.Valid() && IsBase(base) && IsSaved(saved) && vcocapEst <= VCOCAP_MAX_VALUE
    modifies dev`trace, dev`failures, dev`regs
    ensures Walked(dev, base, saved, VTUNE_MAX_ITERATIONS)
    ensures status == 0 ==> |dev.trace| > |old(dev.trace)|
    ensures high <= VCOCAP_MAX_VALUE && low <= VCOCAP_MAX_VALUE
    ensures vtune == dev.sensed(old(dev.trace), old(dev.regs), VtuneReg(base)) / 0x40
    ensures status == 0 && vtune == VCO_HIGH ==>
              if high < VCOCAP_MAX_VALUE then ReadAt(dev, base, saved, high + 1, VCO_NORM)
              else RanOut(dev, base, saved, vcocapEst, VCOCAP_MAX_VALUE, VCO_NORM)
    ensures status == 0 && vtune == VCO_NORM ==>
              && high < VCOCAP_MAX_VALUE
              && (|| ReadAt(dev, base, saved, high, VCO_HIGH)
                  || (high == 0 && RanOut(dev, base, saved, vcocapEst, 0, VCO_HIGH)))
    ensures vtune == VCO_LOW ==> high == VCOCAP_MAX_VALUE
    ensures status == 0 && vtune == VCO_LOW ==>
              if low > 0 then ReadAt(dev, base, saved, low - 1, VCO_NORM)
              else RanOut(dev, base, saved, vcocapEst, 0, VCO_NORM)
    ensures Follows(dev, base, h, l) && old(Holds(dev, base, vcocapEst)) ==>
              && vtune == Region(h, l, vcocapEst)
              && (status == 0 <==> FirstWalk(h, l, vcocapEst) <= VTUNE_MAX_ITERATIONS)
              && (status == 0 && vtune == VCO_LOW ==> low == l)
              && (status == 0 && vtune != VCO_LOW ==> high == Max(h, 0))
    ensures status == 0 ==> dev.failures == old(dev.failures)
  {
    hide OnlyVcocap, IsSaved, Upper, ReadAt, RanOut;
    high, low := VCOCAP_MAX_VALUE, 0;
    status, vtune := GetVtune(dev, base, saved, h, l);
    ghost var t := dev.trace;
    OnlyVcocapAtMost(old(dev.trace), t, base, saved, 0, VTUNE_MAX_ITERATIONS);
    if status != 0 {
      return;
    }
    if vtune == VCO_HIGH {
      status, high := VtuneHighToNorm(dev, base, vcocapEst, saved, h, l);
    } else if vtune == VCO_NORM {
      status, high := VtuneNormToHigh(dev, base, vcocapEst, saved, h, l);
    } else if vtune == VCO_LOW {
      status, low := VtuneLowToNorm(dev, base, vcocapEst, saved, h, l);
    } else {
      return;
    }
    Extends(t, dev.trace, base, saved, VTUNE_MAX_ITERATIONS);
    OnlyVcocapSteps(old(dev.trace), t, dev.trace, base, saved, 0, VTUNE_MAX_ITERATIONS);
  }

  // Wait for LOW from a forced VCOCAP, and walk back to NORM.
  method LowFrom(dev: Device, forced: nat, base: nat, saved: Byte, ghost h: int, ghost l: int)
    returns (status: int, low: nat)
    requires dev.Valid() && IsBase(base) && IsSaved(saved) && 12 <= forced <= VCOCAP_MAX_VALUE
    modifies dev`trace, dev`failures, dev`regs
    ensures Walked(dev, base, saved, 71)
    ensures low <= VCOCAP_MAX_VALUE
    ensures Follows(dev, base, h, l) && old(Holds(dev, base, forced)) && forced == Min(Max(h, 0) + 12, 63) ==>
              status == 0 && low == Min(l, 63)
    ensures status == 0 ==> dev.failures == old(dev.failures)
  {
    hide OnlyVcocap, IsSaved, Upper, ReadAt, RanOut, WaitedInVain;
    low := 0;
    var vcocap;
    status, vcocap := WaitForVtuneValue(dev, base, VCO_LOW, forced, saved, h, l);
    OnlyVcocapAtMost(old(dev.trace), dev.trace, base, saved, VCOCAP_MAX_VALUE - forced, 51);
    OnlyVcocapAtMost(old(dev.trace), dev.trace, base, saved, 51, 71);
    if status == 0 {
      ghost var t := dev.trace;
      status, low := VtuneLowToNorm(dev, base, vcocap, saved, h, l);
      OnlyVcocapSteps(old(dev.trace), t, dev.trace, base, saved, 51, VTUNE_MAX_ITERATIONS);
    }
  }

  // The HIGH limit is known: force LOW from a fixed distance above it, and walk back to NORM.
  method FindLowLimit(dev: Device, high: nat, base: nat, saved: Byte, ghost h: int, ghost l: int)
    returns (status: int, low: nat)
    requires dev.Valid() && IsBase(base) && IsSaved(saved) && high < VCOCAP_MAX_VALUE
    modifies dev`trace, dev`failures, dev`regs
    ensures Walked(dev, base, saved, 72)
    ensures low <= VCOCAP_MAX_VALUE
    ensures |dev.trace| > |old(dev.trace)|
    ensures dev.trace[|old(dev.trace)|] == Write(VcocapReg(base), saved + Min(high + 12, 63))
    ensures Follows(dev, base, h, l) && high == Max(h, 0) ==> status == 0 && low == Min(l, 63)
    ensures status == 0 ==> dev.failures == old(dev.failures)
  {
    hide OnlyVcocap, IsSaved, Upper;
    low := 0;
    var vcocap := VCOCAP_MAX_VALUE;
    if high + VCOCAP_MAX_LOW_HIGH < VCOCAP_MAX_VALUE {
      vcocap := high + VCOCAP_MAX_LOW_HIGH;
    }
    status := WriteVcocap(dev, base, vcocap, saved);
    OnlyVcocapAtMost(old(dev.trace), dev.trace, base, saved, 1, 72);
    if status != 0 {
      return;
    }
    ghost var t := dev.trace;
    status, low := LowFrom(dev, vcocap, base, saved, h, l);
    FirstAccess(old(dev.trace), dev.trace, t[|old(dev.trace)|], base, saved, 71);
    OnlyVcocapSteps(old(dev.trace), t, dev.trace, base, saved, 1, 71);
  }

  // Wait for HIGH from a forced VCOCAP, and walk back to NORM.
  method HighFrom(dev: Device, forced: nat, base: nat, saved: Byte, ghost h: int, ghost l: int)
    returns (status: int, high: nat)
    requires dev.Valid() && IsBase(base) && IsSaved(saved) && forced <= 51
    modifies dev`trace, dev`failures, dev`regs
    ensures Walked(dev, base, saved, 71)
    ensures high <= VCOCAP_MAX_VALUE
    ensures Follows(dev, base, h, l) && old(Holds(dev, base, forced)) && forced == Max(l - 12, 0) ==>
              status == 0 && high == Max(h, 0)
    ensures status == 0 ==> dev.failures == old(dev.failures)
  {
    hide OnlyVcocap, IsSaved, Upper, ReadAt, RanOut, WaitedInVain;
    high := VCOCAP_MAX_VALUE;
    var vcocap;
    status, vcocap := WaitForVtuneValue(dev, base, VCO_HIGH, forced, saved, h, l);
    OnlyVcocapAtMost(old(dev.trace), dev.trace, base, saved, forced, 51);
    OnlyVcocapAtMost(old(dev.trace), dev.trace, base, saved, 51, 71);
    if status == 0 {
      ghost var t := dev.trace;
      status, high := VtuneHighToNorm(dev, base, vcocap, saved, h, l);
      OnlyVcocapSteps(old(dev.trace), t, dev.trace, base, saved, 51, VTUNE_MAX_ITERATIONS);
    }
  }

  // The LOW limit is known: force HIGH from a fixed distance below it, and walk back to NORM.
  method FindHighLimit(dev: Device, low: nat, base: nat, saved: Byte, ghost h: int, ghost l: int)
    returns (status: int, high: nat)
    requires dev.Valid() && IsBase(base) && IsSaved(saved) && low <= VCOCAP_MAX_VALUE
    modifies dev`trace, dev`failures, dev`regs
    ensures Walked(dev, base, saved, 72)
    ensures high <= VCOCAP_MAX_VALUE
    ensures |dev.trace| > |old(dev.trace)|
    ensures dev.trace[|old(dev.trace)|] == Write(VcocapReg(base), saved + Max(low - 12, 0))
    ensures Follows(dev, base, h, l) && low == l ==> status == 0 && high == Max(h, 0)
    ensures status == 0 ==> dev.failures == old(dev.failures)
  {
    hide OnlyVcocap, IsSaved, Upper;
    high := VCOCAP_MAX_VALUE;
    var vcocap := 0;
    if low - VCOCAP_MAX_LOW_HIGH > 0 {
      vcocap := low - VCOCAP_MAX_LOW_HIGH;
    }
    status := WriteVcocap(dev, base, vcocap, saved);
    OnlyVcocapAtMost(old(dev.trace), dev.trace, base, saved, 1, 72);
    if status != 0 {
      return;
    }
    ghost var t := dev.trace;
    status, high := HighFrom(dev, vcocap, base, saved, h, l);
    FirstAccess(old(dev.trace), dev.trace, t[|old(dev.trace)|], base, saved, 71);
    OnlyVcocapSteps(old(dev.trace), t, dev.trace, base, saved, 1, 71);
  }

  // Settle in the middle of the limits.
  method Settle(dev: Device, high: nat, low: nat, base: nat, saved: Byte, ghost h: int, ghost l: int)
    returns (status: int, vcocapResult: nat)
    requires dev.Valid() && IsBase(base) && IsSaved(saved) && high <= VCOCAP_MAX_VALUE && low <= VCOCAP_MAX_VALUE
    modifies dev`trace, dev`failures, dev`regs
    ensures Walked(dev, base, saved, 1)
    ensures vcocapResult <= 63 || vcocapResult == 0xff
    ensures vcocapResult != 0xff ==>
              if low >= high then vcocapResult == high + (low - high) / 2 else vcocapResult == high - (high - low) / 2
    ensures status == 0 ==> ReadAt(dev, base, saved, vcocapResult, VCO_NORM)
    ensures Follows(dev, base, h, l) && high == Max(h, 0) && low == Min(l, 63) ==>
              status == 0 && vcocapResult == Middle(h, l)
    ensures status == 0 ==> dev.failures == old(dev.failures)
  {
    hide OnlyVcocap, IsSaved, Upper;
    vcocapResult := NOT_TUNED;
    var vcocap := high + Half(low - high);
    status := WriteVcocap(dev, base, vcocap, saved);
    if status != 0 {
      return;
    }
    vcocapResult := vcocap;
    ghost var t := dev.trace;
    var vtune;
    status, vtune := GetVtune(dev, base, saved, h, l);
    OnlyVcocapSteps(old(dev.trace), t, dev.trace, base, saved, 1, 0);
    if status != 0 {
      return;
    }
    if vtune != VCO_NORM {
      status := ERR_UNEXPECTED;
    }
  }

  // NORM was read within the first 20 writes.
  ghost predicate NormSeen(
      sensed: (seq<Access>, seq<Byte>, nat) -> Byte, t0: seq<Access>, trace: seq<Access>, base: nat)
    requires IsBase(base)
  {
    exists t: seq<Access>, r: seq<Byte> ::
      && t0 <= t && t + [Read(VtuneReg(base))] <= trace && |r| == 0x80 && sensed(t, r, VtuneReg(base)) / 0x40 == 0
      && |Written(t, VcocapReg(base))| <= |Written(t0, VcocapReg(base))| + 20
  }

  lemma NormSeenAt(dev: Device, t0: seq<Access>, base: nat, saved: Byte, vcocap: nat)
    requires IsBase(base) && OnlyVcocap(t0, dev.trace, base, saved, 20) && ReadAt(dev, base, saved, vcocap, VCO_NORM)
    requires |dev.trace| > |t0|
    ensures NormSeen(dev.sensed, t0, dev.trace, base)
  {
    hide Tunes;
    var t := dev.trace[..|dev.trace| - 1];
    assert dev.trace == t + [Read(VtuneReg(base))];
    WrittenAppend(t, Read(VtuneReg(base)), VcocapReg(base));
  }

  lemma NormStillSeen(dev: Device, t0: seq<Access>, t1: seq<Access>, base: nat, saved: Byte, n: nat)
    requires IsBase(base) && NormSeen(dev.sensed, t0, t1, base) && OnlyVcocap(t1, dev.trace, base, saved, n)
    ensures NormSeen(dev.sensed, t0, dev.trace, base)
  {
    hide Tunes, Written;
    var t, r :| && t0 <= t && t + [Read(VtuneReg(base))] <= t1 && |r| == 0x80
                && dev.sensed(t, r, VtuneReg(base)) / 0x40 == 0
                && |Written(t, VcocapReg(base))| <= |Written(t0, VcocapReg(base))| + 20;
    assert t + [Read(VtuneReg(base))] <= dev.trace;
  }

  // Whatever the device answers, the algorithm stops after at most 93 writes, all to VCOCAP and within its six bits,
  // and reports success only with the comparators at NORM. On an ideal device it succeeds if and only if the first walk
  // is at most 20 steps, and then the result is the middle of the NORM region.
  method TuneVcocap(dev: Device, vcocapEst: nat, base: nat, saved: Byte, ghost h: int, ghost l: int)
    returns (status: int, vcocapResult: nat)
    requires dev.Valid() && IsBase(base) && IsSaved(saved) && vcocapEst <= VCOCAP_MAX_VALUE
    modifies dev`trace, dev`failures, dev`regs
    ensures Walked(dev, base, saved, 93)
    ensures vcocapResult <= 63 || vcocapResult == 0xff
    ensures status == 0 ==> ReadAt(dev, base, saved, vcocapResult, VCO_NORM)
    ensures var first := dev.sensed(old(dev.trace), old(dev.regs), VtuneReg(base)) / 0x40;
            status == 0 ==> first != 3 && (first == 2 ==> NormSeen(dev.sensed, old(dev.trace), dev.trace, base))
    ensures Follows(dev, base, h, l) && old(Holds(dev, base, vcocapEst)) ==>
              && (status == 0 <==> FirstWalk(h, l, vcocapEst) <= 20)
              && (status == 0 ==> vcocapResult == Middle(h, l) && Region(h, l, vcocapResult) == VCO_NORM)
    ensures status == 0 ==> dev.failures == old(dev.failures)
  {
    hide OnlyVcocap, IsSaved, Upper, ReadAt, RanOut, FirstWalk, NormSeen;
    vcocapResult := NOT_TUNED;
    var vtune, high, low;
    status, vtune, high, low := FindFirstLimit(dev, vcocapEst, base, saved, h, l);
    ghost var t1 := dev.trace;
    OnlyVcocapAtMost(old(dev.trace), t1, base, saved, VTUNE_MAX_ITERATIONS, MAX_WRITES);
    if status != 0 {
      return;
    } else if high != VCOCAP_MAX_VALUE {
      if vtune != VCO_HIGH && vtune != VCO_NORM {
        status := ERR_UNEXPECTED;
        return;
      }
      if vtune == VCO_HIGH {
        NormSeenAt(dev, old(dev.trace), base, saved, high + 1);
      }
      status, low := FindLowLimit(dev, high, base, saved, h, l);
    } else {
      if vtune != VCO_LOW && vtune != VCO_NORM {
        status := ERR_UNEXPECTED;
        return;
      }
      status, high := FindHighLimit(dev, low, base, saved, h, l);
    }
    ghost var t2 := dev.trace;
    OnlyVcocapSteps(old(dev.trace), t1, t2, base, saved, VTUNE_MAX_ITERATIONS, 72);
    OnlyVcocapAtMost(old(dev.trace), t2, base, saved, 92, MAX_WRITES);
    if status == 0 {
      status, vcocapResult := Settle(dev, high, low, base, saved, h, l);
      OnlyVcocapSteps(old(dev.trace), t2, dev.trace, base, saved, 92, 1);
      MiddleWhenOrdered(h, l);
      if vtune == VCO_HIGH {
        OnlyVcocapSteps(t1, t2, dev.trace, base, saved, 72, 1);
        NormStillSeen(dev, old(dev.trace), t1, base, saved, 73);
      }
    }
  }

  // The first walk is short enough for every estimate if and only if both limits are near the middle of the range and
  // not too far apart.
  lemma AlwaysShortIff(h: int, l: int)
    requires Ordered(h, l)
    ensures (forall est :: VCOCAP_EST_MIN <= est <= VCOCAP_EST_MAX ==>
                             FirstWalk(h, l, est) <= VTUNE_MAX_ITERATIONS) <==>
            h <= 34 && l >= 36 && Min(l - 1, VCOCAP_EST_MAX) - h <= VTUNE_MAX_ITERATIONS
  {
    var highest := Min(l - 1, VCOCAP_EST_MAX);
    assert h >= 35 ==> FirstWalk(h, l, VCOCAP_EST_MIN) > VTUNE_MAX_ITERATIONS;
    assert l <= 35 ==> FirstWalk(h, l, VCOCAP_EST_MAX) > VTUNE_MAX_ITERATIONS;
    assert h <= 34 && l >= 36 ==> FirstWalk(h, l, highest) == highest - h;
  }

  function SensedRegion(h: int, l: int, vcocap: nat): (r: Byte)
    ensures r / 0x40 == Region(h, l, vcocap)
  {
    Region(h, l, vcocap) * 0x40
  }

  // An ideal device for any two limits, and what the algorithm makes of it.
  method TuneIdeal(vcocapEst: nat, base: nat, h: int, l: int) returns (status: int, vcocapResult: nat)
    requires Ordered(h, l) && IsBase(base) && vcocapEst <= VCOCAP_MAX_VALUE
    ensures status == 0 <==> FirstWalk(h, l, vcocapEst) <= 20
    ensures status == 0 ==> vcocapResult == Middle(h, l)
  {
    var sensed := (t: seq<Access>, regs: seq<Byte>, a: nat) =>
      if |regs| == 0x80 then SensedRegion(h, l, regs[VcocapReg(base)] % 0x40) else 0;
    var dev := new Device(_ => false, sensed, false, seq(0x80, a => if a == 0x09 then 0x05 else vcocapEst));
    hide FirstWalk, OnlyVcocap, ReadAt;
    status, vcocapResult := TuneVcocap(dev, vcocapEst, base, 0, h, l);
  }

  // So an estimate can be too far off even on an ideal device: here the first walk would take 47 steps.
  method EstimateTooFar() returns (status: int)
    ensures status != 0
  {
    var result;
    status, result := TuneIdeal(VCOCAP_EST_MIN, 0x10, 61, 64);
  }

  lemma MiddleWhenOrdered(h: int, l: int)
    ensures Ordered(h, l) ==> Region(h, l, Middle(h, l)) == VCO_NORM
  {
    if Ordered(h, l) {
      MiddleIsNorm(h, l);
    }
  }
}
