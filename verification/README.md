# Verified models of the FX3 camera and bladeRF firmware

This project models the parts of the two lab code bases in which state or arithmetic is easy to get wrong, and proves
what they are meant to guarantee:

- the Cypress FX3 memory helpers (`lab5_cypressAN/UVC_APPLICATION/cyfxtx.c`): the DMA buffer allocator, the leak
  checker's in-use list, and the overlapping memory copy;
- the LMS6002D transceiver driver (`lab5_bladeRF_code/fpga_common`): PLL arithmetic, VCOCAP tuning, programming a PLL,
  loopback modes, DC calibration, and the retune packet that carries tuning parameters to the FPGA;
- smaller pieces of the bladeRF FX3 firmware (`lab5_bladeRF_code/fx3_firmware`): the CRC-16 and the field lookup in flash,
  the bit flip for FPGA programming, and the event log.

`dafny verify dfyconfig.toml` checks everything.

## Layout

| file | contents |
|---|---|
| `Wrappers.dfy` | the option type |
| `BitOps.dfy` | C's bitwise operators on naturals, bit by bit, and the algebra the other modules need |
| `LineMap.dfy` | the DMA heap as a state machine over a bitmap and a set of live blocks; safety over whole runs |
| `DmaBuffer.dfy` | the allocator on 32-bit words, in place, proved to take the steps of `LineMap` |
| `InUseList.dfy` | what the in-use list must hold after any history, and the doubly linked list that holds it |
| `MemCopy.dfy` | the unrolled overlapping copy |
| `Tuning.dfy` | band table, divider, integer and fractional parts, conversion back to Hz, with C's integer widths as newtypes |
| `RetunePacket.dfy` | the sixteen-byte packet and exactly what survives it |
| `LmsDevice.dfy` | the transceiver: 128 registers behind a bus that may fail, and status registers that report measurements |
| `Vcocap.dfy` | the tuning walks against an arbitrary and against an ideal device |
| `Retune.dfy` | register fields of a PLL, programming and reading back a frequency |
| `Loopback.dfy` | loopback modes as a sequence of register changes, and as a state machine together with retunes and band selection |
| `GainTables.dfy` | the RXVGA1 tables and the formula they are made from |
| `DcCal.dfy` | DC calibration with backup, retries at lower gains, and restore |
| `Crc16.dfy` | the checksum as a division of polynomials over GF(2) |
| `FlashField.dfy` | looking up a named record |
| `FpgaFlip.dfy` | the pin placement table and the expansion in the same buffer |
| `Logger.dfy` | the ring buffer as a queue, and runs of it |

Code that changes things in place is modelled by classes, arrays and methods with loops; each method is proved against a
specification function or predicate, and the lemmas are about those.

## How the device is modelled

`LmsDevice.Device` has a register file and a record of every bus access. Whether an access fails, and what a status
register reports, are arbitrary functions of everything done so far, so statements without further conditions hold
whatever the chip and the bus do. `Reliable` says that no access fails. `Vcocap.Ideal` adds that the VTUNE
comparators follow VCOCAP as long as the DSMs are on: HIGH up to h, LOW from l on, NORM strictly between, with
-1 <= h <= 61, 2 <= l <= 64 and l - h >= 2. `DcCal.Answers` adds instead that every DC search finishes if the module is
prepared for it, and that whether it stays at its starting value depends on the channel, that value and the RX gains.
Every operation on the device reports success only if none of its accesses failed (`Device.failures`). A failed write
leaves the register as it was. Writes with address bit 7 set go to the same register and are recorded as belonging to a
group; whether the FPGA supports that is a property of the device.

## Results that differ from what the code or its comments suggest

- `tune_vcocap` on an ideal device succeeds only if its first walk is at most 20 steps long; the exact condition is
  `FirstWalk(h, l, est) <= 20` in `Vcocap.TuneVcocap`, which limits it holds for whatever the estimate is said by
  `Vcocap.AlwaysShortIff`, and `Vcocap.EstimateTooFar` is a device on which tuning fails. The bound on register writes
  is 93.
- The fraction `nfrac` may be rounded up to 2^23, which its 23-bit field cannot hold. That happens exactly
  above 1.9 GHz for `freq % 19200000 == 19199999`, for instance at 1919999999 Hz, and the PLL is then programmed
  19199999 Hz too low (`Retune.ReadBack`, `Retune.CarryLostExample`).
- The padding mask in `CyU3PDmaBufferInit` marks the flags its comment describes exactly when the number of lines is a
  multiple of 16 (`DmaBuffer.PaddingMatchesCommentIff`). Every memory map in the source has a multiple of 32.
- The conversion of tuning parameters back to Hz is exact up to 950 MHz, and above exactly when `Tuning.Absorbed` holds
  (`Tuning.RoundTripExactIff`).
- Leaving loopback retunes both PLLs to the frequency they have. That keeps a frequency to within 1 Hz if a VCO can
  produce it (`Loopback.SameWithinRange`), but a PLL tuned 19.2 MHz too low may hold one that no VCO can
  (`Retune.CarryLeavesRange`).
- For an invalid module a retune writes its frequency select bits to the RX PLL and everything else to the TX PLL
  (`Retune.ProgrammedIff`).
- A memory request above 0xFFFFFFE4 bytes wraps around and gets a block that is too small (`InUseList.PoolCoversIff`).
- Freeing a pointer into the middle of a live DMA block cuts that block short (`LineMap.FreeAtInside`).
- An allocation can be refused although a window across the saved search word would hold it
  (`LineMap.WindowAcrossSavedWordIsMissed`).
- The field lookup compares beyond the end of a short record, and may stop there
  (`FlashField.FindsExpectedIff`, `FlashField.RunOnExample`).
- RXVGA2 is restored after DC calibration only up to 30 dB: the register is as before exactly when it held at most 10
  (`DcCal.Vga2RestoredIff`).
- The log's fill warning is still queued when entries are refused if and only if fewer reads than the log's capacity have
  followed it (`Logger.WarningQueuedIff`, `Logger.WarningMayBeGone`).

## Model

| member | source | states |
|---|---|---|
| LineMap.EveryRunIsSafe | lab5_cypressAN/UVC_APPLICATION/cyfxtx.c:852-1079 | after any run of allocations and frees of live blocks, the live blocks are pairwise disjoint, lie inside the heap from line 1 on, have at least two lines, and a flag is set exactly on the lines of live blocks other than each block's last |
| LineMap.StepKeepsInv | lab5_cypressAN/UVC_APPLICATION/cyfxtx.c:852-1079 | every allocation and every free of a live block keeps the heap invariant |
| LineMap.AllocKeepsInv | lab5_cypressAN/UVC_APPLICATION/cyfxtx.c:906-950 | allocating keeps the invariant although only n-1 of a block's n lines are marked, and never hands out a block that is already live |
| LineMap.WindowIsFree | lab5_cypressAN/UVC_APPLICATION/cyfxtx.c:918-924 | in a run of clear flags only the first can be a live block's unmarked last line, so skipping it is enough to stay clear of every live block |
| LineMap.WindowIsDisjoint | lab5_cypressAN/UVC_APPLICATION/cyfxtx.c:913-950 | the block placed one line into a window of n+1 clear flags overlaps no live block |
| LineMap.OnesAreTheBlocks | lab5_cypressAN/UVC_APPLICATION/cyfxtx.c:1053-1066 | counting ones from a live block's first line stops exactly at that block's own unmarked last line |
| LineMap.FreeKeepsInv | lab5_cypressAN/UVC_APPLICATION/cyfxtx.c:1048-1074 | freeing a live block keeps the invariant |
| LineMap.LiveSetDeterminesBits | lab5_cypressAN/UVC_APPLICATION/cyfxtx.c:852-1079 | two heaps with the same live blocks have the same bitmap, whatever the order of operations that led to them |
| LineMap.NothingLiveIsAllClear | lab5_cypressAN/UVC_APPLICATION/cyfxtx.c:1046-1074 | when every block has been freed the bitmap is all clear |
| LineMap.FreeUndoesAlloc | lab5_cypressAN/UVC_APPLICATION/cyfxtx.c:946-950 | a free clears exactly the flags the block's allocation set, whatever other operations happened in between, and restores the bitmap if everything else is as it was |
| LineMap.AllocFailsIff | lab5_cypressAN/UVC_APPLICATION/cyfxtx.c:900-944 | an allocation fails if and only if no window of n+1 clear flags lies wholly below or wholly at or above the saved search word |
| LineMap.AllocAfterFreeFailsIff | lab5_cypressAN/UVC_APPLICATION/cyfxtx.c:1070-1073 | after any free, an allocation fails if and only if no such window exists anywhere |
| LineMap.WindowAcrossSavedWordIsMissed | lab5_cypressAN/UVC_APPLICATION/cyfxtx.c:937-942 | the restriction to one side of the saved word is real: after a run of five operations from the empty heap a request is refused although a window across that word would fit |
| LineMap.FreeAtKeepsInv | lab5_cypressAN/UVC_APPLICATION/cyfxtx.c:1046-1074 | whatever line in range is freed, the bitmap afterwards still describes disjoint blocks |
| LineMap.FreeAtStart | lab5_cypressAN/UVC_APPLICATION/cyfxtx.c:1053-1068 | at the first line of a live block that frees the block |
| LineMap.FreeAtInside | lab5_cypressAN/UVC_APPLICATION/cyfxtx.c:1053-1068 | inside a live block it cuts the block short, with that line as its new end marker |
| LineMap.FreeAtClear | lab5_cypressAN/UVC_APPLICATION/cyfxtx.c:1053-1068 | at a line whose flag is clear only the saved search word changes |
| DmaBuffer.LinesCoverRequest | lab5_cypressAN/UVC_APPLICATION/cyfxtx.c:888-898 | the block is the smallest of at least two lines that covers the request, and with checks on its 20-byte header, its 4-byte footer and the request rounded up to words; the 16-bit line counter does not wrap |
| DmaBuffer.PaddingMatchesCommentIff | lab5_cypressAN/UVC_APPLICATION/cyfxtx.c:731-738 | the initial padding mask marks exactly the flags past the heap's end, as its comment says, if and only if the number of lines is a multiple of 16 |
| DmaBuffer.InitialStatus | lab5_cypressAN/UVC_APPLICATION/cyfxtx.c:719-738 | the initial bitmap has exactly the flags of the padding mask set |
| DmaBuffer.DmaBufferManager.Init | lab5_cypressAN/UVC_APPLICATION/cyfxtx.c:697-745 | an initialised manager is left alone; otherwise it becomes the empty heap if the pool has room for the bitmap, and stays uninitialised if not |
| DmaBuffer.DmaBufferManager.SetStatus | lab5_cypressAN/UVC_APPLICATION/cyfxtx.c:797-840 | sets or clears exactly the flags start .. start+n-1, for any n including 0 and any number of words, without leaving the array |
| DmaBuffer.WordUpdate | lab5_cypressAN/UVC_APPLICATION/cyfxtx.c:816-823 | or-ing or clearing a mask in one word sets or clears exactly the masked range of the bitmap |
| DmaBuffer.DmaBufferManager.FindRoom | lab5_cypressAN/UVC_APPLICATION/cyfxtx.c:900-944 | the bit-by-bit scan over the words, once round from the saved one, terminates and finds the first window at or above the saved word, or else the first one below it, or reports that there is neither |
| DmaBuffer.DmaBufferManager.Alloc | lab5_cypressAN/UVC_APPLICATION/cyfxtx.c:852-977 | carries out the abstract allocation; the pointer it returns designates the block's first line, so that freeing it frees that block, and the caller's bytes, with checks on together with 20 bytes before and 4 after them, lie inside the block; null if and only if there is no room or the heap is not initialised |
| DmaBuffer.DmaBufferManager.CountOnes | lab5_cypressAN/UVC_APPLICATION/cyfxtx.c:1053-1066 | the word-by-word loop counts the ones from a position up to the next zero or the end of the array |
| DmaBuffer.DmaBufferManager.Free | lab5_cypressAN/UVC_APPLICATION/cyfxtx.c:985-1079 | for any pointer in range clears the ones from its line on, which for the first line of a live block is freeing it, and keeps the heap invariant; for any other pointer returns -1 and changes nothing |
| DmaBuffer.DmaBufferManager.Release | lab5_cypressAN/UVC_APPLICATION/cyfxtx.c:1051-1073 | count, clear and reset of the search word together are the abstract free of a line |
| InUseList.InUseIsLive | lab5_cypressAN/UVC_APPLICATION/cyfxtx.c:333-413 | over any history and any order of frees, the list holds exactly the blocks allocated and not yet freed, once each, newest first, and its length is allocations minus frees |
| InUseList.MemHeap.Alloc | lab5_cypressAN/UVC_APPLICATION/cyfxtx.c:303-361 | puts the new block at the head of the doubly linked list, numbers it with the allocation counter, stamps both signatures, and leaves everything alone if the pool refuses |
| InUseList.PoolCoversIff | lab5_cypressAN/UVC_APPLICATION/cyfxtx.c:314-321 | the bytes taken from the pool are the fewest whole words for the request, a 20-byte header and a 4-byte footer if and only if the request is at most 0xFFFFFFE4 bytes; above that the 32-bit sum wraps around and the block is too small |
| InUseList.MemHeap.Free | lab5_cypressAN/UVC_APPLICATION/cyfxtx.c:368-413 | takes the block out of the list wherever it is, keeps prev and next inverse to each other, counts the free, and reports a broken signature; a pointer below the heap is ignored |
| InUseList.MemHeap.Unlink | lab5_cypressAN/UVC_APPLICATION/cyfxtx.c:398-406 | rewriting the neighbours' pointers and the head removes exactly the one element |
| InUseList.MemHeap.CorruptionCheck | lab5_cypressAN/UVC_APPLICATION/cyfxtx.c:463-494 | the walk terminates, succeeds if and only if every block in use is in range with both signatures intact, and otherwise stops at the newest bad block, which it reports if its address is in range |
| MemCopy.Copy | lab5_cypressAN/UVC_APPLICATION/cyfxtx.c:551-619 | for every count and every overlap, the destination ends up with the original source bytes and nothing else changes |
| MemCopy.CopyDown | lab5_cypressAN/UVC_APPLICATION/cyfxtx.c:561-589 | the downward loops, eight bytes at a time and then singly, copy the original bytes when the destination is above the source |
| MemCopy.CopyUp | lab5_cypressAN/UVC_APPLICATION/cyfxtx.c:590-618 | so do the upward loops when it is not |
| Tuning.RowFor | lab5_bladeRF_code/fpga_common/src/lms.c:2231-2247 | for every frequency in range the search over the band table finds a row that contains it, so the failure branch is never taken |
| Tuning.VcoInRange | lab5_bladeRF_code/fpga_common/src/lms.c:190-211 | divider times frequency lies in the range of the VCO the row selects, dividers 16 and 8 serve exactly the frequencies up to 950 MHz, and divider 2 exactly those above 1.9 GHz |
| Tuning.FieldsInRange | lab5_bladeRF_code/fpga_common/src/lms.c:2252-2268 | 98 <= nint <= 197 and nfrac <= 2^23, with 2^23 reached if and only if the clamped frequency is above 1.9 GHz and leaves 19199999 modulo 19200000 |
| Tuning.CalculateTuningParams | lab5_bladeRF_code/fpga_common/src/lms.c:2212-2279 | the table scan and C integer arithmetic compute the specified parameters and the VCOCAP estimate of the row found, and never fail |
| Tuning.EstimateVcocap | lab5_bladeRF_code/fpga_common/src/lms.c:342-360 | the estimate is the whole number nearest to the line from 15 at the low end of the row to 55 at its high end |
| Tuning.HintIsNearest | lab5_bladeRF_code/fpga_common/src/lms.c:2244-2250 | for every frequency the estimate is the whole number nearest to the line from 15 at the low end to 55 at the high end of the range of the VCO selected |
| Tuning.HintInOrder | lab5_bladeRF_code/fpga_common/src/lms.c:345-350 | within the range of one VCO and divider a higher frequency never gets a lower estimate |
| Tuning.NearestAtEnds | lab5_bladeRF_code/fpga_common/src/lms.c:345-350 | at the ends of the range the estimate is exactly 15 and exactly 55 |
| Tuning.FrequencyToHz | lab5_bladeRF_code/fpga_common/src/lms.c:1661-1670 | computed in 32- and 64-bit arithmetic without overflow, the conversion to Hz is the rounded quotient |
| Tuning.ParamsFit | lab5_bladeRF_code/fpga_common/src/lms.c:1661-1670 | the parameters of every frequency meet its bounds |
| Tuning.FieldsFit | lab5_bladeRF_code/fpga_common/src/lms.c:1661-1670 | so does whatever the register fields of a PLL hold |
| Tuning.ToHzIsClosest | lab5_bladeRF_code/fpga_common/src/lms.c:1661-1670 | the conversion gives the whole number of Hz closest to the frequency the parameters stand for |
| Tuning.RoundTrip | lab5_bladeRF_code/fpga_common/src/lms.c:1661-1670 | converting a frequency to parameters and back is exact up to 950 MHz and within 1 Hz above |
| Tuning.RoundTripExactIff | lab5_bladeRF_code/fpga_common/src/lms.c:1661-1670 | it is exact if and only if the frequency is at most 950 MHz or the rounding of the fraction is less than half a Hz at the output |
| Tuning.RoundTripCanMiss | lab5_bladeRF_code/fpga_common/src/lms.c:2252-2261 | the 1 Hz is really lost at some frequency above 950 MHz |
| RetunePacket.Pack | lab5_bladeRF_code/fpga_common/include/nios_pkt_retune.h:125-181 | the byte-by-byte packing writes the specified sixteen bytes |
| RetunePacket.Unpack | lab5_bladeRF_code/fpga_common/include/nios_pkt_retune.h:184-223 | the unpacking reads the specified fields from any sixteen bytes |
| RetunePacket.DecodeEncode | lab5_bladeRF_code/fpga_common/include/nios_pkt_retune.h:125-223 | what every request of the C parameter types comes back as, including how oversized fields leak into the flag bits next to them |
| RetunePacket.SurvivesIff | lab5_bladeRF_code/fpga_common/include/nios_pkt_retune.h:125-223 | a request survives packing and unpacking if and only if each of its tuning fields fits the packet's width for it |
| RetunePacket.PacketSurvivesIff | lab5_bladeRF_code/fpga_common/include/nios_pkt_retune.h:125-223 | sixteen bytes survive unpacking and packing if and only if they are a packet: the magic byte, a zero last byte, and not both module flags |
| LmsDevice.SetReg | lab5_bladeRF_code/fpga_common/include/lms.h:180-193 | sets exactly the masked bits of one register, or changes nothing if the bus fails |
| LmsDevice.ClearReg | lab5_bladeRF_code/fpga_common/include/lms.h:204-217 | clears exactly the masked bits of one register, or changes nothing if the bus fails |
| Vcocap.WriteVcocap | lab5_bladeRF_code/fpga_common/src/lms.c:1786-1801 | writes the six VCOCAP bits and keeps the saved upper bits |
| Vcocap.VtuneHighToNorm | lab5_bladeRF_code/fpga_common/src/lms.c:1829-1867 | at most 20 writes; on any device, success with a limit below 63 means that NORM was read last, one value above it, and 63 means that the walk started at 63 or that 63 did not read NORM, so a limit found is never 63; on an ideal device it finds the last HIGH value if and only if that is at most 20 steps away |
| Vcocap.VtuneNormToHigh | lab5_bladeRF_code/fpga_common/src/lms.c:1869-1906 | at most 20 writes; on any device, success means that HIGH was read last at the limit, or that the walk ran out at 0; whatever it finds is below 63, so 63 still means not found; on an ideal device it finds the first HIGH value below, or 0 |
| Vcocap.VtuneLowToNorm | lab5_bladeRF_code/fpga_common/src/lms.c:1908-1946 | at most 20 writes; on any device, success with a limit above 0 means that NORM was read last, one value below it, and 0 means that the walk ran out; on an ideal device it finds the lowest LOW value if and only if that is at most 20 steps away |
| Vcocap.WaitForVtuneValue | lab5_bladeRF_code/fpga_common/src/lms.c:1949-2009 | walks only after 15 readings in a row were not the value waited for; stops after at most as many writes as there are values up to the end of the range; on an ideal device it ends in the requested region, or at the end of the range |
| Vcocap.FindFirstLimit | lab5_bladeRF_code/fpga_common/src/lms.c:2046-2073 | which limit the first walk determines, and what the comparators read there on any device; from HIGH as from NORM, a HIGH limit that was found is never the value that stands for not found |
| Vcocap.FindLowLimit | lab5_bladeRF_code/fpga_common/src/lms.c:2073-2109 | starts by writing the value 12 above the HIGH limit, or 63; from a known HIGH limit, an ideal device leads to min(l, 63) |
| Vcocap.FindHighLimit | lab5_bladeRF_code/fpga_common/src/lms.c:2110-2147 | starts by writing the value 12 below the LOW limit, or 0; from a known LOW limit, an ideal device leads to max(h, 0) |
| Vcocap.TuneVcocap | lab5_bladeRF_code/fpga_common/src/lms.c:2031-2185 | against any device: nothing but readings of the comparators and at most 93 writes of VCOCAP with its upper bits kept, and success only with NORM read last at the reported value, never when the comparators first read the reserved value, and when they first read HIGH only if NORM was read within the first 20 writes; on an ideal device it succeeds if and only if the first walk is at most 20 steps, and then leaves the midpoint of max(h, 0) and min(l, 63), which reads NORM |
| Vcocap.MiddleIsNorm | lab5_bladeRF_code/fpga_common/src/lms.c:2149-2150 | the midpoint of the limits of an ideal device lies in its NORM region |
| Vcocap.AlwaysShortIff | lab5_bladeRF_code/fpga_common/src/lms.c:2031-2073 | on an ideal device the first walk is at most 20 steps for every estimate from 15 to 55 if and only if h is at most 34, l at least 36, and no estimate in the NORM region is more than 20 above h |
| Vcocap.EstimateTooFar | lab5_bladeRF_code/fpga_common/src/lms.c:2046-2073 | otherwise tuning can fail: there is a device with h = 61 and l = 64 on which it does from the estimate 15 |
| Retune.WritePllConfig | lab5_bladeRF_code/fpga_common/src/lms.c:362-396 | the output buffer follows the band only while loopback is off; while it is on, only the frequency select bits change; the register is 0x15 for TX and 0x25 for anything else |
| Retune.SetPrecalculatedFrequency | lab5_bladeRF_code/fpga_common/src/lms.c:2282-2380 | on success the registers written hold the parameters cut to the fields' widths and the VCOCAP chosen, which are the module's PLL if and only if the module is valid or the bits were right before; nothing but those registers and the DSM enables changes, their other bits are kept, and on a bus without failures the DSMs are off again even if tuning failed; the PLL is programmed and tuned between a write that turns both DSMs on and one that turns them off, in the order VCOCAP hint, frequency select, integer and fractional parts, tuning, the parts as one group if the FPGA can do that; with comparators that follow VCOCAP only while the DSMs are on it succeeds if and only if the first walk is at most 20 steps |
| Retune.ProgrammedIff | lab5_bladeRF_code/fpga_common/src/lms.c:2282-2380 | for an invalid module the fields and the frequency select bits go to different PLLs, so its PLL ends up programmed if and only if its bits were right already |
| Retune.InvalidModuleExample | lab5_bladeRF_code/fpga_common/src/lms.c:2286-2335 | from cleared registers they are not |
| Retune.GetFrequency | lab5_bladeRF_code/fpga_common/src/lms.c:1692-1744 | reads back the PLL's fields, and the divider as far as the shift that computes it is defined |
| Retune.GetQuickTune | lab5_bladeRF_code/fpga_common/src/lms.c:1748-1768 | captures the PLL's fields, to be used without tuning, with the band flag of the frequency they stand for |
| Retune.QuickTuneRestores | lab5_bladeRF_code/fpga_common/src/lms.c:1748-1768 | programming captured fields restores every one of them |
| Retune.SetFrequency | lab5_bladeRF_code/fpga_common/include/lms.h:641-647 | leaves the registers with the frequency's parameters and, while loopback is off, the output buffer of its band; loopback mode and, while loopback is on, both output buffers are untouched; the DSMs are on while the PLL is programmed; on an ideal device it succeeds if and only if the first walk from the estimate is at most 20 steps |
| Retune.ReadBack | lab5_bladeRF_code/fpga_common/src/lms.c:2337-2359 | the frequency the registers stand for is the requested one, exactly up to 950 MHz and within 1 Hz above, unless the fraction rounds up to 2^23: then the PLL is 19199999 Hz too low |
| Retune.FrequencyKept | lab5_bladeRF_code/fpga_common/src/lms.c:1356-1364 | setting a PLL to the frequency its fields stand for keeps that frequency to within 1 Hz if a VCO can produce it; the fraction is not lost |
| Retune.CarryLostExample | lab5_bladeRF_code/fpga_common/src/lms.c:2343-2356 | 1919999999 Hz is such a frequency |
| Retune.CarryLeavesRange | lab5_bladeRF_code/fpga_common/src/lms.c:2343-2356 | at 1900799999 Hz the PLL is left with a frequency that no VCO produces |
| Retune.ParamsSurviveIff | lab5_bladeRF_code/fpga_common/include/nios_pkt_retune.h:125-223 | a frequency's parameters survive the retune packet, and the register fields, if and only if the fraction does not round up to 2^23 |
| Retune.RetuneGuards | lab5_bladeRF_code/fpga_common/src/lms.c:2282-2380 | a retune changes neither PA nor LNA registers nor the loopback mode, and no output buffer while loopback is on |
| Retune.GetLoopbackMode | lab5_bladeRF_code/fpga_common/src/lms.c:1515-1575 | decodes the mode from registers 0x08 and 0x46 |
| Retune.IsLoopbackEnabled | lab5_bladeRF_code/fpga_common/src/lms.c:316-327 | positive if and only if the mode read back is not NONE |
| Loopback.SelectPa | lab5_bladeRF_code/fpga_common/src/lms.c:907-946 | leaves exactly the PA asked for enabled and keeps all other bits and registers |
| Loopback.SelectLna | lab5_bladeRF_code/fpga_common/src/lms.c:757-770 | leaves exactly the LNA asked for selected and keeps all other bits, the gain among them, and registers |
| Loopback.PaSelected | lab5_bladeRF_code/fpga_common/src/lms.c:907-946 | the register value for a PA has that PA's bits and keeps all others |
| Loopback.SelectBand | lab5_bladeRF_code/fpga_common/src/lms.c:2187-2209 | selects PA or LNA for the band while loopback is off, and changes nothing while it is on |
| Loopback.Rxvga1Enable | lab5_bladeRF_code/fpga_common/src/lms.c:794-813 | switches the one bit of RXVGA1 and no other |
| Loopback.Rxvga2Enable | lab5_bladeRF_code/fpga_common/src/lms.c:852-871 | switches the one bit of RXVGA2 and no other |
| Loopback.EnableRfLoopbackSwitch | lab5_bladeRF_code/fpga_common/src/lms.c:1133-1150 | switches the one bit of the RF loopback switch and no other |
| Loopback.EnableLnaPower | lab5_bladeRF_code/fpga_common/src/lms.c:1093-1130 | switches both LNA power bits and no other |
| Loopback.RxLpfGetMode | lab5_bladeRF_code/fpga_common/src/lms.c:487-521 | reports the filter's mode, or an error if it is both enabled and bypassed |
| Loopback.RxLpfSetMode | lab5_bladeRF_code/fpga_common/src/lms.c:525-570 | leaves the filter in the mode asked for and all other bits, the bandwidth among them, and registers alone |
| Loopback.RxBlocks | lab5_bladeRF_code/fpga_common/src/lms.c:1217-1354 | leaves the RX blocks as the mode needs them: what the loopback signal replaces is off, what follows it is on, and no other bits change |
| Loopback.PathReadsBack | lab5_bladeRF_code/fpga_common/src/lms.c:1400-1444 | reading the mode back undoes setting it, whatever the other bits of the two registers are, and the bits written are those that connect the mode's path |
| Loopback.LoopbackPath | lab5_bladeRF_code/fpga_common/src/lms.c:1385-1452 | connects the path of a mode, by the bits of registers 0x08 and 0x46 that stand for it, so that the mode reads back, and keeps all other bits; an invalid mode changes nothing |
| Loopback.Restore | lab5_bladeRF_code/fpga_common/src/lms.c:1356-1371 | retunes a PLL to the frequency it has: its output buffer and the PA or LNA are those of the band, and its frequency is the nearest valid one to within 1 Hz, or 19199999 Hz below it where the fraction rounds up to 2^23; on an ideal device it succeeds if and only if VCOCAP can be tuned for that frequency |
| Loopback.SameWithinRange | lab5_bladeRF_code/fpga_common/src/lms.c:1356-1364 | if a VCO could produce the PLL's frequency, it is within 1 Hz of what it was |
| Loopback.LoopbackRx | lab5_bladeRF_code/fpga_common/src/lms.c:1205-1380 | connects the RX side: RX blocks, LNA and RX PLL buffer for an RF loopback; for NONE it restores LNA, output buffer and frequency of the RX PLL; the TX side is untouched; on a bus without failures it fails only if the filter is both enabled and bypassed or, for NONE, the RX PLL cannot be retuned |
| Loopback.LoopbackTx | lab5_bladeRF_code/fpga_common/src/lms.c:1156-1200 | the auxiliary PA for an RF loopback; for NONE it restores PA, output buffer and frequency of the TX PLL; the RX side is untouched; on a bus without failures it fails only if, for NONE, the TX PLL cannot be retuned |
| Loopback.SetLoopbackMode | lab5_bladeRF_code/fpga_common/src/lms.c:1456-1512 | success means the mode reads back, its path is connected, the LNA and RX PLL buffer of an RF loopback are those of the path in register 0x08, and RX blocks, PA, LNA, output buffers and, for NONE, both frequencies are as they should be; on a bus without failures a loopback mode is set if and only if the RX filter was not both enabled and bypassed, leaving loopback on an ideal device moreover needs VCOCAP tuning to succeed for both PLLs, and any failure leaves loopback off, and one to set a loopback mode leaves PA and LNA deselected and the RX blocks as they were; in every case only the bits that are the mode's to change do change, and an invalid mode changes nothing |
| Loopback.PllsKept | lab5_bladeRF_code/fpga_common/src/lms.c:1456-1512 | entering a loopback mode leaves both PLLs' fields alone, and their output buffers but for the RX buffer of an RF loopback |
| Loopback.RetuneIsStep | lab5_bladeRF_code/fpga_common/src/lms.c:2282-2380 | a retune, successful or not and whatever its fields, is a step that keeps the mode and, while loopback is on, changes nothing but the PLL's frequency |
| Loopback.ModeIsLastSet | lab5_bladeRF_code/fpga_common/src/lms.c:1456-1575 | over any run of mode changes, retunes and band selections the mode read back is the one last set, NONE if setting it failed part way |
| Loopback.GuardedWhileOn | lab5_bladeRF_code/fpga_common/src/lms.c:362-396 | over any run without a mode change, while loopback is on nothing but the PLLs' frequencies changes: not the PA, the LNA, the RX blocks or the output buffers |
| Loopback.StaysEstablished | lab5_bladeRF_code/fpga_common/src/lms.c:1456-1512 | so everything a mode was established with, the path, the LNA and the buffer included, is still in place whenever the mode is next changed |
| Loopback.NextModeSucceeds | lab5_bladeRF_code/fpga_common/src/lms.c:1456-1512 | on a bus without failures, setting another loopback mode after a successful one succeeds, whatever retunes and band selections happen in between |
| GainTables.TablesInverse | lab5_bladeRF_code/fpga_common/src/lms.c:222-237 | on 5 .. 30 dB the two RXVGA1 tables undo each other |
| GainTables.Code2ValIsNearest | lab5_bladeRF_code/fpga_common/src/lms.c:214-230 | for each of the 121 codes the table holds the whole number of dB nearest to 5 + 20 log10(127 / (127 - code)), as the comment promises |
| GainTables.Val2CodeIsNearest | lab5_bladeRF_code/fpga_common/src/lms.c:232-237 | for each gain from 6 to 30 dB the table holds the code nearest to the one at which that formula gives the gain |
| DcCal.Vga2RestoredIff | lab5_bladeRF_code/fpga_common/src/lms.c:875-903 | a saved RXVGA2 reading restores the register if and only if it held at most 10, that is a gain of at most 30 dB |
| DcCal.LnaSetGain | lab5_bladeRF_code/fpga_common/src/lms.c:712-731 | replaces the top two bits of 0x75 by a valid gain; an invalid one changes nothing |
| DcCal.LnaGetGain | lab5_bladeRF_code/fpga_common/src/lms.c:736-752 | reads the top two bits of 0x75; zero is an error |
| DcCal.Rxvga1SetGain | lab5_bladeRF_code/fpga_common/src/lms.c:816-828 | the gain read back afterwards is the gain asked for, clamped to 5 .. 30; up to 5 dB the code is 2 |
| DcCal.Rxvga1GetGain | lab5_bladeRF_code/fpga_common/src/lms.c:832-848 | reports the gain of the code in the lower seven bits, cut to 120 |
| DcCal.Rxvga2SetGain | lab5_bladeRF_code/fpga_common/src/lms.c:875-888 | the register holds the gain asked for, clamped to 0 .. 30, in steps of 3 dB |
| DcCal.Rxvga2GetGain | lab5_bladeRF_code/fpga_common/src/lms.c:891-904 | reports three times the register's value, in a byte |
| DcCal.Launch | lab5_bladeRF_code/fpga_common/src/lms.c:2416-2460 | selects the submodule, then loads DC_CNTVAL and starts the search, each by raising and lowering its strobe without disturbing the address; the other bits of the control register are kept |
| DcCal.Poll | lab5_bladeRF_code/fpga_common/src/lms.c:2462-2489 | success means the status last read said done and the result is the DC_REGVAL read right after; not converging means 25 statuses in a row said otherwise |
| DcCal.DcCalLoop | lab5_bladeRF_code/fpga_common/src/lms.c:2405-2490 | both together, in at most 33 bus accesses |
| DcCal.Backup | lab5_bladeRF_code/fpga_common/src/lms.c:2494-2530 | what is saved is what the registers hold; on a bus without failures it is refused exactly when the LNA gain field of an RX calibration is invalid |
| DcCal.ModuleInit | lab5_bladeRF_code/fpga_common/src/lms.c:2534-2652 | on success the module's clock runs, its comparators are powered up and for TX the DAC is off, and for RX the LNA is disconnected and all gains are at their maximum; the bits that will not be restored are unaffected |
| DcCal.SetStage | lab5_bladeRF_code/fpga_common/src/lms.c:2674-2738 | each RXVGA2 submodule runs with its own stage gains, given that the submodules run in increasing order |
| DcCal.Search | lab5_bladeRF_code/fpga_common/src/lms.c:2740-2756 | the search is repeated from 0 if it never left 31, and a result counts as good if and only if it differs from the DC_CNTVAL it started from; if every search finishes once the module is prepared, it is good if and only if not both searches stay where they start |
| DcCal.Submodule | lab5_bladeRF_code/fpga_common/src/lms.c:2663-2788 | one submodule is calibrated, converged means a good result, and LPF tuning hands that result to both low-pass filters |
| DcCal.Module | lab5_bladeRF_code/fpga_common/src/lms.c:2949-2964 | converged means every channel of the module, 0x00:0 for LPF tuning, 0x30:0-1 for TX, 0x50:0-1 for RX, 0x60:0-4 for RXVGA2, was calibrated during this attempt; if every search finishes once the module is prepared, an attempt converges if and only if all channels do at the present gains |
| DcCal.RetryAdjustment | lab5_bladeRF_code/fpga_common/src/lms.c:2792-2843 | lowers exactly one gain by one step, RXVGA1 before RXVGA2, with the gain read back following, or reports the limit and changes nothing |
| DcCal.Attempts | lab5_bladeRF_code/fpga_common/src/lms.c:2984-2993 | the attempts end, each gain that can still be lowered allowing one more of at most 366 bus accesses; without convergence and without error only when no gain is left to lower and the last search stayed where it started; if every search finishes once the module is prepared, they converge if and only if all channels do at one of the gains down to the lowest |
| DcCal.ModuleDeinit | lab5_bladeRF_code/fpga_common/src/lms.c:2847-2906 | on success comparators, DAC and stage gains are in their resting state |
| DcCal.Restore | lab5_bladeRF_code/fpga_common/src/lms.c:2910-2945 | success means that clocks, LNA switch and LNA gain are back bit for bit, the RXVGA1 gain as read, and the RXVGA2 gain as read and clamped |
| DcCal.CalibrateDc | lab5_bladeRF_code/fpga_common/src/lms.c:2968-3009 | terminates within 13202 bus accesses; if it succeeds, or the bus never fails, what was saved is restored and the module is at rest whether or not it converged; success means every channel of the module, given by address and number, was calibrated; on a bus without failures an unexpected error means that 25 statuses in a row did not say done, or that a search stayed where it started at the lowest gains; if every search finishes once clock, comparators, DAC, LNA and stages are set for it, it succeeds if and only if all channels converge at one of the gains from the highest to the lowest; nothing else changes, the control register's other bits included, and an invalid LNA gain changes nothing at all |
| DcCal.NeverStickingSucceeds | lab5_bladeRF_code/fpga_common/src/lms.c:2740-2756 | so it succeeds if every search of a prepared module finishes and no result is 31, whatever else the chip answers |
| Crc16.Crc16mp | lab5_bladeRF_code/fx3_firmware/flash.c:147-162 | the nested loops compute the checksum of the first count bytes, continued from the given value |
| Crc16.CrcIsRemainder | lab5_bladeRF_code/fx3_firmware/flash.c:147-162 | the checksum continued from any value is the remainder, modulo x^16 + x^12 + x^5 + 1, of that value ahead of the message times x^16 |
| Crc16.CrcOfMessage | lab5_bladeRF_code/fx3_firmware/flash.c:147-162 | started at 0 it is the remainder of the message times x^16 |
| Crc16.RemainderIsUnique | lab5_bladeRF_code/fx3_firmware/flash.c:157-158 | a dividend has only one remainder of degree below 16, so the two statements above determine the checksum |
| Crc16.CrcOfParts | lab5_bladeRF_code/fx3_firmware/flash.c:148-150 | a message may be processed in parts, as the comment promises |
| Crc16.CrcOfXor | lab5_bladeRF_code/fx3_firmware/flash.c:147-162 | the checksum is linear under exclusive or |
| Crc16.ChecksOutIff | lab5_bladeRF_code/fx3_firmware/flash.c:147-162 | a message followed by two bytes has checksum 0 if and only if they are its own checksum, high byte first |
| Crc16.BurstIsDetected | lab5_bladeRF_code/fx3_firmware/flash.c:147-162 | messages that differ only within 16 consecutive bits have different checksums |
| FlashField.Strncmp | lab5_bladeRF_code/fx3_firmware/flash.c:185-185 | the comparison finds the name exactly when all its bytes match |
| FlashField.Strncpy | lab5_bladeRF_code/fx3_firmware/flash.c:187-187 | copies up to the first zero byte, fills with zeros, and touches nothing beyond the given length |
| FlashField.ExtractField | lab5_bladeRF_code/fx3_firmware/flash.c:164-197 | terminates on any memory contents; returns the bytes after the first match, cut to the length computed and terminated by a zero, or reports that there is none and leaves the buffer alone |
| FlashField.FindsExpectedIff | lab5_bladeRF_code/fx3_firmware/flash.c:175-196 | on a list of records the lookup finds the first record with the name if and only if no earlier record that is shorter than the name runs on into it |
| FlashField.FindsExpected | lab5_bladeRF_code/fx3_firmware/flash.c:175-196 | it does if no payload is a proper beginning of the name |
| FlashField.ValueOfRecord | lab5_bladeRF_code/fx3_firmware/flash.c:186-188 | the value is the rest of that record's payload, cut to maxlen |
| FlashField.RunOnExample | lab5_bladeRF_code/fx3_firmware/flash.c:185-188 | a short record whose checksum bytes complete the name is taken for the field, and maxlen bytes are copied |
| FpgaFlip.FpgaConfigSwInit | lab5_bladeRF_code/fx3_firmware/fpga.c:65-83 | the loop fills the table with the placement of each byte |
| FpgaFlip.FlippedPins | lab5_bladeRF_code/fx3_firmware/fpga.c:73-80 | each bit of a byte appears on its pin, and the other pins are 0 |
| FpgaFlip.FlippedBack | lab5_bladeRF_code/fx3_firmware/fpga.c:73-80 | the pins are distinct, so a byte can be read back from its word |
| FpgaFlip.Expand | lab5_bladeRF_code/fx3_firmware/fpga.c:93-101 | the backwards loop in the same buffer gives word i = table[original byte i] for every count, because no byte is overwritten before it is read |
| FpgaFlip.OriginalsRecoverable | lab5_bladeRF_code/fx3_firmware/fpga.c:338-344 | all original bytes can be recovered from the expanded buffer |
| Logger.UnpackPack | lab5_bladeRF_code/firmware_common/logger_entry.h:54-72 | unpacking recovers every field up to its mask |
| Logger.PackUnpack | lab5_bladeRF_code/firmware_common/logger_entry.h:54-72 | packing recovers every 32-bit word from its fields |
| Logger.AmbiguousIff | lab5_bladeRF_code/firmware_common/logger_entry.h:51-52 | an entry equals the end-of-log mark if and only if all its masked fields are zero, and the error mark if and only if they are all ones |
| Logger.WarningIsAnEntry | lab5_bladeRF_code/fx3_firmware/logger.c:98-109 | the fill warning unpacks to file 5, line 105 and no data, and is neither the end-of-log mark nor the error mark |
| Logger.Log.Init | lab5_bladeRF_code/fx3_firmware/logger.c:66-75 | empties the log |
| Logger.Log.Record | lab5_bladeRF_code/fx3_firmware/logger.c:77-113 | appends the entry, and the fill warning after it when that takes the last two places; refuses if and only if the log is full |
| Logger.Log.Read | lab5_bladeRF_code/fx3_firmware/logger.c:115-137 | takes the oldest entry, or reports the end of an empty log and changes nothing |
| Logger.Conserved | lab5_bladeRF_code/fx3_firmware/logger.c:77-137 | over any run, what was read followed by what is still queued is everything accepted and every warning, in order |
| Logger.NeverOverfull | lab5_bladeRF_code/fx3_firmware/logger.c:89-108 | the log never holds more than its capacity |
| Logger.WarnedWhenAlmostFull | lab5_bladeRF_code/fx3_firmware/logger.c:95-108 | whenever fewer than two places are free, a fill warning was queued when two were free last |
| Logger.RefusedOnlyAfterWarning | lab5_bladeRF_code/fx3_firmware/logger.c:89-98 | an entry is refused only when the log is full, and then only after such a warning |
| Logger.WarningQueuedIff | lab5_bladeRF_code/fx3_firmware/logger.c:95-137 | that warning is still in the log, at a known place, if and only if fewer reads than the capacity have followed it; otherwise it is among the entries read |
| Logger.WarningMayBeGone | lab5_bladeRF_code/fx3_firmware/logger.c:95-108 | a run in which an entry is refused after the warning has been read |

## Left out

- Mutexes and interrupt context in the allocators: every lock is taken to be acquired.
- The ThreadX byte pool: whether it grants a request, and at which address, are parameters of `InUseList.MemHeap.Alloc` and `DmaBuffer.DmaBufferManager.Init`.
- InUseList.MemHeap.Free: a pointer that is not below the heap must designate a block in the list; freeing a block twice, and what a corrupted header's size field would make the source read, are not modelled.
- The in-use list kept inside DMA buffers is the same code as the one in `InUseList` and is not repeated; DMA blocks carry their header and footer only as 24 extra bytes and an offset of 20.
- DmaBuffer.DmaBufferManager.constructor: the heap is a multiple of 32 cache lines, as in every memory map the source defines; other heaps are covered only by the statement about the padding mask.
- `CyU3PDmaBufferDeInit`, `CyU3PFreeHeaps`, `CyU3PMemSet`, `CyU3PMemCmp`, the counters' getters and the switches that enable checks: easy members.
- Tuning.CalculateTuningParams: stores the VCOCAP estimate of `Tuning.EstimateVcocap`, so its C `float` rounding is not modelled either.
- Tuning.EstimateVcocap: computed in exact reals; the rounding of C's `float` is not modelled. Tuning itself is proved for every estimate.
- Retune.GetFrequency: where the frequency select bits are below 3 the C code shifts by a negative amount, which is undefined; the divider is taken to be 0 there.
- Retune.GetQuickTune: requires frequency select bits of at least 3, since the C code divides by the divider; so does leaving loopback, for both PLLs (`Retune.Tuned`), but no other mode.
- Tuning.FrequencyToHz: requires that the 64-bit numerator does not wrap around, which holds for the parameters of every frequency and for all register fields, and a divider that is not 0.
- Branches behind `assert(!"...")` return the error code that follows, as they do in a build without assertions.
- Busy waits and log messages in `lms.c`; bandwidth, sampling, charge pump, peak detector and power functions; DC offset registers and the saved calibration values: easy members.
- Loopback.Restore: requires a divider that is not 0, since the C code divides by it.
- Loopback.SetLoopbackMode: leaving loopback requires frequency select bits of at least 3 in both PLLs, as above; which failure code a failing bus produces is not stated; invalid modes are represented by `FIRMWARE`, the one loopback constant the LMS driver does not handle.
- The response to a retune packet and the fixed-layout register packets: easy members.
- The one-bit shifts of a signed 1 in C (`1 << 31`) are taken to give the unsigned bit, as on the target.
- Fields that do not overlap are added where the C code uses `|` in constant tables and decoders; where a program combines them at run time the model uses `Or` and proves that it is the sum.
- FlashField.ExtractField: memory is a total function, so reading behind the buffer yields whatever is there; the checksum comparison, which the source disables, is left out; the output buffer must have room for maxlen bytes and a terminator.
- The host's writer of flash fields and its stricter reader are not part of this model.
- FpgaFlip.Expand: the DMA channel calls around the loop are left out.
- Logger.Log.Init: creating the mutex cannot fail here, so it has no result.
- USB, SPI, GPIF, UART and GPIO code, descriptors, register scripts, the Altera board files and the other labs: hardware access, generated code and user interface.
