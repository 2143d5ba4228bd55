/** The FX3 DMA buffer allocator: a bitmap of 32-bit words, searched and updated in place, proved to carry out the
    steps of LineMap.Heap. Mutexes are taken to be acquired; the thread library is not part of this model. */
module DmaBuffer {
  import opened BitOps
  import opened LineMap
  import opened Wrappers
  import InUseList

  type Word = w: nat | w < 0x1_0000_0000

  const LINE_SIZE := 32

  // Cache lines needed for a request; with leak checks on, a header and a footer are added first.
  function BlockBytes(size: nat, checks: bool): nat {
    if checks then AndNot(size + 3, 3) + InUseList.HEADER_SIZE + InUseList.FOOTER_SIZE else size
  }

  function LinesFor(size: nat, checks: bool): (lines: nat)
    ensures lines >= 2
  {
    var bytes := BlockBytes(size, checks);
    if bytes <= LINE_SIZE then 2 else (bytes + LINE_SIZE - 1) / LINE_SIZE
  }

  lemma RoundUp4(size: nat)
    ensures AndNot(size + 3, 3) == (size + 3) / 4 * 4
  {
    AndNotLower(size + 3, 2);
    ShlConstants(0);
    ShiftsAreDivisions(size + 3);
  }

  // The block is the smallest of at least two lines that covers the request, and with checks on its 20-byte header and
  // 4-byte footer around the request rounded up to words; and the 16-bit line counter does not wrap.
  lemma LinesCoverRequest(size: nat, checks: bool)
    requires size <= 0xFFFF
    ensures var lines := LinesFor(size, checks);
            var bytes := if checks then (size + 3) / 4 * 4 + 24 else size;
            && lines >= 2 && 32 * lines >= bytes && (lines > 2 ==> 32 * (lines - 1) < bytes)
            && lines + 1 <= 0xFFFF
  {
    RoundUp4(size);
  }

  // ---- The bitmap words ----

  function Flags(words: seq<Word>): (bits: Bitmap)
    ensures |bits| == 32 * |words|
  {
    seq(32 * |words|, p requires 0 <= p < 32 * |words| => Bit(words[p / 32], p % 32))
  }

  lemma WordUpdate(words: seq<Word>, w: nat, s: nat, e: nat, value: bool, updated: Word)
    requires w < |words| && s <= e <= 32
    requires Pow2(s) <= Pow2(e)
    requires updated == if value then Or(words[w], Pow2(e) - Pow2(s)) else AndNot(words[w], Pow2(e) - Pow2(s))
    ensures Flags(words[w := updated]) == SetRange(Flags(words), 32 * w + s, e - s, value)
  {
    hide Bit, And, Or, AndNot, Pow2;
    forall i | 0 <= i < 32
      ensures Bit(updated, i) == if s <= i < e then value else Bit(words[w], i)
    {
      FieldMaskBit(s, e, i);
      OrBit(words[w], Pow2(e) - Pow2(s), i);
      AndNotBit(words[w], Pow2(e) - Pow2(s), i);
    }
    var before, after := Flags(words), Flags(words[w := updated]);
    var expected := SetRange(before, 32 * w + s, e - s, value);
    forall p | 0 <= p < |after|
      ensures after[p] == expected[p]
    {
      PositionInWord(w, s, e, p);
    }
  }

  lemma PositionInWord(w: nat, s: nat, e: nat, p: nat)
    requires s <= e <= 32
    ensures (32 * w + s <= p < 32 * w + e) <==> (p / 32 == w && s <= p % 32 < e)
  {}

  // The mask with ones at positions s .. e-1.
  ghost predicate IsMask(mask: nat, s: nat, e: nat) {
    s <= e <= 32 && Pow2(s) <= Pow2(e) && mask == Pow2(e) - Pow2(s)
  }

  method FieldMask(startbit: nat, endbit: nat) returns (mask: nat)
    requires startbit <= endbit <= 32 && startbit < 32
    ensures IsMask(mask, startbit, endbit)
  {
    Powers();
    FieldMaskBit(startbit, endbit, 0);
    mask := if endbit == 32 then 0xFFFF_FFFF else Pow2(endbit) - 1;
    mask := mask - (Pow2(startbit) - 1);
  }

  lemma SetRangeTwice(bits: Bitmap, start: nat, n: nat, m: nat, value: bool)
    requires start + n + m <= |bits|
    ensures SetRange(SetRange(bits, start, n, value), start + n, m, value) == SetRange(bits, start, n + m, value)
  {}

  lemma FirstWindowIs(bits: Bitmap, lo: nat, hi: nat, k: nat, p: nat)
    requires hi <= |bits| && lo <= p && p + k <= hi && 0 < k
    requires ZeroWindow(bits, p, k) && NoWindow(bits, lo, p + k - 1, k)
    ensures FirstWindow(bits, lo, hi, k) == Some(p)
  {
    var r := FirstWindow(bits, lo, hi, k);
    assert r.Some? && r.value <= p && ZeroWindow(bits, r.value, k);
  }

  lemma FirstWindowIsNone(bits: Bitmap, lo: nat, hi: nat, k: nat)
    requires hi <= |bits| && NoWindow(bits, lo, hi, k)
    ensures FirstWindow(bits, lo, hi, k).None?
  {
    assert forall q: nat :: lo <= q && q + k <= hi ==> !ZeroWindow(bits, q, k);
  }

  // ---- Initial contents of the bitmap ----

  // Flags the initialiser sets for a heap of the given number of lines: in the last word, `~((1 << tmp) - 1)` with
  // tmp = 32 - lines % 32.
  predicate PaddingFlag(lines: nat, p: nat) {
    lines % 32 != 0 && p / 32 == lines / 32 && 32 - lines % 32 <= p % 32
  }

  lemma PastEnd(lines: nat, p: nat)
    requires p < (lines + 31) / 32 * 32
    ensures p >= lines <==> lines % 32 != 0 && p / 32 == lines / 32 && lines % 32 <= p % 32
  {}

  lemma LastWord(lines: nat, i: nat)
    requires lines % 32 != 0 && i < 32
    ensures var p := lines - lines % 32 + i;
            p < (lines + 31) / 32 * 32 && p / 32 == lines / 32 && p % 32 == i
  {}

  // The comment promises that exactly the flags past the heap's end are set.
  predicate PaddedAsPromised(lines: nat, p: nat) {
    p < (lines + 31) / 32 * 32 ==> (PaddingFlag(lines, p) <==> p >= lines)
  }

  lemma PaddedRight(lines: nat, p: nat)
    requires lines % 32 == 0 || lines % 32 == 16
    ensures PaddedAsPromised(lines, p)
  {
    if p < (lines + 31) / 32 * 32 {
      PastEnd(lines, p);
    }
  }

  lemma PaddedWrong(lines: nat) returns (p: nat)
    requires lines % 32 != 0 && lines % 32 != 16
    ensures !PaddedAsPromised(lines, p)
  {
    var i := if lines % 32 < 16 then lines % 32 else 32 - lines % 32;
    p := lines - lines % 32 + i;
    LastWord(lines, i);
    PastEnd(lines, p);
  }

  lemma MultiplesOf16(lines: nat)
    ensures lines % 16 == 0 <==> lines % 32 == 0 || lines % 32 == 16
  {
    var q, r := lines / 32, lines % 32;
    if r < 16 {
      SixteenthIs(lines, 2 * q, r);
    } else {
      SixteenthIs(lines, 2 * q + 1, r - 16);
    }
  }

  lemma SixteenthIs(v: nat, q: nat, r: nat)
    requires v == 16 * q + r && r < 16
    ensures v % 16 == r
  {}

  // That holds if and only if the line count is a multiple of 16.
  lemma PaddingMatchesCommentIff(lines: nat)
    ensures (forall p: nat :: PaddedAsPromised(lines, p)) <==> lines % 16 == 0
  {
    hide PaddedAsPromised;
    MultiplesOf16(lines);
    if lines % 16 == 0 {
      forall p: nat
        ensures PaddedAsPromised(lines, p)
      {
        PaddedRight(lines, p);
      }
    } else {
      var p := PaddedWrong(lines);
    }
  }

  // One flag of that table: in the last word if the heap does not fill it, and clear elsewhere.
  lemma StatusFlag(lines: nat, w: nat, i: nat, word: nat)
    requires i < 32
    requires word == if lines % 32 != 0 && w == lines / 32 then 0x1_0000_0000 - Pow2(32 - lines % 32) else 0
    ensures Bit(word, i) <==> PaddingFlag(lines, 32 * w + i)
  {
    hide Bit, Pow2;
    Powers();
    assert (32 * w + i) / 32 == w && (32 * w + i) % 32 == i;
    if lines % 32 != 0 && w == lines / 32 {
      FieldMaskBit(32 - lines % 32, 32, i);
    } else {
      ZeroBit(i);
    }
  }

  lemma WordsFor(lines: nat)
    requires 0 < lines
    ensures var size := (lines + 31) / 32;
            0 < size && (lines % 32 != 0 ==> size - 1 == lines / 32) && (lines % 32 == 0 ==> size == lines / 32)
  {}

  // The table CyU3PDmaBufferInit allocates and clears.
  method InitialStatus(lines: nat) returns (usedStatus: array<Word>)
    requires 0 < lines
    ensures fresh(usedStatus) && usedStatus.Length == (lines + 31) / 32
    ensures forall p: nat :: p < 32 * usedStatus.Length ==> (Flags(usedStatus[..])[p] <==> PaddingFlag(lines, p))
  {
    hide Bit, Pow2, PaddingFlag;
    WordsFor(lines);
    var size := (lines + 31) / 32;
    usedStatus := new Word[size](_ => 0);
    if lines % 32 != 0 {
      var tmp := 32 - lines % 32;
      Powers();
      FieldMaskBit(tmp, 32, 0);
      usedStatus[size - 1] := 0xFFFF_FFFF - (Pow2(tmp) - 1);
    }
    forall p: nat | p < 32 * size
      ensures Flags(usedStatus[..])[p] <==> PaddingFlag(lines, p)
    {
      StatusFlag(lines, p / 32, p % 32, usedStatus[p / 32]);
    }
  }

  // No flag is a padding flag in whole words.
  lemma NothingPadded(words: seq<Word>, lines: nat)
    requires lines % 32 == 0 && |words| == lines / 32
    requires forall p: nat :: p < 32 * |words| ==> (Flags(words)[p] <==> PaddingFlag(lines, p))
    ensures Flags(words) == Empty(lines).bits
  {
    hide Bit;
  }

  // After scanning [lo, pos): the last count flags are clear, no longer run ends there, and no window was passed over.
  ghost predicate Scanned(bits: Bitmap, lo: nat, pos: nat, count: nat, k: nat) {
    && lo <= pos - count && pos <= |bits|
    && (forall i :: pos - count <= i < pos ==> !bits[i])
    && (pos - count == lo || bits[pos - count - 1])
    && NoWindow(bits, lo, pos, k)
  }

  lemma ScannedNone(bits: Bitmap, lo: nat, pos: nat, count: nat, k: nat)
    requires Scanned(bits, lo, pos, count, k)
    ensures NoWindow(bits, lo, pos, k)
  {}

  lemma ScanNothing(bits: Bitmap, lo: nat, k: nat)
    requires lo <= |bits| && 0 < k
    ensures Scanned(bits, lo, lo, 0, k)
  {}

  lemma ScanOne(bits: Bitmap, lo: nat, pos: nat, count: nat, k: nat)
    requires Scanned(bits, lo, pos, count, k) && pos < |bits| && count < k
    ensures NoWindow(bits, lo, pos, k)
    ensures pos + 1 == |bits| && (bits[pos] || count + 1 < k) ==> NoWindow(bits, lo, |bits|, k)
    ensures bits[pos] ==> Scanned(bits, lo, pos + 1, 0, k)
    ensures !bits[pos] && count + 1 < k ==> Scanned(bits, lo, pos + 1, count + 1, k)
    ensures !bits[pos] && count + 1 == k ==> lo <= pos + 1 - k && ZeroWindow(bits, pos + 1 - k, k)
  {
    forall q: nat | lo <= q && q + k <= pos + 1 && (bits[pos] || count + 1 < k)
      ensures !ZeroWindow(bits, q, k)
    {
      if q + k == pos + 1 {
        assert bits[pos] || (q <= pos - count - 1 < q + k && bits[pos - count - 1]);
      }
    }
  }

  class DmaBufferManager {
    const heapBase: nat
    const heapSize: nat
    const checks: bool

    var startAddr: nat
    var regionSize: nat
    var statusSize: nat
    var searchPos: nat
    var usedStatus: array<Word>

    // The abstract heap that the words and the saved position stand for.
    ghost var heap: Heap

    ghost predicate Ready()
      reads this
    {
      startAddr != 0 && regionSize != 0
    }

    ghost predicate Valid()
      reads this, usedStatus
    {
      && 0 < heapBase && 0 < heapSize && heapSize % (32 * LINE_SIZE) == 0
      && heapBase + heapSize <= 0x1_0000_0000
      && (startAddr == 0 <==> regionSize == 0)
      && (Ready() ==>
            && startAddr == heapBase && regionSize == heapSize
            && statusSize == usedStatus.Length == heapSize / (32 * LINE_SIZE)
            && heap.bits == Flags(usedStatus[..])
            && heap.searchPos == searchPos < statusSize
            && Inv(heap))
    }

    // Every shipped memory map has a heap that is a multiple of 32 lines.
    constructor (heapBase: nat, heapSize: nat, checks: bool)
      requires 0 < heapBase && 0 < heapSize && heapSize % (32 * LINE_SIZE) == 0
      requires heapBase + heapSize <= 0x1_0000_0000
      ensures Valid() && !Ready()
      ensures this.heapBase == heapBase && this.heapSize == heapSize && this.checks == checks
    {
      this.heapBase := heapBase;
      this.heapSize := heapSize;
      this.checks := checks;
      startAddr, regionSize, statusSize, searchPos := 0, 0, 0, 0;
      usedStatus := new Word[0];
      heap := Empty(0);
    }

    method Init(poolHasRoom: bool)
      requires Valid()
      modifies this
      ensures Valid()
      ensures old(Ready()) ==> heap == old(heap) && usedStatus == old(usedStatus)
      ensures !old(Ready()) ==> (Ready() <==> poolHasRoom)
      ensures !old(Ready()) && poolHasRoom ==> heap == Empty(heapSize / 32) && fresh(usedStatus)
    {
      hide Flags, PaddingFlag;
      if startAddr != 0 && regionSize != 0 {
        return;
      }
      if !poolHasRoom {
        return;
      }
      var lines := heapSize / LINE_SIZE;
      usedStatus := InitialStatus(lines);
      startAddr := heapBase;
      regionSize := heapSize;
      statusSize := usedStatus.Length;
      searchPos := 0;
      heap := Empty(lines);
      NothingPadded(usedStatus[..], lines);
    }

    method SetStatus(startPos: nat, numBits: nat, value: bool)
      requires startPos + numBits <= 32 * usedStatus.Length
      modifies usedStatus
      ensures Flags(usedStatus[..]) == SetRange(old(Flags(usedStatus[..])), startPos, numBits, value)
    {
      hide Flags, IsMask, SetRange, Pow2;
      var left: nat := numBits;
      var wordnum: nat := startPos / 32;
      var startbit: nat := startPos % 32;
      var endbit: nat := if startbit + left < 32 then startbit + left else 32;
      var mask: nat := FieldMask(startbit, endbit);
      ghost var before := Flags(usedStatus[..]);
      ghost var done: nat := 0;
      while left > 0
        invariant |before| == 32 * usedStatus.Length
        invariant done + left == numBits && startbit <= endbit <= 32
        invariant left > 0 ==> 32 * wordnum + startbit == startPos + done && startbit < 32
        invariant left > 0 ==> endbit == if startbit + left < 32 then startbit + left else 32
        invariant IsMask(mask, startbit, endbit)
        invariant Flags(usedStatus[..]) == SetRange(before, startPos, done, value)
        decreases left
      {
        SetWord(wordnum, startbit, endbit, mask, value);
        SetRangeTwice(before, startPos, done, endbit - startbit, value);
        wordnum := wordnum + 1;
        left := left - (endbit - startbit);
        done := done + (endbit - startbit);
        if left >= 32 {
          startbit, endbit := 0, 32;
          mask := FieldMask(0, 32);
        } else {
          startbit, endbit := 0, left;
          mask := FieldMask(0, left);
        }
      }
    }

    // One pass of SetStatus: `|= mask` or `&= ~mask` on one word.
    method SetWord(wordnum: nat, ghost startbit: nat, ghost endbit: nat, mask: nat, value: bool)
      requires wordnum < usedStatus.Length && IsMask(mask, startbit, endbit)
      modifies usedStatus
      ensures Flags(usedStatus[..]) ==
              SetRange(old(Flags(usedStatus[..])), 32 * wordnum + startbit, endbit - startbit, value)
    {
      ghost var words := usedStatus[..];
      Powers();
      FieldMaskBit(endbit, 32, 0);
      OrBound(usedStatus[wordnum], mask, 32);
      AndNotBound(usedStatus[wordnum], mask);
      if value {
        usedStatus[wordnum] := Or(usedStatus[wordnum], mask);
      } else {
        usedStatus[wordnum] := AndNot(usedStatus[wordnum], mask);
      }
      WordUpdate(words, wordnum, startbit, endbit, value, usedStatus[wordnum]);
      assert usedStatus[..] == words[wordnum := usedStatus[wordnum]];
    }

    // The line a caller's pointer designates, counted from the start of the heap; negative below it.
    ghost function LineOf(buffer: nat): int
      reads this`startAddr
    {
      (buffer - (if checks then InUseList.HEADER_SIZE else 0) - startAddr) / LINE_SIZE
    }

    // The pointer passes both range tests of CyU3PDmaBufferFree.
    ghost predicate InRange(buffer: nat)
      reads this`startAddr, this`regionSize
    {
      heapBase <= buffer && startAddr < buffer - (if checks then InUseList.HEADER_SIZE else 0) < startAddr + regionSize
    }

    // Freeing the pointer frees the block.
    ghost predicate Designates(ptr: nat, b: Block)
      reads this`startAddr, this`regionSize
    {
      InRange(ptr) && LineOf(ptr) == b.start
    }

    // The caller's bytes lie in the block, and with checks on 20 bytes before them and 4 after them do as well.
    ghost predicate Encloses(b: Block, ptr: nat, size: nat)
      reads this`startAddr
    {
      && startAddr + 32 * b.start + (if checks then 20 else 0) <= ptr
      && ptr + size + (if checks then 4 else 0) <= startAddr + 32 * b.End()
    }

    lemma PlacedInHeap(h: Heap, b: Block)
      requires Inv(h) && b in h.live
      ensures 1 <= b.start && b.End() <= |h.bits|
    {}

    lemma PointerFits(b: Block, size: nat, ptr: nat)
      requires startAddr == heapBase && regionSize == heapSize && heapSize % (32 * LINE_SIZE) == 0
      requires 1 <= b.start && b.End() <= heapSize / (32 * LINE_SIZE) * 32
      requires size <= 0xFFFF && b.lines == LinesFor(size, checks)
      requires ptr == startAddr + 32 * b.start + if checks then 20 else 0
      ensures Designates(ptr, b) && Encloses(b, ptr, size)
    {
      LinesCoverRequest(size, checks);
      hide LinesFor;
    }

    method Alloc(size: nat) returns (ptr: nat)
      requires Valid() && size <= 0xFFFF
      modifies this`searchPos, this`heap, usedStatus
      ensures Valid()
      ensures !Ready() ==> ptr == 0 && heap == old(heap)
      ensures Ready() ==> heap == AllocStep(old(heap), LinesFor(size, checks)).0
      ensures Ready() ==>
                match AllocStep(old(heap), LinesFor(size, checks)).1
                case None => ptr == 0
                case Some(b) => Designates(ptr, b) && Encloses(b, ptr, size)
    {
      hide Flags, Inv, Search, SetRange, LinesFor;
      ptr := 0;
      if startAddr == 0 || regionSize == 0 {
        return;
      }
      var lines := LinesFor(size, checks);
      AllocKeepsInv(heap, lines);
      var found, start := FindRoom(lines);
      if found {
        SetStatus(start, lines - 1, true);
        heap := AllocStep(heap, lines).0;
        ptr := startAddr + LINE_SIZE * start;
        if checks {
          ptr := ptr + InUseList.HEADER_SIZE;
        }
        PlacedInHeap(heap, Block(start, lines));
        PointerFits(Block(start, lines), size, ptr);
      }
    }

    // The search loop of CyU3PDmaBufferAlloc: scans every word once, from the saved one round to it again.
    method FindRoom(lines: nat) returns (found: bool, start: nat)
      requires searchPos < statusSize == usedStatus.Length && 2 <= lines
      modifies this`searchPos
      ensures var r := Search(Flags(usedStatus[..]), old(searchPos), lines + 1);
              && found == r.Some?
              && (found ==> start == r.value + 1 && searchPos == (r.value + lines) / 32 < statusSize)
              && (!found ==> searchPos == old(searchPos))
    {
      hide Flags, Scanned, NoWindow, FirstWindow;
      ghost var bits := Flags(usedStatus[..]);
      ghost var split := 32 * searchPos;
      ghost var k := lines + 1;
      ghost var lo, pos: nat, hi := split, split, |bits|;
      var wordnum: nat, bitnum: nat, count: nat, tmp: nat := searchPos, 0, 0, 0;
      start := 0;
      ScanNothing(bits, split, k);
      while tmp < statusSize
        invariant searchPos == old(searchPos) && bits == Flags(usedStatus[..])
        invariant tmp <= statusSize && bitnum < 32 && wordnum < statusSize && pos == 32 * wordnum + bitnum
        invariant || (lo == split && hi == |bits| && wordnum == searchPos + tmp)
                  || (&& lo == 0 && hi == split && wordnum + statusSize == searchPos + tmp
                      && NoWindow(bits, split, |bits|, k))
        invariant tmp == statusSize ==> bitnum == 0
        invariant count < k && Scanned(bits, lo, pos, count, k)
        invariant count > 0 ==> start == pos - count + 1
        decreases statusSize - tmp, 32 - bitnum
      {
        var clear := FlagIsClear(wordnum, bitnum);
        ScanOne(bits, lo, pos, count, k);
        if clear {
          if count == 0 {
            start := (wordnum * 32) + bitnum + 1;
          }
          count := count + 1;
          if count == lines + 1 {
            FirstWindowIs(bits, lo, hi, k, start - 1);
            if hi == split {
              FirstWindowIsNone(bits, split, |bits|, k);
            }
            searchPos := wordnum;
            return true, start;
          }
        } else {
          count := 0;
        }
        bitnum := bitnum + 1;
        pos := pos + 1;
        if bitnum == 32 {
          bitnum := 0;
          wordnum := wordnum + 1;
          tmp := tmp + 1;
          if wordnum == statusSize {
            wordnum := 0;
            count := 0;
            ScanNothing(bits, 0, k);
            lo, pos, hi := 0, 0, split;
          }
        }
      }
      ScannedNone(bits, 0, split, count, k);
      FirstWindowIsNone(bits, 0, split, k);
      FirstWindowIsNone(bits, split, |bits|, k);
      found := false;
    }

    // `(usedStatus[wordnum] & (1 << bitnum)) == 0`
    method FlagIsClear(wordnum: nat, bitnum: nat) returns (clear: bool)
      requires wordnum < usedStatus.Length && bitnum < 32
      ensures clear == !Flags(usedStatus[..])[32 * wordnum + bitnum]
    {
      clear := And(usedStatus[wordnum], Pow2(bitnum)) == 0;
      TestReadsBit(usedStatus[wordnum], bitnum);
    }

    // The loop of CyU3PDmaBufferFree that counts a block's ones.
    method CountOnes(start: nat) returns (count: nat)
      requires start <= 32 * usedStatus.Length && statusSize == usedStatus.Length
      ensures count == OnesFrom(Flags(usedStatus[..]), start)
    {
      hide Flags;
      ghost var bits := Flags(usedStatus[..]);
      var wordnum: nat, bitnum: nat := start / 32, start % 32;
      count := 0;
      while wordnum < statusSize
        invariant bitnum < 32 && 32 * wordnum + bitnum == start + count <= |bits|
        invariant OnesFrom(bits, start) == count + OnesFrom(bits, start + count)
        decreases |bits| - count
      {
        var clear := FlagIsClear(wordnum, bitnum);
        if clear {
          return;
        }
        count := count + 1;
        bitnum := bitnum + 1;
        if bitnum == 32 {
          bitnum := 0;
          wordnum := wordnum + 1;
        }
      }
    }

    // A pointer to the first line of a live block frees it; any other pointer in range clears whatever ones follow it.
    method Free(buffer: nat) returns (retVal: int)
      requires Valid()
      modifies this`searchPos, this`heap, usedStatus
      ensures Valid()
      ensures !InRange(buffer) ==> retVal == -1 && heap == old(heap)
      ensures InRange(buffer) ==> 0 <= LineOf(buffer) < |old(heap.bits)|
      ensures InRange(buffer) ==> retVal == 0 && heap == FreeAt(old(heap), LineOf(buffer))
      ensures InRange(buffer) ==>
                forall b :: b in old(heap.live) && b.start == LineOf(buffer) ==> heap == FreeStep(old(heap), b)
    {
      hide Flags, Inv, FreeStep, FreeAt;
      retVal := -1;
      if buffer < heapBase {
        return;
      }
      var start: int := if checks then buffer - InUseList.HEADER_SIZE else buffer;
      if startAddr < start < startAddr + regionSize {
        forall b | b in heap.live && b.start == LineOf(buffer)
          ensures FreeAt(heap, b.start) == FreeStep(heap, b)
        {
          FreeAtStart(heap, b);
        }
        Release((start - startAddr) / LINE_SIZE);
        retVal := 0;
      }
    }

    method Release(start: nat)
      requires Valid() && Ready() && start < |heap.bits|
      modifies this`searchPos, this`heap, usedStatus
      ensures Valid()
      ensures heap == FreeAt(old(heap), start)
    {
      hide Flags, Inv, OnesFrom, SetRange, Cut;
      FreeAtKeepsInv(heap, start);
      var count := CountOnes(start);
      SetStatus(start, count, false);
      heap := FreeAt(heap, start);
      searchPos := 0;
    }
  }
}
