/** The DMA buffer heap seen abstractly: one flag per 32-byte cache line, and the blocks handed out so far.
    A block of n lines sets the flags of its first n-1 lines only; its last line stays clear and marks its end. */
module LineMap {

  import opened Wrappers

  type Bitmap = seq<bool>

  datatype Block = Block(start: nat, lines: nat) {
    function End(): nat {
      start + lines
    }

    // The lines whose flags are set while the block is live.
    predicate Marks(i: int) {
      start <= i < start + lines - 1
    }
  }

  function SetRange(bits: Bitmap, start: nat, n: nat, value: bool): (r: Bitmap)
    requires start + n <= |bits|
    ensures |r| == |bits|
    ensures forall i :: 0 <= i < |bits| ==> r[i] == if start <= i < start + n then value else bits[i]
  {
    bits[..start] + seq(n, _ => value) + bits[start + n..]
  }

  // ---- Searching for room ----

  predicate ZeroWindow(bits: Bitmap, p: nat, k: nat) {
    p + k <= |bits| && forall i :: p <= i < p + k ==> !bits[i]
  }

  ghost predicate NoWindow(bits: Bitmap, lo: nat, hi: nat, k: nat) {
    forall q: nat :: lo <= q && q + k <= hi ==> !ZeroWindow(bits, q, k)
  }

  // The lowest window of k clear flags inside [lo, hi), by trying every position.
  function FirstWindow(bits: Bitmap, lo: nat, hi: nat, k: nat): (r: Option<nat>)
    requires hi <= |bits|
    ensures r.Some? ==> lo <= r.value && r.value + k <= hi && ZeroWindow(bits, r.value, k)
    ensures r.Some? ==> forall q :: lo <= q < r.value ==> !ZeroWindow(bits, q, k)
    ensures r.None? ==> NoWindow(bits, lo, hi, k)
    decreases hi - lo
  {
    if lo + k > hi then None
    else if ZeroWindow(bits, lo, k) then Some(lo)
    else if lo == hi then None
    else FirstWindow(bits, lo + 1, hi, k)
  }

  // Next-fit: from the saved word to the top of the heap, then from the bottom up to the saved word.
  function Search(bits: Bitmap, searchPos: nat, k: nat): (r: Option<nat>)
    requires 32 * searchPos <= |bits|
  {
    var upper := FirstWindow(bits, 32 * searchPos, |bits|, k);
    if upper.Some? then upper else FirstWindow(bits, 0, 32 * searchPos, k)
  }

  // ---- The heap as a state machine ----

  datatype Heap = Heap(bits: Bitmap, searchPos: nat, live: set<Block>)

  predicate Disjoint(a: Block, b: Block) {
    a.End() <= b.start || b.End() <= a.start
  }

  ghost predicate Placed(live: set<Block>, size: nat) {
    && (forall b :: b in live ==> 1 <= b.start && 2 <= b.lines && b.End() <= size)
    && (forall a, b :: a in live && b in live && a != b ==> Disjoint(a, b))
  }

  ghost predicate Marked(live: set<Block>, i: int) {
    exists b :: b in live && b.Marks(i)
  }

  ghost predicate Inv(h: Heap) {
    && 32 * h.searchPos <= |h.bits|
    && Placed(h.live, |h.bits|)
    && forall i :: 0 <= i < |h.bits| ==> (h.bits[i] <==> Marked(h.live, i))
  }

  function Empty(size: nat): Heap {
    Heap(seq(size, _ => false), 0, {})
  }

  datatype Op = Alloc(lines: nat) | Free(block: Block)

  ghost predicate Legal(h: Heap, op: Op) {
    match op
    case Alloc(lines) => 2 <= lines
    case Free(b) => b in h.live
  }

  function AllocStep(h: Heap, lines: nat): (r: (Heap, Option<Block>))
    requires 32 * h.searchPos <= |h.bits| && 1 <= lines
  {
    match Search(h.bits, h.searchPos, lines + 1)
    case None => (h, None)
    case Some(p) =>
      var b := Block(p + 1, lines);
      (Heap(SetRange(h.bits, b.start, lines - 1, true), (p + lines) / 32, h.live + {b}), Some(b))
  }

  // The number of set flags from line i on.
  function OnesFrom(bits: Bitmap, i: nat): (n: nat)
    requires i <= |bits|
    ensures i + n <= |bits|
    ensures forall j :: i <= j < i + n ==> bits[j]
    ensures i + n < |bits| ==> !bits[i + n]
    decreases |bits| - i
  {
    if i < |bits| && bits[i] then 1 + OnesFrom(bits, i + 1) else 0
  }

  // Freeing knows only where the block starts; the count of ones must find where it ends.
  function FreeStep(h: Heap, b: Block): Heap
    requires b.start <= |h.bits|
  {
    Heap(SetRange(h.bits, b.start, OnesFrom(h.bits, b.start), false), 0, h.live - {b})
  }

  function Step(h: Heap, op: Op): Heap
    requires 32 * h.searchPos <= |h.bits|
    requires match op case Alloc(lines) => 1 <= lines case Free(b) => b.start <= |h.bits|
  {
    match op
    case Alloc(lines) => AllocStep(h, lines).0
    case Free(b) => FreeStep(h, b)
  }

  // ---- What one step keeps ----

  // In a run of zeros only the first can be another block's end marker.
  lemma WindowIsFree(h: Heap, p: nat, k: nat, b: Block, i: nat)
    requires Inv(h) && ZeroWindow(h.bits, p, k) && b in h.live
    requires p < i < p + k
    ensures !(b.start <= i < b.End())
  {
    assert b.Marks(i) ==> Marked(h.live, i);
    assert b.Marks(i - 1) ==> Marked(h.live, i - 1);
  }

  lemma WindowIsDisjoint(h: Heap, p: nat, lines: nat, c: Block)
    requires Inv(h) && ZeroWindow(h.bits, p, lines + 1) && c in h.live && 1 <= lines
    ensures Disjoint(Block(p + 1, lines), c)
  {
    var first := if c.start > p + 1 then c.start else p + 1;
    if first <= p + lines {
      WindowIsFree(h, p, lines + 1, c, first);
    }
  }

  lemma MarkedIntro(live: set<Block>, b: Block, i: int)
    requires b in live && b.Marks(i)
    ensures Marked(live, i)
  {}

  lemma MarkedAdd(live: set<Block>, b: Block, i: int)
    ensures Marked(live + {b}, i) <==> b.Marks(i) || Marked(live, i)
  {
    if b.Marks(i) {
      MarkedIntro(live + {b}, b, i);
    } else if Marked(live, i) {
      var c :| c in live && c.Marks(i);
      MarkedIntro(live + {b}, c, i);
    }
  }

  lemma AllocKeepsInv(h: Heap, lines: nat)
    requires Inv(h) && 2 <= lines
    ensures Inv(AllocStep(h, lines).0)
    ensures AllocStep(h, lines).1.Some? ==> AllocStep(h, lines).1.value !in h.live
  {
    var found := Search(h.bits, h.searchPos, lines + 1);
    if found.Some? {
      var b := Block(found.value + 1, lines);
      forall c | c in h.live
        ensures Disjoint(b, c)
      {
        WindowIsDisjoint(h, found.value, lines, c);
      }
      forall i {
        MarkedAdd(h.live, b, i);
      }
    }
  }

  // The count of ones stops at the block's own end marker.
  lemma OnesAreTheBlocks(h: Heap, b: Block)
    requires Inv(h) && b in h.live
    ensures OnesFrom(h.bits, b.start) == b.lines - 1
  {
    forall c | c in h.live
      ensures !c.Marks(b.End() - 1)
    {
      assert c == b || Disjoint(c, b);
    }
    assert !Marked(h.live, b.End() - 1) && !h.bits[b.End() - 1];
    forall i | b.Marks(i)
      ensures h.bits[i]
    {
      assert Marked(h.live, i);
    }
  }

  lemma MarkedRemove(live: set<Block>, b: Block, size: nat, i: int)
    requires Placed(live, size) && b in live
    ensures Marked(live - {b}, i) <==> Marked(live, i) && !b.Marks(i)
  {
    forall c | c in live - {b}
      ensures !(c.Marks(i) && b.Marks(i))
    {
      assert Disjoint(c, b);
    }
    assert forall c :: c in live - {b} <==> c in live && c != b;
  }

  lemma FreeKeepsInv(h: Heap, b: Block)
    requires Inv(h) && b in h.live
    ensures Inv(FreeStep(h, b))
  {
    OnesAreTheBlocks(h, b);
    forall i {
      MarkedRemove(h.live, b, |h.bits|, i);
    }
  }

  // ---- Freeing any line at all ----

  // The blocks left when the ones from a line on are cleared: a block that starts there is gone, and one that the line
  // lies inside is cut short, with the line as its new end marker.
  ghost function Cut(live: set<Block>, line: nat): set<Block> {
    (set b | b in live && !b.Marks(line)) +
    (set b | b in live && b.Marks(line) && b.start < line :: Block(b.start, line - b.start + 1))
  }

  ghost function FreeAt(h: Heap, line: nat): Heap
    requires line <= |h.bits|
  {
    Heap(SetRange(h.bits, line, OnesFrom(h.bits, line), false), 0, Cut(h.live, line))
  }

  // For the first line of a live block that is freeing the block.
  lemma FreeAtStart(h: Heap, b: Block)
    requires Inv(h) && b in h.live
    ensures FreeAt(h, b.start) == FreeStep(h, b)
  {
    assert b.Marks(b.start);
    forall c | c in h.live && c != b
      ensures !c.Marks(b.start)
    {
      assert Disjoint(c, b);
    }
    assert Cut(h.live, b.start) == h.live - {b};
  }

  // For a line whose flag is clear it changes nothing but the saved word.
  lemma FreeAtClear(h: Heap, line: nat)
    requires Inv(h) && line < |h.bits| && !h.bits[line]
    ensures FreeAt(h, line) == h.(searchPos := 0)
  {
    forall b | b in h.live
      ensures !b.Marks(line)
    {
      assert b.Marks(line) ==> Marked(h.live, line);
    }
    assert Cut(h.live, line) == h.live;
    assert SetRange(h.bits, line, 0, false) == h.bits;
  }

  // For a line inside a live block it frees the rest of the block, up to its end marker.
  lemma FreeAtInside(h: Heap, b: Block, line: nat)
    requires Inv(h) && b in h.live && b.Marks(line) && b.start < line
    ensures FreeAt(h, line) ==
            Heap(SetRange(h.bits, line, b.End() - 1 - line, false), 0,
                 h.live - {b} + {Block(b.start, line - b.start + 1)})
    ensures Inv(FreeAt(h, line))
  {
    hide SetRange, Cut, OnesFrom, Inv;
    OnesInsideBlock(h, b, line);
    CutShort(h, b, line);
    ShortHolds(h, b, line);
  }

  lemma OnesInsideBlock(h: Heap, b: Block, line: nat)
    requires Inv(h) && b in h.live && b.Marks(line) && b.start < line
    ensures line + 1 < b.End() <= |h.bits| && OnesFrom(h.bits, line) == b.End() - 1 - line
  {
    OnesAreTheBlocks(h, b);
    OnesInside(h.bits, b.start, line);
  }

  lemma CutShort(h: Heap, b: Block, line: nat)
    requires Inv(h) && b in h.live && b.Marks(line) && b.start < line
    ensures Cut(h.live, line) == h.live - {b} + {Block(b.start, line - b.start + 1)}
  {
    forall c | c in h.live && c != b
      ensures !c.Marks(line)
    {
      assert Disjoint(c, b);
    }
  }

  lemma ShortHolds(h: Heap, b: Block, line: nat)
    requires Inv(h) && b in h.live && b.Marks(line) && b.start < line && b.End() <= |h.bits|
    ensures Inv(Heap(SetRange(h.bits, line, b.End() - 1 - line, false), 0,
                     h.live - {b} + {Block(b.start, line - b.start + 1)}))
  {
    var short := Block(b.start, line - b.start + 1);
    var bits := SetRange(h.bits, line, b.End() - 1 - line, false);
    PlacedShort(h.live, b, short, |h.bits|);
    hide Placed, SetRange, Marked;
    forall i | 0 <= i < |bits|
      ensures bits[i] <==> Marked(h.live - {b} + {short}, i)
    {
      MarkedRemove(h.live, b, |h.bits|, i);
      MarkedAdd(h.live - {b}, short, i);
    }
  }

  lemma PlacedShort(live: set<Block>, b: Block, short: Block, size: nat)
    requires Placed(live, size) && b in live && short.start == b.start && 2 <= short.lines <= b.lines
    ensures Placed(live - {b} + {short}, size)
  {
    forall c, d | c in live - {b} + {short} && d in live - {b} + {short} && c != d
      ensures Disjoint(c, d)
    {
      assert Disjoint(if c == short then b else c, if d == short then b else d);
    }
  }

  lemma {:induction false} OnesInside(bits: Bitmap, i: nat, j: nat)
    requires i <= |bits| && i <= j <= i + OnesFrom(bits, i)
    ensures OnesFrom(bits, j) == OnesFrom(bits, i) - (j - i)
    decreases j - i
  {
    if i < j {
      OnesInside(bits, i + 1, j);
    }
  }

  // So whatever line a pointer designates, the bitmap still describes disjoint blocks afterwards.
  lemma FreeAtKeepsInv(h: Heap, line: nat)
    requires Inv(h) && line < |h.bits|
    ensures Inv(FreeAt(h, line)) && |FreeAt(h, line).bits| == |h.bits|
  {
    if !h.bits[line] {
      FreeAtClear(h, line);
    } else {
      var b :| b in h.live && b.Marks(line);
      if b.start == line {
        FreeAtStart(h, b);
        FreeKeepsInv(h, b);
      } else {
        FreeAtInside(h, b, line);
      }
    }
  }

  // ---- Whole runs ----

  ghost predicate LegalRun(h: Heap, ops: seq<Op>)
    requires Inv(h)
    decreases |ops|
  {
    ops == [] ||
    (Legal(h, ops[0]) && (StepKeepsInv(h, ops[0]); LegalRun(Step(h, ops[0]), ops[1..])))
  }

  ghost function Run(h: Heap, ops: seq<Op>): (r: Heap)
    requires Inv(h) && LegalRun(h, ops)
    ensures Inv(r) && |r.bits| == |h.bits|
    decreases |ops|
  {
    if ops == [] then h else (StepKeepsInv(h, ops[0]); Run(Step(h, ops[0]), ops[1..]))
  }

  lemma StepKeepsInv(h: Heap, op: Op)
    requires Inv(h) && Legal(h, op)
    ensures Inv(Step(h, op)) && |Step(h, op).bits| == |h.bits|
  {
    match op
    case Alloc(lines) => AllocKeepsInv(h, lines);
    case Free(b) => FreeKeepsInv(h, b);
  }

  // The flags are determined by which blocks are live, whatever order they were allocated and freed in.
  lemma LiveSetDeterminesBits(g: Heap, h: Heap)
    requires Inv(g) && Inv(h) && g.live == h.live && |g.bits| == |h.bits|
    ensures g.bits == h.bits
  {
    forall i | 0 <= i < |g.bits|
      ensures g.bits[i] == h.bits[i]
    {
      assert g.bits[i] <==> Marked(g.live, i);
    }
  }

  lemma NothingLiveIsAllClear(h: Heap)
    requires Inv(h) && h.live == {}
    ensures h.bits == Empty(|h.bits|).bits
  {
    LiveSetDeterminesBits(h, Empty(|h.bits|));
  }

  // From initialisation on, whatever is allocated and freed: blocks stay apart, inside the heap and off line 0, and a
  // flag is set exactly on the lines of live blocks other than their last.
  lemma EveryRunIsSafe(size: nat, ops: seq<Op>)
    requires LegalRun(Empty(size), ops)
    ensures var h := Run(Empty(size), ops);
            && (forall b :: b in h.live ==> 1 <= b.start && 2 <= b.lines && b.End() <= size)
            && (forall a, b :: a in h.live && b in h.live && a != b ==> Disjoint(a, b))
            && (forall i :: 0 <= i < size ==> (h.bits[i] <==> exists b :: b in h.live && b.Marks(i)))
  {
    var h := Run(Empty(size), ops);
    forall i | 0 <= i < size
      ensures h.bits[i] <==> exists b :: b in h.live && b.Marks(i)
    {
      assert h.bits[i] <==> Marked(h.live, i);
    }
  }

  // Freeing a block clears exactly the flags its allocation set, whatever happened in between; if everything else is
  // back as it was, so are the flags.
  lemma FreeUndoesAlloc(h: Heap, lines: nat, between: seq<Op>)
    requires Inv(h) && 2 <= lines && AllocStep(h, lines).1.Some?
    requires (AllocKeepsInv(h, lines); LegalRun(AllocStep(h, lines).0, between))
    requires AllocStep(h, lines).1.value in Run(AllocStep(h, lines).0, between).live
    ensures var b := AllocStep(h, lines).1.value;
            var later := Run(AllocStep(h, lines).0, between);
            && FreeStep(later, b).bits == SetRange(later.bits, b.start, b.lines - 1, false)
            && (later.live == h.live + {b} ==> FreeStep(later, b).bits == h.bits)
  {
    AllocKeepsInv(h, lines);
    var b := AllocStep(h, lines).1.value;
    var later := Run(AllocStep(h, lines).0, between);
    OnesAreTheBlocks(later, b);
    FreeKeepsInv(later, b);
    if later.live == h.live + {b} {
      assert FreeStep(later, b).live == h.live;
      LiveSetDeterminesBits(FreeStep(later, b), h);
    }
  }

  // Allocation fails exactly when no window of lines+1 clear flags lies on one side of the saved word.
  lemma AllocFailsIff(h: Heap, lines: nat)
    requires Inv(h) && 2 <= lines
    ensures AllocStep(h, lines).1.None? <==>
            NoWindow(h.bits, 0, 32 * h.searchPos, lines + 1) && NoWindow(h.bits, 32 * h.searchPos, |h.bits|, lines + 1)
  {}

  // A free resets the saved word, so the next allocation fails only if no window exists anywhere.
  lemma AllocAfterFreeFailsIff(h: Heap, b: Block, lines: nat)
    requires Inv(h) && b in h.live && 2 <= lines
    ensures AllocStep(FreeStep(h, b), lines).1.None? <==>
            NoWindow(FreeStep(h, b).bits, 0, |h.bits|, lines + 1)
  {
    FreeKeepsInv(h, b);
    AllocFailsIff(FreeStep(h, b), lines);
  }

  // An allocation takes the first window from the saved word on.
  lemma AllocAt(h: Heap, lines: nat, p: nat)
    requires 32 * h.searchPos <= p && ZeroWindow(h.bits, p, lines + 1) && 1 <= lines
    requires NoWindow(h.bits, 32 * h.searchPos, p + lines, lines + 1)
    ensures AllocStep(h, lines).0 ==
            Heap(SetRange(h.bits, p + 1, lines - 1, true), (p + lines) / 32, h.live + {Block(p + 1, lines)})
  {
    var r := FirstWindow(h.bits, 32 * h.searchPos, |h.bits|, lines + 1);
    assert r.Some? && r.value == p;
  }

  // A run on a heap of 64 lines, and the heaps it goes through. At the end flags 29 to 33 are clear, and the saved word
  // is at line 32.
  function Op5(n: nat): Op {
    match n
    case 0 => Alloc(29)
    case 1 => Alloc(4)
    case 2 => Alloc(2)
    case 3 => Free(Block(30, 4))
    case _ => Alloc(27)
  }

  function StageBits(n: nat): (bits: Bitmap)
    ensures |bits| == 64
  {
    seq(64, i => 1 <= i <= 28 || (2 <= n <= 3 && 30 <= i <= 32) || (n >= 3 && i == 34) || (n >= 5 && 36 <= i <= 61))
  }

  function Stage(n: nat): Heap {
    var a, d, b, c := Block(1, 29), Block(30, 4), Block(34, 2), Block(36, 27);
    match n
    case 0 => Empty(64)
    case 1 => Heap(StageBits(1), 0, {a})
    case 2 => Heap(StageBits(2), 1, {a, d})
    case 3 => Heap(StageBits(3), 1, {a, d, b})
    case 4 => Heap(StageBits(4), 0, {a, b})
    case _ => Heap(StageBits(5), 1, {a, b, c})
  }

  lemma FirstStage()
    ensures Step(Stage(0), Op5(0)) == Stage(1)
  {
    hide FirstWindow, Search, OnesFrom;
    AllocAt(Stage(0), 29, 0);
    assert SetRange(Stage(0).bits, 1, 28, true) == StageBits(1);
  }

  lemma SecondStage()
    ensures Step(Stage(1), Op5(1)) == Stage(2)
  {
    hide FirstWindow, Search, OnesFrom, NoWindow;
    BlocksFull(1, 0, 33, 5);
    AllocAt(Stage(1), 4, 29);
    assert SetRange(StageBits(1), 30, 3, true) == StageBits(2);
  }

  lemma MiddleStages()
    ensures Step(Stage(2), Op5(2)) == Stage(3)
    ensures Step(Stage(3), Op5(3)) == Stage(4)
  {
    assert StageBits(2)[32];
    AllocAt(Stage(2), 2, 33);
    assert SetRange(StageBits(2), 34, 1, true) == StageBits(3);
    var bits := StageBits(3);
    assert OnesFrom(bits, 33) == 0;
    assert OnesFrom(bits, 32) == 1;
    assert OnesFrom(bits, 31) == 2;
    assert OnesFrom(bits, 30) == 3;
    assert SetRange(bits, 30, 3, false) == StageBits(4);
  }

  lemma LastStage()
    ensures Step(Stage(4), Op5(4)) == Stage(5)
  {
    hide FirstWindow, Search, OnesFrom, NoWindow;
    BlocksFull(4, 0, 62, 28);
    AllocAt(Stage(4), 27, 35);
    assert SetRange(StageBits(4), 36, 26, true) == StageBits(5);
  }

  // Where the windows of these heaps are not.
  lemma BlocksFull(n: nat, lo: nat, hi: nat, k: nat)
    requires (n == 1 && lo == 0 && hi == 33 && k == 5) || (n == 4 && lo == 0 && hi == 62 && k == 28)
             || (n == 5 && lo == 0 && hi == 32 && k == 5) || (n == 5 && lo == 32 && hi == 64 && k == 5)
    ensures NoWindow(StageBits(n), lo, hi, k)
  {
    forall q: nat | lo <= q && q + k <= hi
      ensures !ZeroWindow(StageBits(n), q, k)
    {
      var i := if q == 0 then 1 else if q <= 28 then q else if q <= 34 then 34 else if q == 35 then 36 else q;
      assert StageBits(n)[i];
    }
  }

  lemma {:induction false} StageIsReached(n: nat)
    requires n <= 5
    ensures Inv(Stage(n))
    ensures n < 5 ==> Legal(Stage(n), Op5(n)) && Step(Stage(n), Op5(n)) == Stage(n + 1)
    decreases n
  {
    FirstStage();
    SecondStage();
    MiddleStages();
    LastStage();
    hide Step, StageBits, Inv;
    if n == 0 {
      EmptyHolds(64);
    } else {
      StageIsReached(n - 1);
      StepKeepsInv(Stage(n - 1), Op5(n - 1));
    }
  }

  lemma EmptyHolds(size: nat)
    ensures Inv(Empty(size))
  {}

  // The operations from the n-th on.
  function From(n: nat): (ops: seq<Op>)
    decreases 5 - n
  {
    if n >= 5 then [] else [Op5(n)] + From(n + 1)
  }

  lemma {:induction false} RunIsLegal(n: nat)
    requires n <= 5
    ensures Inv(Stage(n)) && LegalRun(Stage(n), From(n)) && Run(Stage(n), From(n)) == Stage(5)
    decreases 5 - n
  {
    hide Step, Stage, Inv, Op5;
    StageIsReached(n);
    if n < 5 {
      RunIsLegal(n + 1);
      assert From(n)[1..] == From(n + 1);
    }
  }

  lemma LastStageRefuses()
    ensures ZeroWindow(Stage(5).bits, 29, 5) && AllocStep(Stage(5), 4).1.None?
  {
    hide FirstWindow, NoWindow, Inv;
    StageIsReached(5);
    BlocksFull(5, 0, 32, 5);
    BlocksFull(5, 32, 64, 5);
    AllocFailsIff(Stage(5), 4);
  }

  // The restriction to one side is real: after this run a request for four lines is refused, although five clear flags
  // lie across the saved word.
  lemma WindowAcrossSavedWordIsMissed()
    ensures LegalRun(Empty(64), From(0))
    ensures var h := Run(Empty(64), From(0)); ZeroWindow(h.bits, 29, 5) && AllocStep(h, 4).1.None?
  {
    hide LegalRun, Run, From, AllocStep, ZeroWindow, StageBits;
    RunIsLegal(0);
    LastStageRefuses();
  }
}
