/** The leak checker's in-use list: what it must contain after any history of allocations and frees, and the doubly
    linked list that CyU3PMemAlloc and CyU3PMemFree maintain. */
module InUseList {

  // ---- What the list must contain ----

  // Allocations are numbered from 0 in the order they happen.
  datatype Event = Alloc | Free(serial: nat)

  function AllocCount(h: seq<Event>): nat {
    if h == [] then 0 else AllocCount(h[..|h| - 1]) + if h[|h| - 1].Alloc? then 1 else 0
  }

  function FreeCount(h: seq<Event>): nat {
    if h == [] then 0 else FreeCount(h[..|h| - 1]) + if h[|h| - 1].Free? then 1 else 0
  }

  function Without(s: seq<nat>, x: nat): seq<nat> {
    if s == [] then [] else if s[0] == x then s[1..] else [s[0]] + Without(s[1..], x)
  }

  // The sequence without its element at position k.
  function Cut<T>(s: seq<T>, k: nat): (r: seq<T>)
    requires k < |s|
    ensures |r| == |s| - 1
    ensures forall i :: 0 <= i < k ==> r[i] == s[i]
    ensures forall i :: k <= i < |s| - 1 ==> r[i] == s[i + 1]
  {
    s[..k] + s[k + 1..]
  }

  // The blocks in use, newest first.
  function InUse(h: seq<Event>): seq<nat> {
    if h == [] then []
    else
      var before := InUse(h[..|h| - 1]);
      match h[|h| - 1]
      case Alloc => [AllocCount(h[..|h| - 1])] + before
      case Free(serial) => Without(before, serial)
  }

  ghost predicate Legal(h: seq<Event>) {
    h == [] ||
    (Legal(h[..|h| - 1]) && (h[|h| - 1].Free? ==> h[|h| - 1].serial in InUse(h[..|h| - 1])))
  }

  ghost predicate Descending(s: seq<nat>) {
    forall i, j :: 0 <= i < j < |s| ==> s[i] > s[j]
  }

  lemma {:induction false} WithoutAt(s: seq<nat>, x: nat, k: nat)
    requires Descending(s) && k < |s| && s[k] == x
    ensures Without(s, x) == Cut(s, k)
    decreases |s|
  {
    if k > 0 {
      WithoutAt(s[1..], x, k - 1);
      assert Cut(s, k) == [s[0]] + Cut(s[1..], k - 1);
    }
  }

  lemma NewestFirst(s: seq<nat>, n: nat)
    requires Descending(s) && forall x: nat :: x in s ==> x < n
    ensures Descending([n] + s)
  {
    assert forall i :: 0 <= i < |s| ==> s[i] in s;
  }

  lemma {:induction false} WithoutIsRemoval(s: seq<nat>, x: nat)
    requires Descending(s) && x in s
    ensures Descending(Without(s, x)) && |Without(s, x)| == |s| - 1
    ensures forall y: nat :: y in Without(s, x) <==> y in s && y != x
    decreases |s|
  {
    assert s == [s[0]] + s[1..];
    if s[0] != x {
      WithoutIsRemoval(s[1..], x);
      NewestFirst(Without(s[1..], x), s[0]);
    }
  }

  // Over any history and any order of frees, the list holds exactly the blocks allocated and not yet freed, once each,
  // newest first, and its length is the difference of the two counters.
  lemma {:induction false} InUseIsLive(h: seq<Event>)
    requires Legal(h)
    ensures Descending(InUse(h))
    ensures forall x: nat :: x in InUse(h) <==> x < AllocCount(h) && Free(x) !in h
    ensures |InUse(h)| + FreeCount(h) == AllocCount(h)
    ensures forall x: nat :: Free(x) in h ==> x < AllocCount(h)
    decreases |h|
  {
    if h != [] {
      var g, last := h[..|h| - 1], h[|h| - 1];
      InUseIsLive(g);
      assert h == g + [last];
      match last
      case Alloc => NewestFirst(InUse(g), AllocCount(g));
      case Free(x) => WithoutIsRemoval(InUse(g), x);
    }
  }

  lemma AppendAlloc(h: seq<Event>)
    requires Legal(h)
    ensures var g := h + [Alloc];
            && Legal(g) && AllocCount(g) == AllocCount(h) + 1 && FreeCount(g) == FreeCount(h)
            && InUse(g) == [AllocCount(h)] + InUse(h)
  {
    assert (h + [Alloc])[..|h|] == h;
  }

  lemma AppendFree(h: seq<Event>, x: nat)
    requires Legal(h) && x in InUse(h)
    ensures var g := h + [Free(x)];
            && Legal(g) && AllocCount(g) == AllocCount(h) && FreeCount(g) == FreeCount(h) + 1
            && InUse(g) == Without(InUse(h), x)
  {
    assert (h + [Free(x)])[..|h|] == h;
  }

  // ---- The linked list ----

  const START_SIG := 0x4658334D
  const END_SIG := 0x454E444D
  const HEADER_SIZE := 20
  const FOOTER_SIZE := 4
  const WRAP := 0x1_0000_0000

  function Next(count: nat): nat {
    (count + 1) % WRAP
  }

  lemma NextWraps(n: nat)
    ensures Next(n % WRAP) == (n + 1) % WRAP
  {}

  // Bytes taken from the pool for a request, in 32-bit arithmetic.
  function PoolSize(size: nat): nat {
    ((size + 3) / 4 * 4 + HEADER_SIZE + FOOTER_SIZE) % WRAP
  }

  // They are the fewest whole words for the request, a 20-byte header and a 4-byte footer, unless that is more than 32
  // bits can count.
  lemma PoolCoversIff(size: nat)
    requires size < 0x1_0000_0000
    ensures PoolSize(size) >= size + 24 <==> size <= 0xFFFF_FFE4
    ensures size <= 0xFFFF_FFE4 ==> PoolSize(size) < size + 28 && PoolSize(size) % 4 == 0
  {
    var words := (size + 3) / 4;
    assert PoolSize(size) == if words <= 0x3FFF_FFF9 then 4 * words + 24 else 4 * words + 24 - 0x1_0000_0000;
  }

  // The header and footer around a block at a given address.
  class MemBlockInfo {
    const address: nat
    ghost const serial: nat
    var allocId: nat
    var allocSize: nat
    var prevBlk: MemBlockInfo?
    var nextBlk: MemBlockInfo?
    var startSig: nat
    var endSig: nat

    // A freshly stamped header and footer, not yet linked.
    constructor (address: nat, allocId: nat, allocSize: nat, ghost serial: nat)
      ensures this.address == address && this.serial == serial
      ensures this.allocId == allocId && this.allocSize == allocSize && Intact()
    {
      this.address := address;
      this.serial := serial;
      this.allocId := allocId;
      this.allocSize := allocSize;
      startSig, endSig := START_SIG, END_SIG;
      prevBlk, nextBlk := null, null;
    }

    predicate Intact()
      reads this
    {
      startSig == 0x4658334D && endSig == 0x454E444D
    }
  }

  class MemHeap {
    const heapBase: nat
    const heapEnd: nat

    var allocCnt: nat
    var freeCnt: nat
    var inUseList: MemBlockInfo?

    ghost var history: seq<Event>
    ghost var blocks: seq<MemBlockInfo>

    ghost predicate Valid()
      reads this, blocks
    {
      Recorded(allocCnt, freeCnt, history, blocks) && Linked()
    }

    // The counters and the list's contents agree with the history.
    static ghost predicate Recorded(allocCnt: nat, freeCnt: nat, history: seq<Event>, blocks: seq<MemBlockInfo>) {
      && Legal(history)
      && allocCnt == AllocCount(history) % 0x1_0000_0000
      && freeCnt == FreeCount(history) % 0x1_0000_0000
      && Numbered(blocks, InUse(history))
    }

    static ghost predicate Numbered(blocks: seq<MemBlockInfo>, serials: seq<nat>) {
      |blocks| == |serials| && forall i :: 0 <= i < |blocks| ==> blocks[i].serial == serials[i]
    }

    static lemma RecordAlloc(allocCnt: nat, freeCnt: nat, h: seq<Event>, blocks: seq<MemBlockInfo>, block: MemBlockInfo)
      requires Recorded(allocCnt, freeCnt, h, blocks) && block.serial == AllocCount(h)
      ensures Recorded(Next(allocCnt), freeCnt, h + [Event.Alloc], [block] + blocks)
    {
      NextWraps(AllocCount(h));
      AppendAlloc(h);
    }

    static lemma NumberedCut(blocks: seq<MemBlockInfo>, serials: seq<nat>, k: nat)
      requires Numbered(blocks, serials) && k < |blocks|
      ensures Numbered(Cut(blocks, k), Cut(serials, k)) && blocks[k].serial == serials[k]
    {}

    static lemma RecordFree(allocCnt: nat, freeCnt: nat, h: seq<Event>, blocks: seq<MemBlockInfo>, k: nat)
      requires Recorded(allocCnt, freeCnt, h, blocks) && k < |blocks|
      ensures Recorded(allocCnt, Next(freeCnt), h + [Event.Free(blocks[k].serial)], Cut(blocks, k))
    {
      hide InUse, Legal, AllocCount, FreeCount, Without, Cut, Numbered, Next;
      InUseIsLive(h);
      NumberedCut(blocks, InUse(h), k);
      WithoutAt(InUse(h), blocks[k].serial, k);
      NextWraps(FreeCount(h));
      AppendFree(h, blocks[k].serial);
    }

    ghost predicate Distinct()
      reads this`blocks
    {
      forall i, j :: 0 <= i < j < |blocks| ==> blocks[i] != blocks[j]
    }

    // Following prevBlk from the head visits blocks in order, and nextBlk goes the other way.
    ghost predicate Linked()
      reads this`inUseList, this`blocks, blocks`prevBlk, blocks`nextBlk
    {
      && (inUseList == null <==> blocks == [])
      && (blocks != [] ==> inUseList == blocks[0] && blocks[0].nextBlk == null && blocks[|blocks| - 1].prevBlk == null)
      && (forall i {:trigger blocks[i].prevBlk} :: 0 <= i < |blocks| - 1 ==> blocks[i].prevBlk == blocks[i + 1])
      && (forall i {:trigger blocks[i].nextBlk} :: 1 <= i < |blocks| ==> blocks[i].nextBlk == blocks[i - 1])
    }

    constructor (heapBase: nat, heapEnd: nat)
      ensures Valid() && history == [] && this.heapBase == heapBase && this.heapEnd == heapEnd
    {
      this.heapBase := heapBase;
      this.heapEnd := heapEnd;
      allocCnt, freeCnt, inUseList := 0, 0, null;
      history, blocks := [], [];
    }

    lemma BlocksDistinct()
      requires Recorded(allocCnt, freeCnt, history, blocks)
      ensures Distinct()
    {
      InUseIsLive(history);
    }

    // granted and address are the byte pool's answer.
    method Alloc(size: nat, granted: bool, address: nat) returns (block: MemBlockInfo?)
      requires Valid()
      modifies this, blocks`nextBlk
      ensures Valid()
      ensures block == null <==> !granted
      ensures !granted ==> history == old(history) && blocks == old(blocks)
      ensures granted && size <= 0xFFFF_FFE4 ==>
                size + 24 <= block.allocSize < size + 28 && block.allocSize % 4 == 0
      ensures granted ==>
                && history == old(history) + [Event.Alloc] && blocks == [block] + old(blocks)
                && fresh(block) && block.address == address && block.Intact()
                && block.allocId == old(allocCnt)
                && block.allocSize == PoolSize(size)
    {
      hide Recorded, Numbered, Linked, Distinct, InUse, Legal, FreeCount, AllocCount, Next, PoolSize;
      if !granted {
        return null;
      }
      if size <= 0xFFFF_FFE4 {
        PoolCoversIff(size);
      }
      BlocksDistinct();
      block := new MemBlockInfo(address, allocCnt, PoolSize(size), AllocCount(history));
      Link(block);
      RecordAlloc(allocCnt, freeCnt, history, old(blocks), block);
      allocCnt := Next(allocCnt);
      history := history + [Event.Alloc];
    }

    method Link(block: MemBlockInfo)
      requires Linked() && Distinct() && block !in blocks
      modifies this`inUseList, this`blocks, block`prevBlk, block`nextBlk, blocks`nextBlk
      ensures Linked() && blocks == [block] + old(blocks)
    {
      block.prevBlk := inUseList;
      block.nextBlk := null;
      if inUseList != null {
        inUseList.nextBlk := block;
      }
      inUseList := block;
      blocks := [block] + blocks;
    }

    // The caller's pointer, just behind the header, is not below the heap.
    predicate Accepted(block: MemBlockInfo) {
      block.address + 20 >= heapBase
    }

    // Unlinks the block, wherever it is; a broken signature is only reported, and a pointer below the heap ignored.
    method Free(block: MemBlockInfo) returns (corrupt: bool)
      requires Valid() && (Accepted(block) ==> block in blocks)
      modifies this, blocks`nextBlk, blocks`prevBlk
      ensures Valid()
      ensures !Accepted(block) ==> !corrupt && history == old(history) && blocks == old(blocks)
      ensures Accepted(block) ==> corrupt == !block.Intact() && history == old(history) + [Event.Free(block.serial)]
      ensures Accepted(block) ==>
                exists k :: 0 <= k < |old(blocks)| && old(blocks)[k] == block && blocks == Cut(old(blocks), k)
    {
      hide Recorded, Numbered, Linked, Distinct, Cut, InUse, Legal, AllocCount, FreeCount, Without, Next;
      if block.address + HEADER_SIZE < heapBase {
        return false;
      }
      BlocksDistinct();
      ghost var k :| 0 <= k < |blocks| && blocks[k] == block;
      corrupt := block.startSig != START_SIG || block.endSig != END_SIG;
      Unlink(block, k);
      RecordFree(allocCnt, freeCnt, history, old(blocks), k);
      freeCnt := Next(freeCnt);
      history := history + [Event.Free(block.serial)];
    }

    method Unlink(block: MemBlockInfo, ghost k: nat)
      requires Linked() && Distinct() && k < |blocks| && blocks[k] == block
      modifies this`inUseList, this`blocks, blocks`nextBlk, blocks`prevBlk
      ensures Linked() && blocks == Cut(old(blocks), k)
    {
      assert k > 0 ==> block.nextBlk == blocks[k - 1];
      assert k + 1 < |blocks| ==> block.prevBlk == blocks[k + 1];
      if block.nextBlk != null {
        block.nextBlk.prevBlk := block.prevBlk;
      }
      if block.prevBlk != null {
        block.prevBlk.nextBlk := block.nextBlk;
      }
      if inUseList == block {
        inUseList := block.prevBlk;
      }
      blocks := Cut(blocks, k);
    }

    predicate Sound(b: MemBlockInfo)
      reads b
    {
      heapBase <= b.address < heapEnd && b.Intact()
    }

    // The walk succeeds exactly when every block in use is in range with both signatures intact; otherwise it stops at
    // the newest bad one, and reports it if its address is in range.
    method CorruptionCheck() returns (success: bool, reported: MemBlockInfo?)
      requires Valid()
      ensures success <==> forall i :: 0 <= i < |blocks| ==> Sound(blocks[i])
      ensures success ==> reported == null
      ensures !success ==>
                exists k :: 0 <= k < |blocks| && !Sound(blocks[k]) && (forall i :: 0 <= i < k ==> Sound(blocks[i]))
                            && reported == if heapBase <= blocks[k].address < heapEnd then blocks[k] else null
    {
      var block := inUseList;
      ghost var k := 0;
      while block != null
        invariant 0 <= k <= |blocks| && (block == null <==> k == |blocks|)
        invariant k < |blocks| ==> block == blocks[k]
        invariant forall i :: 0 <= i < k ==> Sound(blocks[i])
        decreases |blocks| - k
      {
        assert !Sound(block) ==> !Sound(blocks[k]);
        if block.address < heapBase || block.address >= heapEnd {
          return false, null;
        }
        if block.startSig != START_SIG || block.endSig != END_SIG {
          return false, block;
        }
        assert k + 1 < |blocks| ==> blocks[k].prevBlk == blocks[k + 1];
        block := block.prevBlk;
        k := k + 1;
      }
      return true, null;
    }
  }
}
