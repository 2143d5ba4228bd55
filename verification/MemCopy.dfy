/** CyU3PMemCopy: a byte copy that allows any overlap, with both directions unrolled eight at a time. Addresses are
    positions in one array of bytes. */
module MemCopy {
  import opened BitOps

  // The memory after copying: the source bytes as they were, at the destination, and nothing else changed.
  ghost predicate Copied(before: seq<Byte>, after: seq<Byte>, dest: nat, src: nat, lo: nat, hi: nat)
    requires lo <= hi && dest + hi <= |before| && src + hi <= |before|
  {
    && |after| == |before|
    && (forall i :: 0 <= i < |before| ==> (dest + lo <= i < dest + hi) || after[i] == before[i])
    && (forall i :: dest + lo <= i < dest + hi ==> after[i] == before[i - dest + src])
  }

  method Copy(mem: array<Byte>, dest: nat, src: nat, count: nat)
    requires dest + count <= mem.Length && src + count <= mem.Length
    modifies mem
    ensures mem[dest..dest + count] == old(mem[src..src + count])
    ensures mem[..dest] == old(mem[..dest])
    ensures mem[dest + count..] == old(mem[dest + count..])
  {
    if dest > src {
      CopyDown(mem, dest, src, count);
    } else {
      CopyUp(mem, dest, src, count);
    }
  }

  // `*d = *s` while copying downwards: bytes [k+1, count) are done, and byte k is the next.
  method MoveDown(mem: array<Byte>, d: nat, s: nat,
                  ghost before: seq<Byte>, ghost dest: nat, ghost src: nat, ghost k: nat, ghost count: nat)
    requires k < count && src < dest && d == dest + k && s == src + k && dest + count <= |before|
    requires Copied(before, mem[..], dest, src, k + 1, count)
    modifies mem
    ensures Copied(before, mem[..], dest, src, k, count)
  {
    mem[d] := mem[s];
  }

  // `*d = *s` while copying upwards: bytes [0, k) are done, and byte k is the next.
  method MoveUp(mem: array<Byte>, d: nat, s: nat,
                ghost before: seq<Byte>, ghost dest: nat, ghost src: nat, ghost k: nat, ghost count: nat)
    requires k < count && dest <= src && d == dest + k && s == src + k && src + count <= |before|
    requires Copied(before, mem[..], dest, src, 0, k)
    modifies mem
    ensures Copied(before, mem[..], dest, src, 0, k + 1)
  {
    mem[d] := mem[s];
  }

  lemma NothingCopied(before: seq<Byte>, dest: nat, src: nat, k: nat)
    requires dest + k <= |before| && src + k <= |before|
    ensures Copied(before, before, dest, src, k, k)
  {}

  // Destination above source: from the end back to the start.
  method CopyDown(mem: array<Byte>, dest: nat, src: nat, count: nat)
    requires src < dest && dest + count <= mem.Length && src + count <= mem.Length
    modifies mem
    ensures Copied(old(mem[..]), mem[..], dest, src, 0, count)
  {
    hide Copied;
    ghost var before := mem[..];
    var d: nat, s: nat, left: nat := dest + count, src + count, count;
    NothingCopied(before, dest, src, count);
    while left >= 8
      invariant left <= count && d == dest + left && s == src + left
      invariant Copied(before, mem[..], dest, src, left, count)
    {
      d, s, left := d - 8, s - 8, left - 8;
      MoveDown(mem, d + 7, s + 7, before, dest, src, left + 7, count);
      MoveDown(mem, d + 6, s + 6, before, dest, src, left + 6, count);
      MoveDown(mem, d + 5, s + 5, before, dest, src, left + 5, count);
      MoveDown(mem, d + 4, s + 4, before, dest, src, left + 4, count);
      MoveDown(mem, d + 3, s + 3, before, dest, src, left + 3, count);
      MoveDown(mem, d + 2, s + 2, before, dest, src, left + 2, count);
      MoveDown(mem, d + 1, s + 1, before, dest, src, left + 1, count);
      MoveDown(mem, d + 0, s + 0, before, dest, src, left + 0, count);
    }
    while left > 0
      invariant left <= count && d == dest + left && s == src + left
      invariant Copied(before, mem[..], dest, src, left, count)
    {
      d, s, left := d - 1, s - 1, left - 1;
      MoveDown(mem, d, s, before, dest, src, left, count);
    }
  }

  // Destination at or below source: from the start to the end.
  method CopyUp(mem: array<Byte>, dest: nat, src: nat, count: nat)
    requires dest <= src && dest + count <= mem.Length && src + count <= mem.Length
    modifies mem
    ensures Copied(old(mem[..]), mem[..], dest, src, 0, count)
  {
    hide Copied;
    ghost var before := mem[..];
    var d: nat, s: nat, left: nat := dest, src, count;
    NothingCopied(before, dest, src, 0);
    while left >= 8
      invariant left <= count && d == dest + (count - left) && s == src + (count - left)
      invariant Copied(before, mem[..], dest, src, 0, count - left)
    {
      MoveUp(mem, d + 0, s + 0, before, dest, src, count - left + 0, count);
      MoveUp(mem, d + 1, s + 1, before, dest, src, count - left + 1, count);
      MoveUp(mem, d + 2, s + 2, before, dest, src, count - left + 2, count);
      MoveUp(mem, d + 3, s + 3, before, dest, src, count - left + 3, count);
      MoveUp(mem, d + 4, s + 4, before, dest, src, count - left + 4, count);
      MoveUp(mem, d + 5, s + 5, before, dest, src, count - left + 5, count);
      MoveUp(mem, d + 6, s + 6, before, dest, src, count - left + 6, count);
      MoveUp(mem, d + 7, s + 7, before, dest, src, count - left + 7, count);
      d, s, left := d + 8, s + 8, left - 8;
    }
    while left > 0
      invariant left <= count && d == dest + (count - left) && s == src + (count - left)
      invariant Copied(before, mem[..], dest, src, 0, count - left)
    {
      MoveUp(mem, d, s, before, dest, src, count - left, count);
      d, s, left := d + 1, s + 1, left - 1;
    }
  }
}
