/** Looking up a named field in the records that flash and one-time-programmable memory hold: a length byte below 0xff,
    the field's name and value, and two bytes of checksum, up to a 0xff or the end of the buffer. */
module FlashField {
  import opened BitOps
  import opened Wrappers

  // Memory at large: the buffer with whatever follows it.
  type Memory = nat -> Byte

  // ptr[k]
  function At(mem: Memory, ptr: nat, k: nat): Byte {
    mem(ptr + k)
  }

  predicate Matches(mem: Memory, at: nat, field: seq<Byte>) {
    forall k: nat :: k < |field| ==> At(mem, at, k) == field[k]
  }

  // Where the walk over the records stops with a match.
  function Find(mem: Memory, ub: nat, end: nat, field: seq<Byte>): (r: Option<nat>)
    ensures r.Some? ==> ub <= r.value < end && mem(r.value) != 0xff && Matches(mem, r.value + 1, field)
    decreases if ub < end then end - ub else 0
  {
    if ub >= end || mem(ub) == 0xff then None
    else if Matches(mem, ub + 1, field) then Some(ub)
    else Find(mem, ub + mem(ub) as nat + 3, end, field)
  }

  // min_sz(c - flen, maxlen): the difference wraps around if the record is shorter than the name.
  function ValueLength(c: Byte, flen: nat, maxlen: nat): (n: nat)
    ensures n <= maxlen
  {
    var diff := (c as int - flen) % 0x1_0000_0000;
    if diff < maxlen then diff else maxlen
  }

  // No zero byte among the first n.
  predicate NulFree(mem: Memory, at: nat, n: nat) {
    forall k: nat :: k < n ==> At(mem, at, k) != 0
  }

  // What strncpy stores at k: the source up to its first zero byte, and zeros after that.
  function StrnByte(mem: Memory, from: nat, k: nat): Byte {
    if NulFree(mem, from, k) then At(mem, from, k) else 0
  }

  // The bytes strncpy stores are those of s.
  ghost predicate Stores(mem: Memory, from: nat, s: seq<Byte>) {
    forall k: nat :: k < |s| ==> StrnByte(mem, from, k) == s[k]
  }

  method Strncmp(mem: Memory, at: nat, field: seq<Byte>) returns (differ: bool)
    requires 0 !in field
    ensures differ <==> !Matches(mem, at, field)
  {
    var k: nat := 0;
    while k < |field|
      invariant k <= |field| && forall j: nat :: j < k ==> At(mem, at, j) == field[j]
      decreases |field| - k
    {
      if At(mem, at, k) != field[k] {
        return true;
      }
      k := k + 1;
    }
    return false;
  }

  method Strncpy(val: array<Byte>, mem: Memory, from: nat, n: nat)
    requires n <= val.Length
    modifies val
    ensures forall k: nat :: k < n ==> val[k] == StrnByte(mem, from, k)
    ensures forall k: nat :: n <= k < val.Length ==> val[k] == old(val[k])
  {
    var k: nat := 0;
    while k < n && At(mem, from, k) != 0
      invariant k <= n && NulFree(mem, from, k)
      invariant forall j: nat :: j < k ==> val[j] == StrnByte(mem, from, j)
      invariant forall j: nat :: k <= j < val.Length ==> val[j] == old(val[j])
      decreases n - k
    {
      val[k] := At(mem, from, k);
      k := k + 1;
    }
    ghost var nul := k;
    while k < n
      invariant nul <= k <= n && (k < n ==> At(mem, from, nul) == 0)
      invariant forall j: nat :: j < k ==> val[j] == StrnByte(mem, from, j)
      invariant forall j: nat :: k <= j < val.Length ==> val[j] == old(val[j])
      decreases n - k
    {
      val[k] := 0;
      k := k + 1;
    }
  }

  // NuandExtractField. The checksum is computed but never enforced.
  method ExtractField(mem: Memory, ptr: nat, len: nat, field: seq<Byte>, val: array<Byte>, maxlen: nat)
    returns (status: int)
    requires 0 !in field && maxlen < val.Length
    modifies val
    ensures status == if Find(mem, ptr, ptr + len, field).Some? then 0 else 1
    ensures match Find(mem, ptr, ptr + len, field)
            case None => val[..] == old(val[..])
            case Some(ub) =>
              var wlen := ValueLength(mem(ub), |field|, maxlen);
              && (forall k: nat :: k < wlen ==> val[k] == StrnByte(mem, ub + 1 + |field|, k)) && val[wlen] == 0
              && forall k: nat :: wlen < k < val.Length ==> val[k] == old(val[k])
  {
    hide StrnByte, Matches, ValueLength;
    var ub, end := ptr, ptr + len;
    while ub < end
      invariant Find(mem, ub, end, field) == Find(mem, ptr, end, field)
      invariant val[..] == old(val[..])
      decreases if ub < end then end - ub else 0
    {
      var c := mem(ub);
      if c == 0xff {
        break;
      }
      var differ := Strncmp(mem, ub + 1, field);
      if !differ {
        var wlen := ValueLength(c, |field|, maxlen);
        Strncpy(val, mem, ub + 1 + |field|, wlen);
        val[wlen] := 0;
        return 0;
      }
      ub := ub + c as nat + 3;
    }
    return 1;
  }

  // ---- Records ----

  datatype Record = Record(payload: seq<Byte>, crcLow: Byte, crcHigh: Byte)

  predicate Fits(r: Record) {
    |r.payload| < 0xff
  }

  function Layout(r: Record): (s: seq<Byte>)
    requires Fits(r)
    ensures |s| == |r.payload| + 3
  {
    [|r.payload|] + r.payload + [r.crcLow, r.crcHigh]
  }

  ghost predicate Holds(mem: Memory, at: nat, bytes: seq<Byte>) {
    forall k: nat :: k < |bytes| ==> At(mem, at, k) == bytes[k]
  }

  // The records from ub on, ended by 0xff or by the end of the buffer.
  ghost predicate Stored(mem: Memory, ub: nat, end: nat, records: seq<Record>)
    decreases |records|
  {
    if records == [] then ub == end || (ub < end && mem(ub) == 0xff)
    else
      && Fits(records[0]) && ub + |records[0].payload| + 3 <= end && Holds(mem, ub, Layout(records[0]))
      && Stored(mem, ub + |records[0].payload| + 3, end, records[1..])
  }

  // The place of record i.
  function Offset(ub: nat, records: seq<Record>, i: nat): (at: nat)
    requires i <= |records|
    decreases i
  {
    if i == 0 then ub else Offset(ub + |records[0].payload| + 3, records[1..], i - 1)
  }

  predicate Named(r: Record, field: seq<Byte>) {
    field <= r.payload
  }

  // The first record with the given name, or the number of records.
  function First(records: seq<Record>, field: seq<Byte>): (i: nat)
    ensures i <= |records| && (i < |records| ==> Named(records[i], field))
    ensures forall j: nat :: j < i ==> !Named(records[j], field)
  {
    if records == [] || Named(records[0], field) then 0 else 1 + First(records[1..], field)
  }

  // What the lookup is for.
  function Expected(ub: nat, records: seq<Record>, field: seq<Byte>): Option<nat> {
    var i := First(records, field);
    if i < |records| then Some(Offset(ub, records, i)) else None
  }

  // A record shorter than the name spells the name together with the bytes behind it.
  ghost predicate RunsOn(mem: Memory, ub: nat, records: seq<Record>, i: nat, field: seq<Byte>)
    requires i < |records|
  {
    |records[i].payload| < |field| && Matches(mem, Offset(ub, records, i) + 1, field)
  }

  ghost predicate NoneRunsOn(mem: Memory, ub: nat, records: seq<Record>, field: seq<Byte>) {
    forall i: nat :: i < First(records, field) ==> !RunsOn(mem, ub, records, i, field)
  }

  lemma MatchesWithin(mem: Memory, ub: nat, r: Record, field: seq<Byte>)
    requires Fits(r) && Holds(mem, ub, Layout(r)) && |field| <= |r.payload|
    ensures Matches(mem, ub + 1, field) <==> Named(r, field)
  {
    PayloadHeld(mem, ub, r);
    hide Layout;
    if Matches(mem, ub + 1, field) {
      forall k: nat | k < |field|
        ensures field[k] == r.payload[k]
      {
        assert At(mem, ub + 1, k) == field[k];
        assert At(mem, ub + 1, k) == r.payload[k];
      }
      assert field == r.payload[..|field|];
    }
  }

  lemma PayloadHeld(mem: Memory, ub: nat, r: Record)
    requires Fits(r) && Holds(mem, ub, Layout(r))
    ensures mem(ub) == |r.payload| && forall k: nat :: k < |r.payload| ==> At(mem, ub + 1, k) == r.payload[k]
  {
    var s := Layout(r);
    assert At(mem, ub, 0) == s[0];
    forall k: nat | k < |r.payload|
      ensures At(mem, ub + 1, k) == r.payload[k]
    {
      assert At(mem, ub, k + 1) == s[k + 1];
    }
  }

  // The lookup finds the first record with the name if and only if no record before it runs on.
  lemma {:induction false} FindsExpectedIff(mem: Memory, ub: nat, end: nat, records: seq<Record>, field: seq<Byte>)
    requires Stored(mem, ub, end, records)
    ensures Find(mem, ub, end, field) == Expected(ub, records, field) <==> NoneRunsOn(mem, ub, records, field)
    decreases |records|
  {
    hide Matches, Holds, Layout, Named;
    if records != [] {
      var r, next := records[0], ub + |records[0].payload| + 3;
      PayloadHeld(mem, ub, r);
      if |field| <= |r.payload| {
        MatchesWithin(mem, ub, r, field);
      } else {
        ShorterIsNotNamed(r, field);
      }
      FindsExpectedIff(mem, next, end, records[1..], field);
      FindIsLater(mem, next, end, field);
      ExpectedIsLater(next, records[1..], field);
      NoneRunsOnTail(mem, ub, records, field);
    }
  }

  lemma ShorterIsNotNamed(r: Record, field: seq<Byte>)
    requires |field| > |r.payload|
    ensures !Named(r, field)
  {}

  lemma FindIsLater(mem: Memory, ub: nat, end: nat, field: seq<Byte>)
    ensures Find(mem, ub, end, field).Some? ==> Find(mem, ub, end, field).value >= ub
  {}

  lemma {:induction false} OffsetIsLater(ub: nat, records: seq<Record>, i: nat)
    requires i <= |records|
    ensures Offset(ub, records, i) >= ub
    decreases i
  {
    if i > 0 {
      OffsetIsLater(ub + |records[0].payload| + 3, records[1..], i - 1);
    }
  }

  lemma ExpectedIsLater(ub: nat, records: seq<Record>, field: seq<Byte>)
    ensures Expected(ub, records, field).Some? ==> Expected(ub, records, field).value >= ub
  {
    OffsetIsLater(ub, records, First(records, field));
  }

  lemma NoneRunsOnTail(mem: Memory, ub: nat, records: seq<Record>, field: seq<Byte>)
    requires records != []
    ensures var next := ub + |records[0].payload| + 3;
            NoneRunsOn(mem, ub, records, field) <==>
              || Named(records[0], field)
              || (!RunsOn(mem, ub, records, 0, field) && NoneRunsOn(mem, next, records[1..], field))
  {
    hide Matches, Named;
    var next := ub + |records[0].payload| + 3;
    forall i: nat | i < |records[1..]|
      ensures RunsOn(mem, ub, records, i + 1, field) == RunsOn(mem, next, records[1..], i, field)
    {}
    if !Named(records[0], field) {
      assert First(records, field) == 1 + First(records[1..], field);
      if NoneRunsOn(mem, ub, records, field) {
        forall i: nat | i < First(records[1..], field)
          ensures !RunsOn(mem, next, records[1..], i, field)
        {
          assert !RunsOn(mem, ub, records, i + 1, field);
        }
      }
      if !RunsOn(mem, ub, records, 0, field) && NoneRunsOn(mem, next, records[1..], field) {
        forall i: nat | i < First(records, field)
          ensures !RunsOn(mem, ub, records, i, field)
        {
          if i > 0 {
            assert !RunsOn(mem, next, records[1..], i - 1, field);
          }
        }
      }
    }
  }

  lemma {:induction false} RecordHeld(mem: Memory, ub: nat, end: nat, records: seq<Record>, i: nat)
    requires Stored(mem, ub, end, records) && i < |records|
    ensures Fits(records[i]) && Holds(mem, Offset(ub, records, i), Layout(records[i]))
    decreases i
  {
    hide Holds, Layout;
    if i > 0 {
      RecordHeld(mem, ub + |records[0].payload| + 3, end, records[1..], i - 1);
    }
  }

  lemma ShortMatchIsPrefix(mem: Memory, at: nat, r: Record, field: seq<Byte>)
    requires Fits(r) && Holds(mem, at, Layout(r)) && |r.payload| < |field| && Matches(mem, at + 1, field)
    ensures r.payload < field
  {
    PayloadHeld(mem, at, r);
    forall k: nat | k < |r.payload|
      ensures r.payload[k] == field[k]
    {
      assert At(mem, at + 1, k) == field[k];
    }
    assert r.payload == field[..|r.payload|];
  }

  // It does if no record's payload is a proper beginning of the name, for instance if none is shorter than the name.
  lemma FindsExpected(mem: Memory, ub: nat, end: nat, records: seq<Record>, field: seq<Byte>)
    requires Stored(mem, ub, end, records)
    requires forall i: nat :: i < |records| ==> !(records[i].payload < field)
    ensures Find(mem, ub, end, field) == Expected(ub, records, field)
  {
    hide Holds, Layout, Named;
    forall i: nat | i < First(records, field)
      ensures !RunsOn(mem, ub, records, i, field)
    {
      var at, p := Offset(ub, records, i), records[i].payload;
      RecordHeld(mem, ub, end, records, i);
      if RunsOn(mem, ub, records, i, field) {
        ShortMatchIsPrefix(mem, at, records[i], field);
      }
    }
    FindsExpectedIff(mem, ub, end, records, field);
  }

  // The value stored is the rest of that record's payload, cut to maxlen.
  lemma ValueOfRecord(mem: Memory, ub: nat, end: nat, records: seq<Record>, field: seq<Byte>, maxlen: nat)
    requires Stored(mem, ub, end, records) && First(records, field) < |records|
    ensures var i := First(records, field);
            var at, p := Offset(ub, records, i), records[i].payload;
            var wlen := ValueLength(mem(at), |field|, maxlen);
            && wlen == (if |p| - |field| < maxlen then |p| - |field| else maxlen)
            && (0 !in p ==> Stores(mem, at + 1 + |field|, p[|field|..][..wlen]))
  {
    hide Holds, Layout;
    var i := First(records, field);
    var at, p := Offset(ub, records, i), records[i].payload;
    RecordHeld(mem, ub, end, records, i);
    PayloadHeld(mem, at, records[i]);
    if 0 !in p {
      PlainValue(mem, at + 1, p, |field|, ValueLength(mem(at), |field|, maxlen));
    }
  }

  // A copy without zero bytes.
  lemma PlainValue(mem: Memory, at: nat, p: seq<Byte>, skip: nat, n: nat)
    requires skip + n <= |p| && 0 !in p && forall k: nat :: k < |p| ==> At(mem, at, k) == p[k]
    ensures Stores(mem, at + skip, p[skip..][..n])
  {
    var v, from := p[skip..], at + skip;
    forall k: nat | k < |v|
      ensures At(mem, from, k) == v[k] != 0
    {
      assert At(mem, at, skip + k) == p[skip + k];
      assert v[k] in p;
    }
    forall k: nat | k < n
      ensures StrnByte(mem, from, k) == v[..n][k]
    {
      assert NulFree(mem, from, k);
    }
  }

  function ExampleByte(k: nat): Byte {
    var bytes := [1, 76, 69, 78, 4, 76, 69, 78, 53, 0, 0];
    if k < |bytes| then bytes[k] else 0xff
  }

  // A record "L" with checksum "EN" runs on into the name "LEN": the lookup stops there instead of at the record
  // "LEN5" behind it, and copies as much as the caller's buffer takes.
  lemma RunOnExample()
    ensures var mem: Memory := ExampleByte;
            var field := [76, 69, 78];
            var records := [Record([76], 69, 78), Record([76, 69, 78, 53], 0, 0)];
            && Stored(mem, 0, 11, records) && Expected(0, records, field) == Some(4)
            && Find(mem, 0, 11, field) == Some(0) && ValueLength(mem(0), 3, 10) == 10
  {
    var mem: Memory := ExampleByte;
    var field := [76, 69, 78];
    var one, two := Record([76], 69, 78), Record([76, 69, 78, 53], 0, 0);
    var records := [one, two];
    assert records[1..] == [two];
    assert [two][1..] == [];
    ExampleBytes();
    assert Stored(mem, 11, 11, []);
    assert Stored(mem, 4, 11, [two]);
    assert Stored(mem, 0, 11, records);
    assert !Named(one, field) && Named(two, field);
    hide Stored, Matches, Named;
    assert First([two], field) == 0;
    assert First(records, field) == 1;
  }

  // The bytes of the example, as the walk sees them.
  lemma ExampleBytes()
    ensures var mem: Memory := ExampleByte;
            && mem(0) == 1 && mem(4) == 4 && Matches(mem, 1, [76, 69, 78])
            && Holds(mem, 0, Layout(Record([76], 69, 78))) && Holds(mem, 4, Layout(Record([76, 69, 78, 53], 0, 0)))
  {}
}
