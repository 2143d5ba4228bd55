/** The firmware's event log: packed entries in a ring buffer that warns when it fills up. */
module Logger {
  import opened BitOps

  type Entry = e: nat | e < 0x1_0000_0000

  // ---- Entries ----

  const LOG_EOF: Entry := 0x0000_0000

  // The file in the upper 5 bits, the line in the next 11, the data in the lower 16; what does not fit is masked off.
  function Pack(file: Byte, line: Uint16, data: Uint16): (e: Entry) {
    PackedFields(file, line, data);
    Or(Or(data, Shl(line % 0x800, 16)), Shl(file % 0x20, 27))
  }

  function Unpack(e: Entry): (r: (nat, nat, nat)) {
    (e / 0x800_0000 % 0x20, e / 0x1_0000 % 0x800, e % 0x1_0000)
  }

  lemma PackedFields(file: Byte, line: Uint16, data: Uint16)
    ensures Or(Or(data, Shl(line % 0x800, 16)), Shl(file % 0x20, 27)) ==
            file % 0x20 * 0x800_0000 + line % 0x800 * 0x1_0000 + data < 0x1_0000_0000
  {
    hide Or, Shl, Pow2;
    var l, f := line % 0x800, file % 0x20;
    Powers();
    ShlIsProduct(l, 16);
    ShlIsProduct(f, 27);
    OrIsSum(l, data, 16);
    OrCommutes(data, Shl(l, 16));
    OrIsSum(f, l * 0x1_0000 + data, 27);
    OrCommutes(l * 0x1_0000 + data, Shl(f, 27));
  }

  lemma Split(f: nat, l: nat, d: nat)
    requires f < 0x20 && l < 0x800 && d < 0x1_0000
    ensures var e := f * 0x800_0000 + l * 0x1_0000 + d;
            e / 0x800_0000 == f && e / 0x1_0000 == f * 0x800 + l && e % 0x1_0000 == d
  {}

  // Every field is recovered up to its mask.
  lemma UnpackPack(file: Byte, line: Uint16, data: Uint16)
    ensures Unpack(Pack(file, line, data)) == (file % 0x20, line % 0x800, data)
  {
    hide Or, Shl;
    PackedFields(file, line, data);
    Split(file % 0x20, line % 0x800, data);
  }

  // Every word is the entry of its own fields.
  lemma PackUnpack(e: Entry)
    ensures var (file, line, data) := Unpack(e); Pack(file, line, data) == e
  {
    hide Or, Shl;
    var (file, line, data) := Unpack(e);
    PackedFields(file, line, data);
    Joined(e);
  }

  lemma Joined(e: Entry)
    ensures e / 0x800_0000 % 0x20 * 0x800_0000 + e / 0x1_0000 % 0x800 * 0x1_0000 + e % 0x1_0000 == e
  {}

  // An entry can be mistaken for the end of the log, or for an error, only if all its fields are zero, or all ones. The
  // firmware's file numbers start at 1.
  lemma AmbiguousIff(file: Byte, line: Uint16, data: Uint16)
    ensures Pack(file, line, data) == 0 <==> file % 0x20 == 0 && line % 0x800 == 0 && data == 0
    ensures Pack(file, line, data) == 0xffff_ffff <==> file % 0x20 == 0x1f && line % 0x800 == 0x7ff && data == 0xffff
  {
    hide Or, Shl;
    PackedFields(file, line, data);
  }

  // ---- The log as a queue ----

  const LOGGER_ID_LOGGER_C: Byte := 5
  const WARNING_LINE: Uint16 := 105

  function FillWarning(): Entry {
    Pack(LOGGER_ID_LOGGER_C, WARNING_LINE, 0)
  }

  // The warning names this file and its line, and is neither the end of the log nor an error.
  lemma WarningIsAnEntry()
    ensures Unpack(FillWarning()) == (5, 105, 0) && FillWarning() != 0 && FillWarning() != 0xffff_ffff
  {
    hide Pack, Unpack;
    UnpackPack(LOGGER_ID_LOGGER_C, WARNING_LINE, 0);
    AmbiguousIff(LOGGER_ID_LOGGER_C, WARNING_LINE, 0);
  }

  // What recording adds to a queue of the given size: nothing if it is full, and a warning after the entry if this
  // fills the last but one place.
  function Recorded(size: nat, capacity: nat, e: Entry): (added: seq<Entry>) {
    if size == capacity then [] else if size == capacity - 2 then [e, FillWarning()] else [e]
  }

  datatype Op = Record(file: Byte, line: Uint16, data: Uint16) | Read

  // What an operation adds at the end, and what it takes from the front.
  function Added(q: seq<Entry>, capacity: nat, op: Op): seq<Entry> {
    match op
    case Record(file, line, data) => Recorded(|q|, capacity, Pack(file, line, data))
    case Read => []
  }

  function Taken(q: seq<Entry>, op: Op): (taken: seq<Entry>)
    ensures taken <= q
  {
    if op.Read? && q != [] then [q[0]] else []
  }

  function After(q: seq<Entry>, capacity: nat, op: Op): seq<Entry> {
    q[|Taken(q, op)|..] + Added(q, capacity, op)
  }

  // The next place in a ring of n.
  function Next(i: nat, n: nat): (r: nat)
    requires i < n
    ensures r == if i + 1 < n then i + 1 else 0
  {
    (i + 1) % n
  }

  class Log {
    var size: nat
    var insert: nat
    var remove: nat
    const entries: array<Entry>

    ghost predicate Valid()
      reads this
    {
      && 0 < entries.Length <= 0xffff
      && size <= entries.Length && insert < entries.Length && remove < entries.Length
      && insert == Slot(size)
    }

    // The place of the i-th entry from the oldest.
    function Slot(i: nat): nat
      reads this
      requires remove < entries.Length && i <= entries.Length
    {
      if remove + i < entries.Length then remove + i else remove + i - entries.Length
    }

    ghost function Queue(): (q: seq<Entry>)
      reads this, entries
      requires Valid()
      ensures |q| == size
    {
      seq(size, i requires 0 <= i < size && Valid() reads this, entries => entries[Slot(i)])
    }

    constructor (capacity: nat)
      requires 0 < capacity <= 0xffff
      ensures Valid() && entries.Length == capacity && Queue() == []
    {
      entries := new Entry[capacity](_ => 0);
      size, insert, remove := 0, 0, 0;
    }

    method Init()
      requires 0 < entries.Length <= 0xffff
      modifies this
      ensures Valid() && Queue() == []
    {
      size, insert, remove := 0, 0, 0;
    }

    method Record(file: Byte, line: Uint16, data: Uint16) returns (success: bool)
      requires Valid()
      modifies this, entries
      ensures Valid()
      ensures success <==> old(size) < entries.Length
      ensures Queue() == After(old(Queue()), entries.Length, Op.Record(file, line, data))
    {
      hide Pack;
      success := true;
      if size == entries.Length {
        success := false;
        return;
      }
      var fillWarning := size == entries.Length - 2;
      Append(Pack(file, line, data));
      if fillWarning {
        Append(FillWarning());
      }
    }

    method Append(e: Entry)
      requires Valid() && size < entries.Length
      modifies this`size, this`insert, entries
      ensures Valid() && size == old(size) + 1 && Queue() == old(Queue()) + [e]
    {
      hide Next;
      entries[insert] := e;
      insert := Next(insert, entries.Length);
      size := size + 1;
    }

    method Read() returns (e: Entry)
      requires Valid()
      modifies this`size, this`remove
      ensures Valid()
      ensures Queue() == After(old(Queue()), entries.Length, Op.Read)
      ensures e == if old(Queue()) == [] then 0 else old(Queue())[0]
    {
      if size == 0 {
        return LOG_EOF;
      }
      e := RemoveOldest();
    }

    method RemoveOldest() returns (e: Entry)
      requires Valid() && size > 0
      modifies this`size, this`remove
      ensures Valid() && [e] + Queue() == old(Queue())
    {
      hide Next;
      e := entries[remove];
      size := size - 1;
      remove := Next(remove, entries.Length);
    }
  }

  // ---- Runs ----

  // The queue before and after every operation, from a freshly initialised log on.
  ghost predicate Run(queues: seq<seq<Entry>>, capacity: nat, ops: seq<Op>) {
    && |queues| == |ops| + 1 && queues[0] == []
    && forall i :: 0 <= i < |ops| ==> queues[i + 1] == After(queues[i], capacity, ops[i])
  }

  // Everything added, and everything taken, by the first n operations.
  function AllAdded(queues: seq<seq<Entry>>, capacity: nat, ops: seq<Op>, n: nat): seq<Entry>
    requires n <= |ops| <= |queues|
  {
    if n == 0 then [] else AllAdded(queues, capacity, ops, n - 1) + Added(queues[n - 1], capacity, ops[n - 1])
  }

  function AllTaken(queues: seq<seq<Entry>>, ops: seq<Op>, n: nat): seq<Entry>
    requires n <= |ops| <= |queues|
  {
    if n == 0 then [] else AllTaken(queues, ops, n - 1) + Taken(queues[n - 1], ops[n - 1])
  }

  // Nothing is lost, made up or reordered: what was read, followed by what is still there, is what was accepted.
  lemma {:induction false} Conserved(queues: seq<seq<Entry>>, capacity: nat, ops: seq<Op>, n: nat)
    requires Run(queues, capacity, ops) && n <= |ops|
    ensures AllTaken(queues, ops, n) + queues[n] == AllAdded(queues, capacity, ops, n)
    decreases n
  {
    hide Pack, Recorded;
    if n > 0 {
      Conserved(queues, capacity, ops, n - 1);
      var q, op := queues[n - 1], ops[n - 1];
      hide Added, Taken;
      assert queues[n] == After(q, capacity, op);
      Moved(AllTaken(queues, ops, n - 1), q, AllAdded(queues, capacity, ops, n - 1), Taken(q, op),
            Added(q, capacity, op));
    }
  }

  lemma Moved(before: seq<Entry>, q: seq<Entry>, all: seq<Entry>, taken: seq<Entry>, added: seq<Entry>)
    requires before + q == all && taken <= q
    ensures (before + taken) + (q[|taken|..] + added) == all + added
  {
    assert q == taken + q[|taken|..];
  }

  // The log never overflows.
  lemma {:induction false} NeverOverfull(queues: seq<seq<Entry>>, capacity: nat, ops: seq<Op>, n: nat)
    requires Run(queues, capacity, ops) && n <= |ops| && capacity > 0
    ensures |queues[n]| <= capacity
    decreases n
  {
    hide Pack;
    if n > 0 {
      NeverOverfull(queues, capacity, ops, n - 1);
      assert queues[n] == After(queues[n - 1], capacity, ops[n - 1]);
    }
  }

  // The log was last at most two short of full before operation w, which recorded an entry and the warning.
  ghost predicate WarnedAt(queues: seq<seq<Entry>>, capacity: nat, ops: seq<Op>, n: nat, w: nat)
    requires |queues| == |ops| + 1 && n <= |ops|
  {
    && w < n && ops[w].Record? && |queues[w]| == capacity - 2
    && |queues[w + 1]| == capacity && queues[w + 1][capacity - 1] == FillWarning()
    && forall i :: w < i <= n ==> |queues[i]| > capacity - 2
  }

  // Whenever the log has fewer than two places left, a warning was queued when it had two last.
  lemma {:induction false} WarnedWhenAlmostFull(queues: seq<seq<Entry>>, capacity: nat, ops: seq<Op>, n: nat)
    returns (w: nat)
    requires Run(queues, capacity, ops) && n <= |ops| && capacity >= 2
    requires |queues[n]| > capacity - 2
    ensures WarnedAt(queues, capacity, ops, n, w)
    decreases n
  {
    hide Pack;
    assert queues[n] == After(queues[n - 1], capacity, ops[n - 1]);
    NeverOverfull(queues, capacity, ops, n - 1);
    if |queues[n - 1]| > capacity - 2 {
      w := WarnedWhenAlmostFull(queues, capacity, ops, n - 1);
    } else {
      w := n - 1;
    }
  }

  // So an entry is refused only when the log is full, and only after a warning.
  lemma RefusedOnlyAfterWarning(queues: seq<seq<Entry>>, capacity: nat, ops: seq<Op>, n: nat) returns (w: nat)
    requires Run(queues, capacity, ops) && n < |ops| && capacity >= 2
    requires ops[n].Record? && Added(queues[n], capacity, ops[n]) == []
    ensures |queues[n]| == capacity && WarnedAt(queues, capacity, ops, n, w)
  {
    hide Pack;
    NeverOverfull(queues, capacity, ops, n);
    w := WarnedWhenAlmostFull(queues, capacity, ops, n);
  }

  // The number of reads among operations from .. n-1.
  function Reads(ops: seq<Op>, from: nat, n: nat): (r: nat)
    requires from <= n <= |ops|
    decreases n
  {
    if from == n then 0 else Reads(ops, from, n - 1) + if ops[n - 1].Read? then 1 else 0
  }

  lemma {:induction false} AddedGrows(queues: seq<seq<Entry>>, capacity: nat, ops: seq<Op>, m: nat, n: nat)
    requires m <= n <= |ops| <= |queues|
    ensures AllAdded(queues, capacity, ops, m) <= AllAdded(queues, capacity, ops, n)
    decreases n
  {
    hide Pack, Added;
    if m < n {
      AddedGrows(queues, capacity, ops, m, n - 1);
    }
  }

  // While the log is not empty, every read takes an entry.
  lemma {:induction false} EveryReadTakes(queues: seq<seq<Entry>>, ops: seq<Op>, from: nat, n: nat)
    requires from <= n <= |ops| <= |queues| && forall i :: from <= i < n ==> queues[i] != []
    ensures |AllTaken(queues, ops, n)| == |AllTaken(queues, ops, from)| + Reads(ops, from, n)
    decreases n
  {
    if from < n {
      EveryReadTakes(queues, ops, from, n - 1);
    }
  }

  // The warning queued by operation w is still in the log if and only if fewer than `capacity` reads have followed it;
  // then its place is known, and otherwise it is among the entries read.
  lemma WarningQueuedIff(queues: seq<seq<Entry>>, capacity: nat, ops: seq<Op>, n: nat, w: nat)
    requires Run(queues, capacity, ops) && n <= |ops| && capacity >= 2 && WarnedAt(queues, capacity, ops, n, w)
    ensures var r, place := Reads(ops, w + 1, n), |AllAdded(queues, capacity, ops, w + 1)| - 1;
            && place >= 0 && AllAdded(queues, capacity, ops, w + 1)[place] == FillWarning()
            && (place >= |AllTaken(queues, ops, n)| <==> r < capacity)
            && (r < capacity ==> capacity - 1 - r < |queues[n]| && queues[n][capacity - 1 - r] == FillWarning())
            && (r >= capacity ==> AllTaken(queues, ops, n)[place] == FillWarning())
  {
    hide Pack, FillWarning, Added, Taken, AllAdded, AllTaken;
    var before, taken := AllAdded(queues, capacity, ops, w + 1), AllTaken(queues, ops, n);
    Conserved(queues, capacity, ops, w + 1);
    Conserved(queues, capacity, ops, n);
    AddedGrows(queues, capacity, ops, w + 1, n);
    EveryReadTakes(queues, ops, w + 1, n);
    var all := taken + queues[n];
    assert before[|before| - 1] == queues[w + 1][capacity - 1];
    assert all[|before| - 1] == before[|before| - 1];
  }

  // So it need not be there any more: it may have been read while the log stayed almost full.
  lemma WarningMayBeGone() returns (queues: seq<seq<Entry>>, ops: seq<Op>)
    ensures Run(queues, 2, ops) && |ops| == 6
    ensures ops[5].Record? && Added(queues[5], 2, ops[5]) == [] && FillWarning() !in queues[5]
  {
    hide Pack, FillWarning, Run, After, Added, Recorded;
    var a := Op.Record(1, 1, 1);
    var e, warning := Pack(1, 1, 1), FillWarning();
    NoWarning();
    ops := [a, Op.Read, a, Op.Read, a, a];
    queues := [[], [e, warning], [warning], [warning, e], [e], [e, e], [e, e]];
    RecordStep([], a, [e, warning]);
    RecordStep([warning], a, [e]);
    RecordStep([e], a, [e]);
    RecordStep([e, e], a, []);
    ReadStep(e, []);
    ReadStep(e, [warning]);
    ReadStep(warning, [e]);
    assert [e] + [] == [e] && [e] + [warning] == [e, warning] && [warning] + [e] == [warning, e];
    RunOfSix(queues, 2, ops);
  }

  lemma NoWarning()
    ensures Pack(1, 1, 1) != FillWarning()
  {
    hide Pack;
    UnpackPack(1, 1, 1);
    UnpackPack(LOGGER_ID_LOGGER_C, WARNING_LINE, 0);
  }

  lemma RecordStep(q: seq<Entry>, op: Op, added: seq<Entry>)
    requires op.Record? && |q| <= 2
    requires var e := Pack(op.file, op.line, op.data);
             added == if |q| == 0 then [e, FillWarning()] else if |q| == 1 then [e] else []
    ensures After(q, 2, op) == q + added && Added(q, 2, op) == added
  {
    hide Pack, FillWarning;
  }

  lemma ReadStep(e: Entry, rest: seq<Entry>)
    ensures After([e] + rest, 2, Op.Read) == rest
  {
    hide Pack;
  }

  lemma RunOfSix(queues: seq<seq<Entry>>, capacity: nat, ops: seq<Op>)
    requires |ops| == 6 && |queues| == 7 && queues[0] == []
    requires queues[1] == After(queues[0], capacity, ops[0]) && queues[2] == After(queues[1], capacity, ops[1])
    requires queues[3] == After(queues[2], capacity, ops[2]) && queues[4] == After(queues[3], capacity, ops[3])
    requires queues[5] == After(queues[4], capacity, ops[4]) && queues[6] == After(queues[5], capacity, ops[5])
    ensures Run(queues, capacity, ops)
  {
    hide After;
  }
}
