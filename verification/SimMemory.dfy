/** The simulation memory of sim/unit_test/io_writer.py: a sorted list of start addresses, searched
    with bisect, and a byte array per start address, compared with a flat memory of bytes. */
module SimMemory {
  import opened Bytes

  /** `allocation_addresses` and `allocations`. */
  datatype Mem = Mem(addresses: seq<int>, allocations: map<int, seq<Byte>>)

  /** bisect.bisect_right: how many addresses are at most v, in a sorted list. */
  function BisectRight(a: seq<int>, v: int): (p: nat)
    ensures p <= |a|
    ensures p > 0 ==> a[p - 1] <= v
    ensures forall i :: p <= i < |a| ==> a[i] > v
  {
    if a == [] then 0 else if a[|a| - 1] <= v then |a| else BisectRight(a[..|a| - 1], v)
  }

  predicate Known(m: Mem) {
    forall i :: 0 <= i < |m.addresses| ==> m.addresses[i] in m.allocations
  }

  /** The address after the last byte of segment i. */
  function End(m: Mem, i: nat): int
    requires Known(m) && i < |m.addresses|
  {
    m.addresses[i] + |m.allocations[m.addresses[i]]|
  }

  /** There is a gap between segment i and the next. */
  predicate Gap(m: Mem, i: nat)
    requires Known(m) && i + 1 < |m.addresses|
  {
    End(m, i) < m.addresses[i + 1]
  }

  /** Segments are not empty, sorted, disjoint, and never touch. */
  predicate Valid(m: Mem) {
    && Known(m)
    && (forall i :: 0 <= i < |m.addresses| ==> m.addresses[i] < End(m, i))
    && (forall i :: 0 <= i < |m.addresses| - 1 ==> Gap(m, i))
  }

  // ---------------------------------------------------------------- lookups

  /** _get_containing_or_neighboring_allocation: the segment that holds v or ends right before it. */
  function Neighbouring(m: Mem, v: int): Option<nat>
    requires Known(m)
  {
    var p := BisectRight(m.addresses, v);
    if p > 0 && v <= End(m, p - 1) then Some(p - 1) else None
  }

  /** _get_containing_allocation. */
  function Containing(m: Mem, v: int, size: int): Option<nat>
    requires Known(m)
  {
    match Neighbouring(m, v)
    case None => None
    case Some(i) => if End(m, i) - 1 >= v + size - 1 then Some(i) else None
  }

  /** _get_next_free_address. */
  function NextFree(m: Mem): int
    requires Known(m)
  {
    if m.addresses == [] then 0 else End(m, |m.addresses| - 1)
  }

  // ---------------------------------------------------------------- the flat memory

  /** A flat memory: the byte at each allocated address. */
  type Flat = int -> Option<Byte>

  /** Address a lies in segment i. */
  predicate Holds(m: Mem, i: nat, a: int)
    requires Known(m)
  {
    i < |m.addresses| && m.addresses[i] <= a < End(m, i)
  }

  function ByteIn(m: Mem, i: nat, a: int): Byte
    requires Known(m) && Holds(m, i, a)
  {
    m.allocations[m.addresses[i]][a - m.addresses[i]]
  }

  /** m stores exactly the bytes of f. */
  ghost predicate Stores(m: Mem, f: Flat) {
    && Valid(m)
    && (forall i: nat, a: int :: Holds(m, i, a) ==> f(a) == Some(ByteIn(m, i, a)))
    && (forall a :: f(a).Some? ==> exists i: nat :: Holds(m, i, a))
  }

  /** The range is allocated; for an empty range, the code asks that it lie in or right after a segment. */
  ghost predicate Covered(f: Flat, v: int, size: int) {
    if size > 0 then forall a :: v <= a < v + size ==> f(a).Some?
    else f(v).Some? || f(v - 1).Some?
  }

  function FlatAlloc(f: Flat, v: int, size: nat): Flat {
    a => if v <= a < v + size && f(a).None? then Some(0) else f(a)
  }

  function FlatWrite(f: Flat, v: int, data: seq<Byte>): Flat {
    a => if v <= a < v + |data| then Some(data[a - v]) else f(a)
  }

  /** Any two segments are apart, and in order. */
  lemma {:induction false} Apart(m: Mem, i: nat, j: nat)
    requires Valid(m) && i < |m.addresses| && j < |m.addresses| && i != j
    ensures m.addresses[i] != m.addresses[j]
    ensures i < j ==> End(m, i) < m.addresses[j]
    ensures j < i ==> End(m, j) < m.addresses[i]
    decreases if i < j then j - i else i - j
  {
    if i < j {
      assert Gap(m, j - 1);
      if i + 1 < j { Apart(m, i, j - 1); }
    } else {
      assert Gap(m, i - 1);
      if j + 1 < i { Apart(m, i - 1, j); }
    }
  }

  lemma OneSegment(m: Mem, i: nat, j: nat, a: int)
    requires Valid(m) && i < |m.addresses| && m.addresses[i] <= a <= End(m, i)
    requires j < |m.addresses| && m.addresses[j] <= a <= End(m, j)
    ensures i == j
  {
    if i != j { Apart(m, i, j); }
  }

  lemma NeighbourIsThePlace(m: Mem, v: int, i: nat)
    requires Valid(m) && i < |m.addresses| && m.addresses[i] <= v <= End(m, i)
    ensures Neighbouring(m, v) == Some(i)
  {
    var p := BisectRight(m.addresses, v);
    assert i < p;
    var q: nat := p - 1;
    if i != q { Apart(m, i, q); }
  }

  /** All of an allocated range lies in the segment of its first address. */
  lemma RangeInOneSegment(m: Mem, f: Flat, v: int, size: nat, i: nat)
    requires Stores(m, f) && size > 0 && Holds(m, i, v) && forall a :: v <= a < v + size ==> f(a).Some?
    ensures v + size <= End(m, i)
  {
    var e := End(m, i);
    if v + size > e {
      assert f(e).Some?;
      var j: nat :| Holds(m, j, e);
      OneSegment(m, i, j, e);
    }
  }

  /** The bisect lookup succeeds exactly on ranges all of whose bytes are allocated, and then finds the
      segment that holds them. */
  lemma LookupIffAllocated(m: Mem, f: Flat, v: int, size: int)
    requires Stores(m, f)
    ensures Containing(m, v, size).Some? <==> Covered(f, v, size)
    ensures Containing(m, v, size).Some? ==>
              var i := Containing(m, v, size).value;
              i < |m.addresses| && m.addresses[i] <= v && v + size <= End(m, i)
  {
    if Containing(m, v, size).Some? {
      var i := Containing(m, v, size).value;
      if size > 0 {
        forall a | v <= a < v + size
          ensures f(a).Some?
        {
          assert Holds(m, i, a);
        }
      } else if v < End(m, i) {
        assert Holds(m, i, v);
      } else {
        assert Holds(m, i, v - 1);
      }
    }
    if Covered(f, v, size) {
      var a := if size > 0 || f(v).Some? then v else v - 1;
      assert f(a).Some?;
      var i: nat :| Holds(m, i, a);
      NeighbourIsThePlace(m, v, i);
      if size > 0 { RangeInOneSegment(m, f, v, size, i); }
    }
  }

  // ---------------------------------------------------------------- updates

  /** _add_memory_allocation: extends the segment at hand with zero bytes, or inserts a new one. */
  function AddAllocation(m: Mem, v: int, size: nat): Mem
    requires Known(m)
  {
    match Neighbouring(m, v)
    case Some(i) =>
      var start := m.addresses[i];
      var increase := (v + size - 1) - (End(m, i) - 1);
      if increase > 0 then m.(allocations := m.allocations[start := m.allocations[start] + Zeros(increase)]) else m
    case None =>
      var p := BisectRight(m.addresses, v);
      Mem(m.addresses[..p] + [v] + m.addresses[p..], m.allocations[v := Zeros(size)])
  }

  function Zeros(n: nat): (r: seq<Byte>)
    ensures |r| == n && forall i :: 0 <= i < n ==> r[i] == 0
  {
    seq(n, _ => 0)
  }

  /** The new range ends before the next segment begins, or lies within a segment already. */
  predicate HasRoom(m: Mem, v: int, size: nat)
    requires Known(m)
  {
    var p := BisectRight(m.addresses, v);
    || p == |m.addresses| || v + size < m.addresses[p]
    || (p > 0 && v + size <= End(m, p - 1))
  }

  /** The same of the flat memory: nothing is allocated behind a free address, up to the end of the new range. */
  ghost predicate FlatRoom(f: Flat, v: int, size: nat) {
    forall a, b :: v <= a < b <= v + size && f(b).Some? ==> f(a).Some?
  }

  lemma RoomIsFlat(m: Mem, f: Flat, v: int, size: nat)
    requires Stores(m, f) && size > 0
    ensures HasRoom(m, v, size) <==> FlatRoom(f, v, size)
  {
    var p := BisectRight(m.addresses, v);
    if HasRoom(m, v, size) {
      forall a, b | v <= a < b <= v + size && f(b).Some?
        ensures f(a).Some?
      {
        BeforeIsFilled(m, f, v, a, b, size);
      }
    } else {
      var a, b := if p > 0 && End(m, p - 1) > v then End(m, p - 1) else v, m.addresses[p];
      assert Holds(m, p, b);
      if p > 0 { assert Gap(m, p - 1); }
      if f(a).Some? {
        var i: nat :| Holds(m, i, a);
        if i < p - 1 { Apart(m, i, p - 1); }
        if i > p { Apart(m, p, i); }
      }
    }
  }

  lemma BeforeIsFilled(m: Mem, f: Flat, v: int, a: int, b: int, size: nat)
    requires Stores(m, f) && HasRoom(m, v, size) && v <= a < b <= v + size && f(b).Some?
    ensures f(a).Some?
  {
    var p := BisectRight(m.addresses, v);
    var i: nat :| Holds(m, i, b);
    if i < p {
      if i < p - 1 { Apart(m, i, p - 1); }
      assert Holds(m, i, a);
    } else {
      if i > p { Apart(m, p, i); }
      assert Holds(m, p - 1, a);
    }
  }

  /** Slice assignment of as many bytes as the slice has. */
  function Overwrite(seg: seq<Byte>, at: nat, data: seq<Byte>): (r: seq<Byte>)
    requires at + |data| <= |seg|
    ensures |r| == |seg|
    ensures forall i :: 0 <= i < |seg| ==> r[i] == if at <= i < at + |data| then data[i - at] else seg[i]
  {
    seg[..at] + data + seg[at + |data|..]
  }

  function WriteBytes(m: Mem, i: nat, v: int, data: seq<Byte>): Mem
    requires Known(m) && i < |m.addresses| && m.addresses[i] <= v && v + |data| <= End(m, i)
  {
    var start := m.addresses[i];
    m.(allocations := m.allocations[start := Overwrite(m.allocations[start], v - start, data)])
  }

  lemma WriteStores(m: Mem, f: Flat, i: nat, v: int, data: seq<Byte>)
    requires Stores(m, f) && i < |m.addresses| && m.addresses[i] <= v && v + |data| <= End(m, i)
    ensures Stores(WriteBytes(m, i, v, data), FlatWrite(f, v, data))
  {
    var m', f' := WriteBytes(m, i, v, data), FlatWrite(f, v, data);
    forall j: nat | j < |m.addresses|
      ensures End(m', j) == End(m, j) && (j != i ==> m'.allocations[m.addresses[j]] == m.allocations[m.addresses[j]])
    {
      if j != i { Apart(m, i, j); }
    }
    forall j: nat | j + 1 < |m.addresses|
      ensures Gap(m', j)
    {
      assert Gap(m, j);
    }
    forall j: nat, a: int | Holds(m', j, a)
      ensures f'(a) == Some(ByteIn(m', j, a))
    {
      assert Holds(m, j, a);
      if v <= a < v + |data| { OneSegment(m, i, j, a); }
    }
    forall a | f'(a).Some?
      ensures exists j: nat :: Holds(m', j, a)
    {
      if v <= a < v + |data| {
        assert Holds(m', i, a);
      } else {
        var j: nat :| Holds(m, j, a);
        assert Holds(m', j, a);
      }
    }
  }

  /** Extending segment i by n zero bytes, when that keeps it away from the next segment. */
  lemma ExtendStores(m: Mem, f: Flat, i: nat, n: nat, m': Mem)
    requires Stores(m, f) && i < |m.addresses| && n > 0
    requires i + 1 == |m.addresses| || End(m, i) + n < m.addresses[i + 1]
    requires m' == m.(allocations := m.allocations[m.addresses[i] := m.allocations[m.addresses[i]] + Zeros(n)])
    ensures Stores(m', FlatAlloc(f, End(m, i), n))
  {
    var e, f' := End(m, i), FlatAlloc(f, End(m, i), n);
    forall j: nat | j < |m.addresses|
      ensures End(m', j) == (if j == i then e + n else End(m, j))
      ensures j != i ==> m'.allocations[m.addresses[j]] == m.allocations[m.addresses[j]]
      ensures j > i ==> e + n < m.addresses[j]
    {
      if j != i { Apart(m, i, j); }
      if j > i + 1 { Apart(m, i + 1, j); }
    }
    ExtendedIsValid(m, i, n, m');
    forall j: nat, a: int | Holds(m', j, a)
      ensures f'(a) == Some(ByteIn(m', j, a))
    {
      if Holds(m, j, a) {
      } else if f(a).Some? {
        var k: nat :| Holds(m, k, a);
        OneSegment(m', j, k, a);
      }
    }
    forall a | f'(a).Some?
      ensures exists j: nat :: Holds(m', j, a)
    {
      if f(a).Some? {
        var j: nat :| Holds(m, j, a);
        assert Holds(m', j, a);
      } else {
        assert Holds(m', i, a);
      }
    }
  }

  lemma ExtendedIsValid(m: Mem, i: nat, n: nat, m': Mem)
    requires Valid(m) && i < |m.addresses| && m'.addresses == m.addresses
    requires Known(m')
    requires forall j: nat :: j < |m.addresses| ==> End(m', j) == End(m, j) + if j == i then n else 0
    requires i + 1 < |m.addresses| ==> End(m, i) + n < m.addresses[i + 1]
    ensures Valid(m')
  {
    forall j: nat | j + 1 < |m.addresses|
      ensures Gap(m', j)
    {
      assert Gap(m, j);
    }
  }

  /** m' is m with a segment of zero bytes at [v, v + size) put before segment p. */
  predicate Inserted(m: Mem, p: nat, v: int, size: nat, m': Mem) {
    && Known(m) && size > 0 && p <= |m.addresses|
    && (p > 0 ==> End(m, p - 1) < v) && (p < |m.addresses| ==> v + size < m.addresses[p])
    && m' == Mem(m.addresses[..p] + [v] + m.addresses[p..], m.allocations[v := Zeros(size)])
  }

  /** The segment of m that is segment j of m'. */
  function Origin(p: nat, j: nat): nat
    requires j != p
  {
    if j < p then j else j - 1
  }

  lemma SegmentAt(m: Mem, p: nat, v: int, size: nat, m': Mem, j: nat)
    requires Valid(m) && Inserted(m, p, v, size, m') && j < |m'.addresses|
    ensures m'.addresses[j] in m'.allocations
    ensures j == p ==> m'.addresses[j] == v && m'.allocations[v] == Zeros(size)
    ensures j != p ==>
              var k := Origin(p, j);
              && k < |m.addresses| && m'.addresses[j] == m.addresses[k]
              && m'.allocations[m'.addresses[j]] == m.allocations[m.addresses[k]]
              && (j < p ==> End(m, k) < v) && (j > p ==> v + size < m.addresses[k])
  {
    if j != p {
      var k := Origin(p, j);
      if k + 1 < p { Apart(m, k, p - 1); }
      if k > p { Apart(m, p, k); }
    }
  }

  lemma InsertedIsValid(m: Mem, p: nat, v: int, size: nat, m': Mem)
    requires Valid(m) && Inserted(m, p, v, size, m')
    ensures Valid(m')
  {
    forall j: nat | j < |m'.addresses|
      ensures m'.addresses[j] in m'.allocations && 0 < |m'.allocations[m'.addresses[j]]|
    {
      SegmentAt(m, p, v, size, m', j);
      if j != p { assert m.addresses[Origin(p, j)] < End(m, Origin(p, j)); }
    }
    forall i: nat | i + 1 < |m'.addresses|
      ensures Gap(m', i)
    {
      InsertedGap(m, p, v, size, m', i);
    }
  }

  lemma InsertedGap(m: Mem, p: nat, v: int, size: nat, m': Mem, i: nat)
    requires Valid(m) && Inserted(m, p, v, size, m') && Known(m') && i + 1 < |m'.addresses|
    ensures Gap(m', i)
  {
    SegmentAt(m, p, v, size, m', i);
    SegmentAt(m, p, v, size, m', i + 1);
    if i != p && i + 1 != p { assert Gap(m, Origin(p, i)); }
  }

  lemma InsertStores(m: Mem, f: Flat, p: nat, v: int, size: nat, m': Mem)
    requires Stores(m, f) && Inserted(m, p, v, size, m')
    ensures Stores(m', FlatAlloc(f, v, size))
  {
    InsertedIsValid(m, p, v, size, m');
    forall j: nat, a: int | Holds(m', j, a)
      ensures FlatAlloc(f, v, size)(a) == Some(ByteIn(m', j, a))
    {
      InsertedByte(m, f, p, v, size, m', j, a);
    }
    forall a: int | FlatAlloc(f, v, size)(a).Some?
      ensures exists j: nat :: Holds(m', j, a)
    {
      if f(a).Some? {
        var k: nat :| Holds(m, k, a);
        var j := if k < p then k else k + 1;
        SegmentAt(m, p, v, size, m', j);
        assert Holds(m', j, a);
      } else {
        assert Holds(m', p, a);
      }
    }
  }

  lemma InsertedByte(m: Mem, f: Flat, p: nat, v: int, size: nat, m': Mem, j: nat, a: int)
    requires Stores(m, f) && Inserted(m, p, v, size, m') && Known(m') && Holds(m', j, a)
    ensures FlatAlloc(f, v, size)(a) == Some(ByteIn(m', j, a))
  {
    SegmentAt(m, p, v, size, m', j);
    if j != p {
      assert Holds(m, Origin(p, j), a);
    } else if f(a).Some? {
      var k: nat :| Holds(m, k, a);
      SegmentAt(m, p, v, size, m', if k < p then k else k + 1);
    }
  }

  /** Allocating anywhere keeps the segments sorted, disjoint and apart exactly when the new range ends
      before the next segment begins or was allocated already; and then it adds zero bytes where there
      were none and changes no byte. */
  lemma AllocationNeedsRoom(m: Mem, f: Flat, v: int, size: nat)
    requires Stores(m, f) && size > 0
    ensures Valid(AddAllocation(m, v, size)) <==> HasRoom(m, v, size)
    ensures HasRoom(m, v, size) ==> Stores(AddAllocation(m, v, size), FlatAlloc(f, v, size))
  {
    if HasRoom(m, v, size) {
      AllocationStores(m, f, v, size);
    } else {
      NoRoom(m, v, size);
    }
  }

  lemma SameFlat(m: Mem, f: Flat, g: Flat)
    requires Stores(m, f) && forall a :: f(a) == g(a)
    ensures Stores(m, g)
  {
    forall a | g(a).Some?
      ensures exists i: nat :: Holds(m, i, a)
    {
      assert f(a).Some?;
    }
  }

  lemma AllocationStores(m: Mem, f: Flat, v: int, size: nat)
    requires Stores(m, f) && size > 0 && HasRoom(m, v, size)
    ensures Stores(AddAllocation(m, v, size), FlatAlloc(f, v, size))
  {
    var m', p := AddAllocation(m, v, size), BisectRight(m.addresses, v);
    match Neighbouring(m, v) {
      case None => InsertStores(m, f, p, v, size, m');
      case Some(i) =>
        var e := End(m, i);
        forall a | v <= a < e
          ensures f(a).Some?
        {
          assert Holds(m, i, a);
        }
        if v + size > e {
          ExtendStores(m, f, i, v + size - e, m');
          SameFlat(m', FlatAlloc(f, e, v + size - e), FlatAlloc(f, v, size));
        } else {
          SameFlat(m', f, FlatAlloc(f, v, size));
        }
    }
  }

  lemma NoRoom(m: Mem, v: int, size: nat)
    requires Valid(m) && size > 0 && !HasRoom(m, v, size)
    ensures !Valid(AddAllocation(m, v, size))
  {
    var m', p := AddAllocation(m, v, size), BisectRight(m.addresses, v);
    match Neighbouring(m, v) {
      case None =>
        assert m'.addresses[p] == v && m'.addresses[p + 1] == m.addresses[p];
        assert !(Known(m') && Gap(m', p));
      case Some(i) =>
        assert !(Known(m') && Gap(m', i));
    }
  }
}
