/** The memory half of SimulationIOWriter as the object it is, and what holds over every sequence of
    calls to it. */
module SimMemoryObject {
  import opened Bytes
  import opened SimMemory

  class SimulationMemory {
    var addresses: seq<int>
    var allocations: map<int, seq<Byte>>
    /** The flat memory the segments stand for. */
    ghost var flat: Flat

    constructor ()
      ensures Valid() && flat == Empty() && Top() == 0
    {
      addresses, allocations, flat := [], map[], Empty();
    }

    function View(): Mem
      reads this
    {
      Mem(addresses, allocations)
    }

    ghost predicate Valid()
      reads this
    {
      Stores(View(), flat)
    }

    /** The next free address. */
    ghost function Top(): int
      requires Valid()
      reads this
    {
      NextFree(View())
    }

    /** _add_memory_allocation */
    method AddMemoryAllocation(v: int, size: nat)
      requires Known(View())
      modifies this`addresses, this`allocations
      ensures View() == AddAllocation(old(View()), v, size)
    {
      var existing := Neighbouring(View(), v);
      if existing.Some? {
        var start := addresses[existing.value];
        var increase := (v + size - 1) - (start + |allocations[start]| - 1);
        if increase > 0 {
          allocations := allocations[start := allocations[start] + Zeros(increase)];
        }
      } else {
        var p := BisectRight(addresses, v);
        addresses := addresses[..p] + [v] + addresses[p..];
        allocations := allocations[v := Zeros(size)];
      }
    }

    /** allocate_sim_memory: at least one byte at any address; a negative size is an assertion failure. The
        segments stay in order exactly when there is room. */
    method Allocate(v: int, size: int) returns (ok: bool)
      requires Valid()
      modifies this
      ensures ok <==> size >= 0
      ensures !ok ==> View() == old(View()) && flat == old(flat)
      ensures ok ==>
                && View() == AddAllocation(old(View()), v, AtLeastOne(size))
                && flat == FlatAlloc(old(flat), v, AtLeastOne(size))
                && (Valid() <==> FlatRoom(old(flat), v, AtLeastOne(size)))
                && (v >= old(Top()) ==> Valid())
                && (Valid() ==> Top() == NewTop(FlatState(old(flat), old(Top())), v, AtLeastOne(size)))
    {
      ok := size >= 0;
      if ok {
        AllocationFacts(View(), flat, v, AtLeastOne(size));
        hide AddAllocation, Stores, FlatRoom, FlatAlloc, NewTop;
        KnownIfStored(View(), flat);
        AddMemoryAllocation(v, AtLeastOne(size));
        flat := FlatAlloc(flat, v, AtLeastOne(size));
      }
    }

    /** allocate_next_free_sim_memory: a positive offset leaves a gap; a negative one goes back among the segments,
        where there may be no room. */
    method AllocateNextFree(len: int, offset: int) returns (address: Option<int>)
      requires Valid()
      modifies this
      ensures address.None? <==> len < 0
      ensures address.None? ==> Valid() && flat == old(flat) && Top() == old(Top())
      ensures address.Some? ==>
                && address.value == old(Top()) + offset
                && flat == FlatAlloc(old(flat), address.value, AtLeastOne(len))
                && (Valid() <==> FlatRoom(old(flat), address.value, AtLeastOne(len)))
                && (offset >= 0 ==> Valid())
                && (Valid() ==> Top() == NewTop(FlatState(old(flat), old(Top())), address.value, AtLeastOne(len)))
    {
      var v := NextFree(View()) + offset;
      hide AddAllocation, Stores, FlatRoom, FlatAlloc, NewTop;
      var ok := Allocate(v, len);
      address := if ok then Some(v) else None;
    }

    /** write_to_sim_memory, and the update made for a write of the simulator. */
    method WriteTo(v: int, data: seq<Byte>) returns (ok: bool)
      requires Valid()
      modifies this
      ensures Valid() && Top() == old(Top())
      ensures ok <==> Covered(old(flat), v, |data|)
      ensures flat == if ok then FlatWrite(old(flat), v, data) else old(flat)
    {
      LookupIffAllocated(View(), flat, v, |data|);
      var i := Containing(View(), v, |data|);
      if i.None? {
        return false;
      }
      var start := addresses[i.value];
      WriteStores(View(), flat, i.value, v, data);
      TopUnchanged(View(), i.value, v, data);
      allocations := allocations[start := Overwrite(allocations[start], v - start, data)];
      flat := FlatWrite(flat, v, data);
      ok := true;
    }

    /** read_from_sim_memory */
    method ReadFrom(v: int, size: nat) returns (bytes: Option<seq<Byte>>)
      requires Valid()
      ensures bytes.Some? <==> Covered(flat, v, size)
      ensures bytes.Some? ==> |bytes.value| == size && forall k :: 0 <= k < size ==> flat(v + k) == Some(bytes.value[k])
    {
      LookupIffAllocated(View(), flat, v, size);
      var i := Containing(View(), v, size);
      if i.None? {
        return None;
      }
      var start := addresses[i.value];
      var result := allocations[start][v - start..v - start + size];
      ghost var m := View();
      forall k | 0 <= k < size
        ensures flat(v + k) == Some(result[k])
      {
        assert Holds(m, i.value, v + k);
        assert ByteIn(m, i.value, v + k) == result[k];
      }
      bytes := Some(result);
    }

    /** Any sequence of calls each of whose allocations has room. */
    method Replay(calls: seq<Call>) returns (answers: seq<Answer>)
      requires Valid() && Roomy(FlatState(flat, Top()), calls)
      modifies this
      ensures Valid()
      ensures FlatState(flat, Top()) == RunCalls(FlatState(old(flat), old(Top())), calls)
      ensures answers == Answers(FlatState(old(flat), old(Top())), calls)
    {
      hide AddAllocation, Stores, FlatRoom, FlatAlloc, FlatWrite, Covered, FlatRead, NewTop;
      answers := [];
      var i := 0;
      ghost var start := FlatState(flat, Top());
      while i < |calls|
        invariant 0 <= i <= |calls| && Valid()
        invariant FlatState(flat, Top()) == RunCalls(start, calls[..i]) && answers == Answers(start, calls[..i])
      {
        ghost var before := FlatState(flat, Top());
        assert RoomFor(before, calls[i]);
        var answer;
        match calls[i] {
          case Allocate(len, offset) =>
            var address := AllocateNextFree(len, offset);
            answer := if address.Some? then Address(address.value) else Refused;
          case Write(v, data) =>
            var ok := WriteTo(v, data);
            answer := if ok then Done else Refused;
          case Read(v, size) =>
            var bytes := ReadFrom(v, size);
            if bytes.Some? { OnlyRead(flat, v, size, bytes.value); }
            answer := if bytes.Some? then Bytes(bytes.value) else Refused;
        }
        assert calls[..i + 1][..i] == calls[..i];
        answers := answers + [answer];
        i := i + 1;
      }
      assert calls[..i] == calls;
    }
  }

  function Empty(): Flat {
    a => None
  }

  /** A length, or one byte for none. */
  function AtLeastOne(n: nat): (r: nat)
    ensures (n > 0 ==> r == n) && (n == 0 ==> r == 1)
  {
    if n == 0 then 1 else n
  }

  /** The bytes of a range; unallocated addresses do not occur in the ranges it is used on. */
  function FlatRead(f: Flat, v: int, size: nat): (r: seq<Byte>)
    ensures |r| == size && forall k :: 0 <= k < size && f(v + k).Some? ==> f(v + k) == Some(r[k])
  {
    seq(size, k => match f(v + k) case Some(b) => b case None => 0)
  }

  lemma OnlyRead(f: Flat, v: int, size: nat, bytes: seq<Byte>)
    requires |bytes| == size && forall k :: 0 <= k < size ==> f(v + k) == Some(bytes[k])
    ensures bytes == FlatRead(f, v, size)
  {
  }

  lemma AboveAll(m: Mem, v: int)
    requires SimMemory.Valid(m) && v >= NextFree(m)
    ensures BisectRight(m.addresses, v) == |m.addresses| && HasRoom(m, v, 1)
  {
    if m.addresses != [] { assert m.addresses[|m.addresses| - 1] < End(m, |m.addresses| - 1); }
  }

  lemma TopAfter(m: Mem, v: int, size: nat)
    requires SimMemory.Valid(m) && HasRoom(m, v, size) && size > 0
    ensures var m', top := AddAllocation(m, v, size), NextFree(m);
            Known(m') && NextFree(m') == if m.addresses == [] || top < v + size then v + size else top
  {
    var p, last := BisectRight(m.addresses, v), |m.addresses| - 1;
    match Neighbouring(m, v) {
      case None => if p < last { Apart(m, p, last); }
      case Some(i) => if i < last { Apart(m, i, last); EndKept(m, v, size, i); }
    }
  }

  /** The last segment keeps its end when another one is extended. */
  lemma EndKept(m: Mem, v: int, size: nat, i: nat)
    requires SimMemory.Valid(m) && Neighbouring(m, v) == Some(i) && i < |m.addresses| - 1 && HasRoom(m, v, size)
    ensures var m' := AddAllocation(m, v, size);
            Known(m') && NextFree(m') == NextFree(m) > v + size
  {
    var p, last := BisectRight(m.addresses, v), |m.addresses| - 1;
    Apart(m, i, last);
    if p < last { Apart(m, p, last); }
  }

  lemma KnownIfStored(m: Mem, f: Flat)
    requires Stores(m, f)
    ensures Known(m)
  {
  }

  /** Allocating anywhere, and allocating after everything. */
  lemma AllocationFacts(m: Mem, f: Flat, v: int, size: nat)
    requires Stores(m, f) && size > 0
    ensures Stores(AddAllocation(m, v, size), FlatAlloc(f, v, size)) <==> FlatRoom(f, v, size)
    ensures v >= NextFree(m) ==> FlatRoom(f, v, size)
    ensures FlatRoom(f, v, size) ==>
              && Known(AddAllocation(m, v, size))
              && NextFree(AddAllocation(m, v, size)) == NewTop(FlatState(f, NextFree(m)), v, size)
  {
    AllocationNeedsRoom(m, f, v, size);
    RoomIsFlat(m, f, v, size);
    NothingStored(m, f);
    if v >= NextFree(m) { AboveAll(m, v); }
    if HasRoom(m, v, size) { TopAfter(m, v, size); }
    hide AddAllocation, FlatAlloc, FlatRoom, Stores;
  }

  lemma NothingStored(m: Mem, f: Flat)
    requires Stores(m, f)
    ensures m.addresses == [] <==> forall a :: f(a).None?
  {
    if m.addresses != [] { assert Holds(m, 0, m.addresses[0]); }
  }

  lemma TopUnchanged(m: Mem, i: nat, v: int, data: seq<Byte>)
    requires SimMemory.Valid(m) && i < |m.addresses| && m.addresses[i] <= v && v + |data| <= End(m, i)
    ensures Known(WriteBytes(m, i, v, data)) && NextFree(WriteBytes(m, i, v, data)) == NextFree(m)
  {
    var last := |m.addresses| - 1;
    if i != last { Apart(m, i, last); }
  }

  // ---------------------------------------------------------------- every sequence of calls

  datatype Call = Allocate(len: int, offset: int) | Write(v: int, data: seq<Byte>) | Read(v: int, size: nat)

  datatype Answer = Refused | Address(address: int) | Done | Bytes(bytes: seq<Byte>)

  datatype FlatState = FlatState(flat: Flat, top: int)

  /** The end of everything allocated, after an allocation. */
  ghost function NewTop(st: FlatState, v: int, size: nat): int {
    if st.top < v + size || (forall a :: st.flat(a).None?) then v + size else st.top
  }

  /** The call is no allocation, or one with room. */
  ghost predicate RoomFor(st: FlatState, c: Call) {
    c.Allocate? && c.len >= 0 ==> FlatRoom(st.flat, st.top + c.offset, AtLeastOne(c.len))
  }

  ghost predicate Roomy(st: FlatState, calls: seq<Call>) {
    forall i :: 0 <= i < |calls| ==> RoomFor(RunCalls(st, calls[..i]), calls[i])
  }

  /** Nothing is allocated from `top` on. */
  ghost predicate BelowTop(st: FlatState) {
    forall a :: st.flat(a).Some? ==> a < st.top
  }

  /** A call as the documentation has it: an offset leaves a gap after the last allocation. */
  type UpwardCall = c: Call | c.Allocate? ==> c.offset >= 0 witness Read(0, 0)

  lemma StaysBelowTop(st: FlatState, c: UpwardCall)
    requires BelowTop(st)
    ensures RoomFor(st, c) && BelowTop(ApplyCall(st, c))
  {
    var st' := ApplyCall(st, c);
    forall a | st'.flat(a).Some?
      ensures a < st'.top
    {
      if c.Write? { assert st.flat(a).Some?; }
    }
  }

  lemma {:induction false} RunsBelowTop(st: FlatState, calls: seq<UpwardCall>)
    requires BelowTop(st)
    ensures BelowTop(RunCalls(st, calls))
  {
    if calls != [] {
      RunsBelowTop(st, calls[..|calls| - 1]);
      StaysBelowTop(RunCalls(st, calls[..|calls| - 1]), calls[|calls| - 1]);
    }
  }

  /** Such calls always have room. */
  lemma UpwardIsRoomy(st: FlatState, calls: seq<UpwardCall>)
    requires BelowTop(st)
    ensures Roomy(st, calls)
  {
    forall i | 0 <= i < |calls|
      ensures RoomFor(RunCalls(st, calls[..i]), calls[i])
    {
      RunsBelowTop(st, calls[..i]);
      StaysBelowTop(RunCalls(st, calls[..i]), calls[i]);
    }
  }

  lemma StoredBelowTop(m: Mem, f: Flat)
    requires Stores(m, f)
    ensures BelowTop(FlatState(f, NextFree(m)))
  {
    forall a | f(a).Some?
      ensures a < NextFree(m)
    {
      var i: nat :| Holds(m, i, a);
      if i < |m.addresses| - 1 { Apart(m, i, |m.addresses| - 1); }
    }
  }

  /** The call takes effect: allocations of a negative length and writes outside allocated memory do not. */
  ghost predicate Accepted(st: FlatState, c: Call) {
    match c
    case Allocate(len, _) => len >= 0
    case Write(v, data) => Covered(st.flat, v, |data|)
    case Read(v, size) => Covered(st.flat, v, size)
  }

  ghost function ApplyCall(st: FlatState, c: Call): FlatState {
    if !Accepted(st, c) then st
    else
      match c
      case Allocate(len, offset) =>
        var v, size := st.top + offset, AtLeastOne(len);
        FlatState(FlatAlloc(st.flat, v, size), NewTop(st, v, size))
      case Write(v, data) => st.(flat := FlatWrite(st.flat, v, data))
      case Read(_, _) => st
  }

  ghost function AnswerTo(st: FlatState, c: Call): Answer {
    if !Accepted(st, c) then Refused
    else
      match c
      case Allocate(len, offset) => Address(st.top + offset)
      case Write(_, _) => Done
      case Read(v, size) => Bytes(FlatRead(st.flat, v, size))
  }

  ghost function RunCalls(st: FlatState, calls: seq<Call>): FlatState {
    if calls == [] then st else ApplyCall(RunCalls(st, calls[..|calls| - 1]), calls[|calls| - 1])
  }

  ghost function Answers(st: FlatState, calls: seq<Call>): seq<Answer> {
    if calls == [] then []
    else Answers(st, calls[..|calls| - 1]) + [AnswerTo(RunCalls(st, calls[..|calls| - 1]), calls[|calls| - 1])]
  }

  const START: FlatState := FlatState(Empty(), 0)

  /** Call i was an accepted write of address a. */
  ghost predicate Wrote(st: FlatState, calls: seq<Call>, i: nat, a: int) {
    && i < |calls| && calls[i].Write? && calls[i].v <= a < calls[i].v + |calls[i].data|
    && Accepted(RunCalls(st, calls[..i]), calls[i])
  }

  /** Call i was an accepted allocation that covers address a. */
  ghost predicate Gave(st: FlatState, calls: seq<Call>, i: nat, a: int) {
    && i < |calls| && calls[i].Allocate? && calls[i].len >= 0
    && var first := RunCalls(st, calls[..i]).top + calls[i].offset; first <= a < first + AtLeastOne(calls[i].len)
  }

  lemma PrefixAgrees(st: FlatState, calls: seq<Call>, n: nat, i: nat, a: int)
    requires i < n <= |calls|
    ensures Wrote(st, calls, i, a) == Wrote(st, calls[..n], i, a)
    ensures Gave(st, calls, i, a) == Gave(st, calls[..n], i, a)
  {
    assert calls[..i] == calls[..n][..i];
  }

  /** Over every sequence of calls on any memory: an address holds the byte of the last accepted write that covers
      it. */
  lemma {:induction false} HoldsLastWritten(st: FlatState, calls: seq<Call>, i: nat, a: int)
    requires Wrote(st, calls, i, a) && forall j: nat :: j > i ==> !Wrote(st, calls, j, a)
    ensures RunCalls(st, calls).flat(a) == Some(calls[i].data[a - calls[i].v])
    decreases |calls|
  {
    var n := |calls| - 1;
    if i < n {
      PrefixAgrees(st, calls, n, i, a);
      forall j: nat | j > i
        ensures !Wrote(st, calls[..n], j, a)
      {
        if j < n { PrefixAgrees(st, calls, n, j, a); }
      }
      HoldsLastWritten(st, calls[..n], i, a);
      assert !Wrote(st, calls, n, a);
    }
  }

  /** An address is allocated exactly when it was at the start or an accepted allocation gave it out since. */
  lemma {:induction false} AllocatedIffGiven(st: FlatState, calls: seq<Call>, a: int)
    ensures RunCalls(st, calls).flat(a).Some? <==> st.flat(a).Some? || exists i: nat :: Gave(st, calls, i, a)
  {
    if calls == [] {
      assert forall i: nat :: !Gave(st, calls, i, a);
    } else {
      var n := |calls| - 1;
      AllocatedIffGiven(st, calls[..n], a);
      forall i: nat | i < n
        ensures Gave(st, calls, i, a) == Gave(st, calls[..n], i, a)
      {
        PrefixAgrees(st, calls, n, i, a);
      }
      LastGives(st, calls, a);
      assert forall i: nat :: Gave(st, calls, i, a) ==> i < n || i == n;
      assert forall i: nat :: Gave(st, calls[..n], i, a) ==> i < n;
    }
  }

  /** The last call makes an address allocated exactly by giving it out. */
  lemma LastGives(st: FlatState, calls: seq<Call>, a: int)
    requires calls != []
    ensures var n := |calls| - 1;
            RunCalls(st, calls).flat(a).Some? <==> RunCalls(st, calls[..n]).flat(a).Some? || Gave(st, calls, n, a)
  {
    hide NewTop;
  }

  /** An address never written since holds what it held, or zero if an allocation gave it out, and is unallocated
      otherwise. */
  lemma {:induction false} FreshIsZero(st: FlatState, calls: seq<Call>, a: int)
    requires forall i: nat :: !Wrote(st, calls, i, a)
    ensures var now := RunCalls(st, calls).flat(a);
            if st.flat(a).Some? then now == st.flat(a)
            else now == if exists i: nat :: Gave(st, calls, i, a) then Some(0) else None
  {
    AllocatedIffGiven(st, calls, a);
    if calls != [] {
      var n := |calls| - 1;
      forall i: nat
        ensures !Wrote(st, calls[..n], i, a)
      {
        if i < n { PrefixAgrees(st, calls, n, i, a); }
      }
      FreshIsZero(st, calls[..n], a);
      assert !Wrote(st, calls, n, a);
    }
  }

  /** `top` is the end of everything allocated, and 0 as long as there is nothing. */
  lemma {:induction false} TopIsEnd(calls: seq<Call>)
    ensures var st := RunCalls(START, calls);
            && BelowTop(st)
            && if (forall a :: st.flat(a).None?) then st.top == 0 else st.flat(st.top - 1).Some?
  {
    if calls != [] {
      TopIsEnd(calls[..|calls| - 1]);
      EndMoves(RunCalls(START, calls[..|calls| - 1]), calls[|calls| - 1]);
      hide ApplyCall;
    }
  }

  lemma EndMoves(st: FlatState, c: Call)
    requires BelowTop(st) && if (forall a :: st.flat(a).None?) then st.top == 0 else st.flat(st.top - 1).Some?
    ensures var st' := ApplyCall(st, c);
            && BelowTop(st')
            && if (forall a :: st'.flat(a).None?) then st'.top == 0 else st'.flat(st'.top - 1).Some?
  {
    var st' := ApplyCall(st, c);
    if !Accepted(st, c) {
    } else if c.Allocate? {
      var v, size := st.top + c.offset, AtLeastOne(c.len);
      assert st'.flat(v + size - 1).Some?;
      assert (forall a :: st.flat(a).None?) || st'.flat(st.top - 1).Some?;
    } else if c.Write? {
      assert forall a :: st'.flat(a).Some? <==> st.flat(a).Some?;
    }
  }

  lemma {:induction false} AnswersAt(st: FlatState, calls: seq<Call>, n: nat)
    requires n < |calls|
    ensures |Answers(st, calls)| == |calls|
    ensures Answers(st, calls)[n] == AnswerTo(RunCalls(st, calls[..n]), calls[n])
    decreases |calls|
  {
    hide AnswerTo, RunCalls;
    var last := |calls| - 1;
    if last > 0 {
      AnswersAt(st, calls[..last], if n < last then n else 0);
      assert n < last ==> calls[..last][..n] == calls[..n];
    }
  }

  /** An allocation before call n gave out address a. */
  ghost predicate GivenBefore(calls: seq<Call>, n: nat, a: int) {
    exists i: nat :: i < n && Gave(START, calls, i, a)
  }

  /** Every address of the range was given out before call n. */
  ghost predicate Given(calls: seq<Call>, n: nat, v: int, size: nat) {
    forall a :: v <= a < v + size ==> GivenBefore(calls, n, a)
  }

  lemma AllocatedBefore(calls: seq<Call>, n: nat, a: int)
    requires n <= |calls|
    ensures RunCalls(START, calls[..n]).flat(a).Some? <==> GivenBefore(calls, n, a)
  {
    AllocatedIffGiven(START, calls[..n], a);
    forall i: nat
      ensures i < n ==> Gave(START, calls, i, a) == Gave(START, calls[..n], i, a)
      ensures Gave(START, calls[..n], i, a) ==> i < n
    {
      if i < n { PrefixAgrees(START, calls, n, i, a); }
    }
  }

  /** Which calls on a fresh memory are accepted: allocations of no negative length, and reads and writes of a range
      that earlier allocations gave out. */
  lemma AcceptedIffGiven(calls: seq<Call>, n: nat)
    requires n < |calls|
    ensures |Answers(START, calls)| == |calls|
    ensures var c, answer := calls[n], Answers(START, calls)[n];
            && (c.Allocate? ==> (answer.Refused? <==> c.len < 0))
            && (c.Allocate? && c.len >= 0 ==> answer == Address(RunCalls(START, calls[..n]).top + c.offset))
            && (c.Write? && c.data != [] ==> answer == if Given(calls, n, c.v, |c.data|) then Done else Refused)
            && (c.Read? && c.size > 0 ==> if Given(calls, n, c.v, c.size) then answer.Bytes? else answer.Refused?)
  {
    AnswersAt(START, calls, n);
    var st, c := RunCalls(START, calls[..n]), calls[n];
    forall a
      ensures st.flat(a).Some? <==> GivenBefore(calls, n, a)
    {
      AllocatedBefore(calls, n, a);
    }
    hide GivenBefore, RunCalls, Answers, FlatRead;
  }

  /** Call i was the last accepted write of address a before call n. */
  ghost predicate LastWrote(calls: seq<Call>, n: nat, i: nat, a: int) {
    i < n && Wrote(START, calls, i, a) && forall j: nat :: i < j < n ==> !Wrote(START, calls, j, a)
  }

  lemma WroteBefore(calls: seq<Call>, n: nat, a: int)
    requires n <= |calls|
    ensures forall i: nat :: Wrote(START, calls[..n], i, a) <==> i < n && Wrote(START, calls, i, a)
  {
    forall i: nat
      ensures Wrote(START, calls[..n], i, a) <==> i < n && Wrote(START, calls, i, a)
    {
      if i < n { PrefixAgrees(START, calls, n, i, a); }
    }
  }

  lemma HeldBefore(calls: seq<Call>, n: nat, i: nat, a: int)
    requires n <= |calls| && LastWrote(calls, n, i, a)
    ensures RunCalls(START, calls[..n]).flat(a) == Some(calls[i].data[a - calls[i].v])
  {
    WroteBefore(calls, n, a);
    HoldsLastWritten(START, calls[..n], i, a);
  }

  lemma ZeroBefore(calls: seq<Call>, n: nat, a: int)
    requires n <= |calls| && (forall i: nat :: i < n ==> !Wrote(START, calls, i, a))
    requires RunCalls(START, calls[..n]).flat(a).Some?
    ensures RunCalls(START, calls[..n]).flat(a) == Some(0)
  {
    WroteBefore(calls, n, a);
    FreshIsZero(START, calls[..n], a);
  }

  /** Over every sequence of calls on a fresh memory: an accepted read answers with as many bytes as were asked for,
      each the one last written to its address by an accepted write, and zero where there was none. */
  lemma ReadsLastWritten(calls: seq<Call>, n: nat, k: nat)
    requires n < |calls| == |Answers(START, calls)| && calls[n].Read? && k < calls[n].size
    requires Answers(START, calls)[n].Bytes?
    ensures var bytes, a := Answers(START, calls)[n].bytes, calls[n].v + k;
            && |bytes| == calls[n].size
            && (forall i: nat :: LastWrote(calls, n, i, a) ==> bytes[k] == calls[i].data[a - calls[i].v])
            && ((forall i: nat :: i < n ==> !Wrote(START, calls, i, a)) ==> bytes[k] == 0)
  {
    hide RunCalls, Answers, FlatRead, Wrote, LastWrote;
    AnswersAt(START, calls, n);
    var st, a := RunCalls(START, calls[..n]), calls[n].v + k;
    assert st.flat(a).Some?;
    forall i: nat | LastWrote(calls, n, i, a)
      ensures i < |calls| && calls[i].Write? && 0 <= a - calls[i].v < |calls[i].data|
      ensures st.flat(a) == Some(calls[i].data[a - calls[i].v])
    {
      Covers(calls, n, i, a);
      HeldBefore(calls, n, i, a);
    }
    if forall i: nat :: i < n ==> !Wrote(START, calls, i, a) {
      ZeroBefore(calls, n, a);
    }
  }

  lemma Covers(calls: seq<Call>, n: nat, i: nat, a: int)
    requires LastWrote(calls, n, i, a)
    ensures i < n && i < |calls| && calls[i].Write? && 0 <= a - calls[i].v < |calls[i].data|
  {
  }
}
