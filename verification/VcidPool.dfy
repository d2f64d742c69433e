/** Ids of the mediated devices of one FPGA region (contrib/vm/hypervisor): a free list threaded through an
    array of chunks hands them out and takes them back. */
module VcidPool {
  import opened Bytes

  const MAX_VMS := 16
  const NULL := -1

  // ---------------------------------------------------------------- the pool as a value

  datatype Pool = Pool(free: seq<nat>, live: set<nat>)

  datatype Op = Create | Remove(id: nat)

  const START := Pool(seq(MAX_VMS, i => i), {})

  function Next(p: Pool, op: Op): Option<Pool> {
    match op
    case Create => if p.free == [] then None else Some(Pool(p.free[1..], p.live + {p.free[0]}))
    case Remove(id) => if id !in p.live then None else Some(Pool([id] + p.free, p.live - {id}))
  }

  function Run(p: Pool, ops: seq<Op>): Option<Pool>
    decreases |ops|
  {
    if ops == [] then Some(p)
    else
      var q := Next(p, ops[0]);
      if q.None? then None else Run(q.value, ops[1..])
  }

  predicate Distinct(s: seq<nat>) {
    forall i, j :: 0 <= i < j < |s| ==> s[i] != s[j]
  }

  /** Every id below MAX_VMS, and no other, is either live or exactly once on the free list. */
  predicate Partition(p: Pool) {
    && Distinct(p.free)
    && (forall x :: x in p.free ==> x < MAX_VMS && x !in p.live)
    && (forall x :: x in p.live ==> x < MAX_VMS)
    && (forall x :: 0 <= x < MAX_VMS ==> x in p.live || x in p.free)
  }

  lemma CreateKeeps(p: Pool)
    requires Partition(p) && p.free != []
    ensures Partition(Next(p, Create).value)
    ensures p.free[0] !in p.live
  {
    var q, first := Next(p, Create).value, p.free[0];
    assert p.free == [first] + q.free && first in p.free;
    forall x | x in q.free
      ensures x < MAX_VMS && x !in q.live
    {
      assert x in p.free;
      var i :| 0 <= i < |q.free| && q.free[i] == x;
      assert p.free[i + 1] == x;
    }
    forall x | 0 <= x < MAX_VMS
      ensures x in q.live || x in q.free
    {
      assert x in p.live || x in p.free;
    }
    forall i, j | 0 <= i < j < |q.free|
      ensures q.free[i] != q.free[j]
    {
      assert p.free[i + 1] != p.free[j + 1];
    }
  }

  lemma RemoveKeeps(p: Pool, id: nat)
    requires Partition(p) && id in p.live
    ensures Partition(Next(p, Remove(id)).value)
  {
  }

  lemma {:induction false} RunKeeps(p: Pool, ops: seq<Op>)
    requires Partition(p) && Run(p, ops).Some?
    ensures Partition(Run(p, ops).value)
    decreases |ops|
  {
    if ops != [] {
      match ops[0] {
        case Create => CreateKeeps(p);
        case Remove(id) => RemoveKeeps(p, id);
      }
      RunKeeps(Next(p, ops[0]).value, ops[1..]);
    }
  }

  lemma StartIsPartition()
    ensures Partition(START)
  {
    forall x: nat | x < MAX_VMS
      ensures x in START.free
    {
      assert START.free[x] == x;
    }
  }

  /** Distinct ids outside a set add their number to its size. */
  lemma {:induction false} DistinctSize(free: seq<nat>, live: set<nat>, n: nat)
    requires Distinct(free) && (forall x :: x in free ==> x !in live)
    requires forall x: nat :: x < n <==> x in live || x in free
    ensures |live| + |free| == n
    decreases |free|
  {
    if free == [] {
      RangeSize(live, n);
    } else {
      assert free[0] in free && free == [free[0]] + free[1..];
      DistinctSize(free[1..], live + {free[0]}, n);
    }
  }

  lemma {:induction false} RangeSize(s: set<nat>, n: nat)
    requires forall x: nat :: x in s <==> x < n
    ensures |s| == n
  {
    if n == 0 {
      assert s == {};
    } else {
      RangeSize(s - {n - 1}, n - 1);
      assert s == (s - {n - 1}) + {n - 1};
    }
  }

  /** In every run: live and free ids together are exactly 0..MAX_VMS-1, the free ones are distinct, and an
      id can be handed out exactly while fewer than MAX_VMS are live. */
  lemma PoolAlwaysPartitioned(ops: seq<Op>)
    requires Run(START, ops).Some?
    ensures var p := Run(START, ops).value;
            && Partition(p)
            && |p.live| + |p.free| == MAX_VMS
            && (Next(p, Create).Some? <==> |p.live| < MAX_VMS)
  {
    StartIsPartition();
    RunKeeps(START, ops);
    var p := Run(START, ops).value;
    DistinctSize(p.free, p.live, MAX_VMS);
  }

  // ---------------------------------------------------------------- the chunks

  /** The links from a position spell out the given list and end there: the free list has no cycle. */
  ghost predicate Chain(links: seq<int>, at: int, free: seq<nat>)
    decreases |free|
  {
    if free == [] then at == NULL
    else at == free[0] && 0 <= at < |links| && Chain(links, links[at], free[1..])
  }

  /** A chain does not see a change to a link outside it. */
  lemma {:induction false} ChainFrame(links: seq<int>, at: int, free: seq<nat>, changed: nat, link: int)
    requires Chain(links, at, free) && changed < |links|
    requires forall i :: 0 <= i < |free| ==> free[i] != changed
    ensures Chain(links[changed := link], at, free)
    decreases |free|
  {
    if free != [] {
      assert free[0] != changed;
      ChainFrame(links, links[at], free[1..], changed, link);
    }
  }

  /** The links as the initialisation leaves them chain up every chunk. */
  lemma {:induction false} ChainOfStart(links: seq<int>, i: nat)
    requires i <= MAX_VMS == |links|
    requires forall k :: 0 <= k < MAX_VMS ==> links[k] == if k + 1 < MAX_VMS then k + 1 else NULL
    ensures Chain(links, if i < MAX_VMS then i else NULL, START.free[i..])
    decreases MAX_VMS - i
  {
    if i < MAX_VMS {
      ChainOfStart(links, i + 1);
      assert START.free[i..][1..] == START.free[i + 1..];
    }
  }

  class Region {
    /** Id and link of every chunk; a link is the position of the next free chunk. */
    const ids: array<int>
    const next: array<int>
    var head: int
    ghost var pool: Pool

    ghost predicate Valid()
      reads this, ids, next
    {
      && ids != next && ids.Length == next.Length == MAX_VMS
      && (forall j :: 0 <= j < MAX_VMS ==> ids[j] == j)
      && Partition(pool) && Chain(next[..], head, pool.free)
    }

    /** hypervisor_init: zeroed chunks, then a loop that numbers and links them. */
    constructor ()
      ensures Valid() && pool == START && fresh(ids) && fresh(next)
    {
      ids := new int[MAX_VMS](_ => 0);
      next := new int[MAX_VMS](_ => NULL);
      head := 0;
      pool := START;
      new;
      for j := 1 to MAX_VMS
        invariant head == 0 && pool == START
        invariant forall k :: 0 <= k < j ==> ids[k] == k
        invariant forall k :: 0 <= k < j - 1 ==> next[k] == k + 1
        invariant forall k :: j - 1 <= k < MAX_VMS ==> next[k] == NULL
      {
        ids[j] := j;
        next[j - 1] := j;
      }
      StartIsPartition();
      ChainOfStart(next[..], 0);
      assert START.free[0..] == START.free;
    }

    /** hypervisor_vfpga_create: the id is one that no live device has. The source does not look whether the list
        is empty, and follows a null pointer if it is: None. */
    method Create() returns (id: Option<nat>)
      requires Valid()
      modifies this
      ensures Valid() && (id.None? <==> Next(old(pool), Op.Create).None?)
      ensures id.None? ==> pool == old(pool) && |pool.live| == MAX_VMS
      ensures id.Some? ==>
                && Next(old(pool), Op.Create) == Some(pool)
                && id.value !in old(pool).live && pool.live == old(pool).live + {id.value}
    {
      if head == NULL {
        DistinctSize(pool.free, pool.live, MAX_VMS);
        return None;
      }
      CreateKeeps(pool);
      id := Some(ids[head]);
      ghost var free := pool.free;
      head := next[head];
      pool := Pool(free[1..], pool.live + {id.value});
    }

    /** hypervisor_vfpga_remove: the id goes back to the front of the list. */
    method Remove(id: nat)
      requires Valid() && id in pool.live
      modifies this, next
      ensures Valid() && Next(old(pool), Op.Remove(id)) == Some(pool)
      ensures pool.free[0] == id && id !in pool.live
    {
      RemoveKeeps(pool, id);
      ghost var free := pool.free;
      ChainFrame(next[..], head, free, id, head);
      ghost var links := next[..];
      next[id] := head;
      assert next[..] == links[id := head];
      head := id;
      pool := Pool([id] + free, pool.live - {id});
      assert pool.free[1..] == free;
    }
  }
}
