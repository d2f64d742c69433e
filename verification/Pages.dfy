/** Mapping a buffer of a virtual machine (contrib/vm): the guest lists the small pages of the buffer and
    the hypervisor turns the list into one entry for each huge page the buffer touches. */
module Pages {
  import opened Bytes

  const PAGE_SIZE := 4096
  const MAX_N_MAP_HUGE_PAGES := 256
  const TOP_ADDRESS := TWO_TO_64 - 1

  /** What the guest passes to the hypervisor: an address range and the guest physical address of each of
      its pages. */
  datatype Notifier = Notifier(gva: nat, len: nat, gpas: seq<nat>)

  datatype Mapping = Invalid | Nothing | Mapped(slots: seq<nat>, filled: nat)

  datatype Listing = Rejected | Empty | Listed(n: Notifier)

  /** start + count < start in 64-bit arithmetic. */
  predicate Overflows(start: nat, count: nat): (r: bool)
    ensures start < TWO_TO_64 && count < TWO_TO_64 ==> (r <==> start + count >= TWO_TO_64)
  {
    (start + count) % TWO_TO_64 < start
  }

  function PageOf(a: nat): nat {
    a / PAGE_SIZE
  }

  /** The number of pages of a range, with pages of the given size. */
  function Count(start: nat, count: nat, size: nat): nat
    requires size > 0 && count > 0
  {
    Below(start, start + count - 1, size);
    (start + count - 1) / size - start / size + 1
  }

  lemma Below(a: nat, b: nat, size: nat)
    requires a <= b && size > 0
    ensures a / size <= b / size
  {
    var x, y := a / size, b / size;
    assert a == size * x + a % size && b == size * y + b % size;
    assert size * (x - y) == size * x - size * y;
    LessThanOne(size, x - y);
  }

  /** guest_get_user_pages: the list has the guest physical address of every page of the range, in order. */
  method GuestPages(start: nat, count: nat, phys: nat -> nat) returns (r: Listing)
    requires start < TWO_TO_64 && count < TWO_TO_64
    ensures r.Rejected? <==> start + count >= TWO_TO_64
    ensures r.Empty? <==> count == 0
    ensures r.Listed? ==>
              && r.n.gva == start && r.n.len == count && |r.n.gpas| == Count(start, count, PAGE_SIZE)
              && PageOf(start) + |r.n.gpas| == PageOf(start + count - 1) + 1
              && forall i :: 0 <= i < |r.n.gpas| ==> r.n.gpas[i] == phys(PageOf(start) + i)
  {
    if (start + count) % TWO_TO_64 < start {
      return Rejected;
    }
    if count == 0 {
      return Empty;
    }
    var first, last := PageOf(start), PageOf(start + count - 1);
    var pages := last - first + 1;
    var gpas := new nat[pages];
    for i := 0 to pages
      invariant forall k :: 0 <= k < i ==> gpas[k] == phys(first + k)
    {
      gpas[i] := phys(first + i);
    }
    r := Listed(Notifier(start, count, gpas[..]));
  }

  // ---------------------------------------------------------------- one entry for each huge page

  /** The pages the hypervisor looks at. */
  function Capped(n: nat): nat {
    if n > MAX_N_MAP_HUGE_PAGES then MAX_N_MAP_HUGE_PAGES else n
  }

  /** Index, in a list of pages that starts at page first, of the first page of its k-th huge page. */
  function FirstIn(first: nat, k: int, ratio: nat): int
    requires ratio > 0
  {
    if k == 0 then 0 else ratio * (first / ratio + k) - first
  }

  /** The entries the loop makes from n pages; none at all in the huge page at the top of the address space,
      which the loop takes for the page it has just seen. */
  function Filled(first: nat, n: nat, ratio: nat): (r: int)
    requires ratio > 0
    ensures r >= 0
  {
    if n == 0 || first / ratio == TopHuge(ratio) then 0
    else
      Below(first, first + n - 1, ratio);
      (first + n - 1) / ratio - first / ratio + 1
  }

  function HugeCount(start: nat, count: nat, ratio: nat): nat
    requires ratio > 0 && count > 0
  {
    Count(start, count, PAGE_SIZE * ratio)
  }

  function TopHuge(ratio: nat): nat
    requires ratio > 0
  {
    TOP_ADDRESS / (PAGE_SIZE * ratio)
  }

  /** (a & page_mask) >> page_shift for huge pages. */
  function HugeNumber(a: nat, ratio: nat): nat
    requires ratio > 0
  {
    a / (PAGE_SIZE * ratio)
  }

  /** The huge page the loop has seen last before its i-th turn; at first it takes it for the topmost. */
  function LastSeen(first: nat, i: nat, ratio: nat): int
    requires ratio > 0
  {
    if i == 0 then TopHuge(ratio) else (first + i - 1) / ratio
  }

  /** Dividing by a small page and then by the ratio is dividing by a huge page. */
  lemma HugeOf(a: nat, ratio: nat)
    requires ratio > 0
    ensures a / (PAGE_SIZE * ratio) == PageOf(a) / ratio
  {
    var p := PageOf(a);
    var q := p / ratio;
    assert ratio * q <= p && p + 1 <= ratio * q + ratio;
    assert PAGE_SIZE * p <= a < PAGE_SIZE * p + PAGE_SIZE;
    assert PAGE_SIZE * (ratio * q) == (PAGE_SIZE * ratio) * q;
    Quotient(a, PAGE_SIZE * ratio, q);
  }

  /** Going one page on stays in the huge page or starts the next one. */
  lemma NextPage(p: nat, ratio: nat)
    requires ratio > 0
    ensures (p + 1) / ratio == p / ratio || ((p + 1) / ratio == p / ratio + 1 && p + 1 == ratio * (p / ratio + 1))
  {
    var q := p / ratio;
    assert ratio * q <= p < ratio * q + ratio;
    if p + 1 < ratio * q + ratio {
      Quotient(p + 1, ratio, q);
    } else {
      assert ratio * (q + 1) == ratio * q + ratio;
      Quotient(p + 1, ratio, q + 1);
    }
  }

  /** What one turn of the loop does to the number of entries. */
  lemma OneMore(first: nat, i: nat, ratio: nat)
    requires ratio > 0 && first / ratio != TopHuge(ratio)
    ensures i == 0 ==> Filled(first, 1, ratio) == 1
    ensures i > 0 && (first + i) / ratio == (first + i - 1) / ratio ==>
              Filled(first, i + 1, ratio) == Filled(first, i, ratio)
    ensures i > 0 && (first + i) / ratio != (first + i - 1) / ratio ==>
              && Filled(first, i + 1, ratio) == Filled(first, i, ratio) + 1
              && FirstIn(first, Filled(first, i, ratio), ratio) == i
  {
    if i > 0 {
      NextPage(first + i - 1, ratio);
      Below(first, first + i - 1, ratio);
    }
  }

  lemma Remove(a: nat, n: nat)
    requires n > 0
    ensures (a - a % n) % n == 0 && a - a % n <= a < a - a % n + n
  {
    var b := a - a % n;
    assert b == n * (a / n) && b == n * (b / n) + b % n;
    Quotient(b, n, a / n);
  }

  /** Host address of a huge page: the page's own address without the bits inside the huge page. */
  function Masked(a: nat, ratio: nat): (r: nat)
    requires ratio > 0
    ensures r % (PAGE_SIZE * ratio) == 0 && r <= a < r + PAGE_SIZE * ratio
  {
    Remove(a, PAGE_SIZE * ratio);
    a - a % (PAGE_SIZE * ratio)
  }

  /** What the slots hold after the first j entries. */
  ghost predicate SlotsOk(slots: seq<nat>, hosts: seq<nat>, first: nat, j: nat, ratio: nat) {
    && ratio > 0 && j <= |slots|
    && (forall k :: 0 <= k < j ==>
          0 <= FirstIn(first, k, ratio) < |hosts| && slots[k] == Masked(hosts[FirstIn(first, k, ratio)], ratio))
    && (forall k :: j <= k < |slots| ==> slots[k] == 0)
  }

  /** The pages of a range that reaches its last address lie at or below that address. */
  lemma Reached(gva: nat, len: nat, i: nat)
    requires len > 0 && gva + len < TWO_TO_64 && i < Count(gva, len, PAGE_SIZE)
    ensures gva + PAGE_SIZE * i < TWO_TO_64 && PageOf(gva + PAGE_SIZE * i) == PageOf(gva) + i <= PageOf(gva + len - 1)
  {
  }

  /** The entries made from a prefix of the range fit the slots of the whole. */
  lemma Fits(gva: nat, len: nat, n: nat, ratio: nat)
    requires ratio > 0 && len > 0 && n <= Count(gva, len, PAGE_SIZE)
    ensures Filled(PageOf(gva), n, ratio) <= HugeCount(gva, len, ratio)
  {
    HugeOf(gva, ratio);
    HugeOf(gva + len - 1, ratio);
    Below(gva, gva + len - 1, PAGE_SIZE);
    Below(PageOf(gva), PageOf(gva + len - 1), ratio);
    if n > 0 {
      Below(PageOf(gva) + n - 1, PageOf(gva + len - 1), ratio);
    }
  }

  /** The host address of every page of the list. */
  function HostPages(n: Notifier, host: nat -> nat): (hosts: seq<nat>)
    ensures |hosts| == |n.gpas| && forall i :: 0 <= i < |hosts| ==> hosts[i] == host(n.gpas[i])
  {
    seq(|n.gpas|, i requires 0 <= i < |n.gpas| => host(n.gpas[i]))
  }

  /** hypervisor_tlb_get_user_pages, for huge pages: the loop over the small pages makes an entry whenever
      it meets another huge page than before. */
  method HugePages(n: Notifier, host: nat -> nat, ratio: nat) returns (r: Mapping)
    requires ratio > 0 && n.gva < TWO_TO_64 && n.len < TWO_TO_64
    requires n.len > 0 && !Overflows(n.gva, n.len) ==> |n.gpas| == Count(n.gva, n.len, PAGE_SIZE)
    ensures r.Invalid? <==> Overflows(n.gva, n.len)
    ensures r.Nothing? <==> n.len == 0 && !Overflows(n.gva, n.len)
    ensures r.Mapped? ==>
              && |r.slots| == HugeCount(n.gva, n.len, ratio)
              && r.filled == Filled(PageOf(n.gva), Capped(|n.gpas|), ratio)
              && SlotsOk(r.slots, HostPages(n, host), PageOf(n.gva), r.filled, ratio)
  {
    var gva, count := n.gva, n.len;
    if (gva + count) % TWO_TO_64 < gva {
      return Invalid;
    }
    if count == 0 {
      return Nothing;
    }
    var hosts := HostPages(n, host);
    var slots := HugeSlots(gva, count, ratio);
    var pages, first := Capped(|n.gpas|), PageOf(gva);
    var j, current, last := 0, gva, TOP_ADDRESS;
    hide SlotsOk, Filled, FirstIn, Masked, HugeNumber, LastSeen, HugeCount, Count;
    for i := 0 to pages
      invariant current == gva + PAGE_SIZE * i && 0 <= last
      invariant j == Filled(first, i, ratio) <= slots.Length == HugeCount(gva, count, ratio)
      invariant HugeNumber(last, ratio) == LastSeen(first, i, ratio)
      invariant SlotsOk(slots[..], hosts, first, j, ratio)
    {
      Turn(gva, count, i, ratio);
      if HugeNumber(current, ratio) != HugeNumber(last, ratio) {
        SlotsGrow(slots[..], hosts, first, j, i, ratio);
        slots[j] := Masked(hosts[i], ratio);
        last := current;
        j := j + 1;
      }
      current := current + PAGE_SIZE;
    }
    r := Mapped(slots[..], j);
  }

  lemma SlotsGrow(slots: seq<nat>, hosts: seq<nat>, first: nat, j: nat, i: nat, ratio: nat)
    requires SlotsOk(slots, hosts, first, j, ratio) && j < |slots| && i < |hosts| && FirstIn(first, j, ratio) == i
    ensures SlotsOk(slots[j := Masked(hosts[i], ratio)], hosts, first, j + 1, ratio)
  {
    hide FirstIn, Masked;
  }

  /** The zeroed array of one slot for each huge page of the range. */
  method HugeSlots(gva: nat, count: nat, ratio: nat) returns (slots: array<nat>)
    requires ratio > 0 && count > 0
    ensures fresh(slots) && slots.Length == HugeCount(gva, count, ratio)
    ensures forall k :: 0 <= k < slots.Length ==> slots[k] == 0
  {
    slots := new nat[HugeCount(gva, count, ratio)](_ => 0);
  }

  /** One turn: the entry count, its place and its room. */
  lemma Turn(gva: nat, len: nat, i: nat, ratio: nat)
    requires ratio > 0 && len > 0 && gva + len < TWO_TO_64 && i < Count(gva, len, PAGE_SIZE)
    ensures Filled(PageOf(gva), i + 1, ratio) <= HugeCount(gva, len, ratio)
    ensures HugeNumber(gva + PAGE_SIZE * i, ratio) == LastSeen(PageOf(gva), i + 1, ratio)
    ensures LastSeen(PageOf(gva), i + 1, ratio) == LastSeen(PageOf(gva), i, ratio) ==>
              Filled(PageOf(gva), i + 1, ratio) == Filled(PageOf(gva), i, ratio)
    ensures LastSeen(PageOf(gva), i + 1, ratio) != LastSeen(PageOf(gva), i, ratio) ==>
              && Filled(PageOf(gva), i + 1, ratio) == Filled(PageOf(gva), i, ratio) + 1
              && FirstIn(PageOf(gva), Filled(PageOf(gva), i, ratio), ratio) == i
  {
    var first := PageOf(gva);
    Fits(gva, len, i + 1, ratio);
    Reached(gva, len, i);
    HugeOf(gva + PAGE_SIZE * i, ratio);
    if first / ratio != TopHuge(ratio) {
      OneMore(first, i, ratio);
    } else if i > 0 {
      AllTop(gva, i, ratio);
    }
  }

  /** A range that starts in the topmost huge page never leaves it. */
  lemma AllTop(gva: nat, i: nat, ratio: nat)
    requires ratio > 0 && i > 0 && PageOf(gva) / ratio == TopHuge(ratio) && gva + PAGE_SIZE * i < TWO_TO_64
    ensures (PageOf(gva) + i) / ratio == (PageOf(gva) + i - 1) / ratio == TopHuge(ratio)
  {
    var first := PageOf(gva);
    HugeOf(TOP_ADDRESS, ratio);
    Below(gva + PAGE_SIZE * i, TOP_ADDRESS, PAGE_SIZE);
    Below(first, first + i - 1, ratio);
    Below(first + i - 1, first + i, ratio);
    Below(first + i, PageOf(TOP_ADDRESS), ratio);
  }

  // ---------------------------------------------------------------- guest and hypervisor agree

  /** The first page of the last huge page is one of those the hypervisor looks at. */
  predicate LastReached(gva: nat, len: nat, ratio: nat)
    requires ratio > 0 && len > 0
  {
    ratio * (PageOf(gva + len - 1) / ratio) < PageOf(gva) + MAX_N_MAP_HUGE_PAGES
  }

  /** The loop fills every slot exactly when the range starts below the topmost huge page and its last huge
      page starts within the map cap. */
  lemma AllFilledIff(gva: nat, len: nat, ratio: nat)
    requires ratio > 0 && len > 0 && gva + len < TWO_TO_64
    ensures Filled(PageOf(gva), Capped(Count(gva, len, PAGE_SIZE)), ratio) == HugeCount(gva, len, ratio)
       <==> PageOf(gva) / ratio != TopHuge(ratio) && LastReached(gva, len, ratio)
  {
    var first, last, n := PageOf(gva), PageOf(gva + len - 1), Capped(Count(gva, len, PAGE_SIZE));
    HugeOf(gva, ratio);
    HugeOf(gva + len - 1, ratio);
    Below(gva, gva + len - 1, PAGE_SIZE);
    Below(gva, gva + len - 1, PAGE_SIZE * ratio);
    Below(first + n - 1, last, ratio);
    StartsBy(first + n - 1, last, ratio);
  }

  /** Whether a page p up to page last is already in the huge page of last. */
  lemma StartsBy(p: nat, last: nat, ratio: nat)
    requires ratio > 0 && p <= last
    ensures p / ratio == last / ratio <==> ratio * (last / ratio) <= p
  {
    var q := last / ratio;
    assert last == ratio * q + last % ratio;
    assert p == ratio * (p / ratio) + p % ratio;
    if ratio * q <= p {
      Quotient(p, ratio, q);
    }
  }

  /** Two aligned huge pages of 2 MB, of which the cap of 256 small pages reaches only the first: the second slot
      is counted and never filled, whatever the pages are. */
  lemma CapLosesHugePage(slots: seq<nat>, hosts: seq<nat>)
    requires |slots| == HugeCount(0, 0x40_0000, 512)
    requires SlotsOk(slots, hosts, PageOf(0), Filled(PageOf(0), Capped(Count(0, 0x40_0000, PAGE_SIZE)), 512), 512)
    ensures Filled(PageOf(0), Capped(Count(0, 0x40_0000, PAGE_SIZE)), 512) == 1 && |slots| == 2 && slots[1] == 0
  {
  }

  /** A range of at most as many pages as the cap, below the topmost huge page, has every slot filled. */
  lemma WithinCapAllFilled(gva: nat, len: nat, ratio: nat)
    requires ratio > 0 && len > 0 && gva + len < TWO_TO_64
    requires Count(gva, len, PAGE_SIZE) <= MAX_N_MAP_HUGE_PAGES && PageOf(gva) / ratio != TopHuge(ratio)
    ensures Filled(PageOf(gva), Capped(Count(gva, len, PAGE_SIZE)), ratio) == HugeCount(gva, len, ratio)
  {
    AllFilledIff(gva, len, ratio);
    var last := PageOf(gva + len - 1);
    assert last == ratio * (last / ratio) + last % ratio;
  }

  /** The huge page of the i-th page of a list that starts at page first. */
  function HugeAt(first: nat, i: int, ratio: nat): int
    requires ratio > 0
  {
    (first + i) / ratio
  }

  /** Entry k comes from the first page of the list that lies in the k-th huge page of the range. */
  lemma EntryIsInHugePage(first: nat, n: nat, k: nat, ratio: nat)
    requires ratio > 0 && k < Filled(first, n, ratio)
    ensures 0 <= FirstIn(first, k, ratio) < n
    ensures HugeAt(first, FirstIn(first, k, ratio), ratio) == first / ratio + k
    ensures forall i :: 0 <= i < FirstIn(first, k, ratio) ==> HugeAt(first, i, ratio) < first / ratio + k
  {
    if k > 0 {
      StartOfHuge(first, first + n - 1, first / ratio + k, ratio);
      forall i | 0 <= i < FirstIn(first, k, ratio)
        ensures HugeAt(first, i, ratio) < first / ratio + k
      {
        StartsBy(first + i, ratio * (first / ratio + k), ratio);
        Below(first + i, ratio * (first / ratio + k), ratio);
      }
    }
  }

  /** Where a huge page h starts that a range of pages enters after its first. */
  lemma StartOfHuge(first: nat, last: nat, h: nat, ratio: nat)
    requires ratio > 0 && first / ratio < h <= last / ratio
    ensures first < ratio * h <= last && (ratio * h) / ratio == h
  {
    var f, l := first / ratio, last / ratio;
    assert first == ratio * f + first % ratio && last == ratio * l + last % ratio;
    Scaled(ratio, f + 1, h);
    Scaled(ratio, h, l);
    assert ratio * (f + 1) == ratio * f + ratio;
    Quotient(ratio * h, ratio, h);
  }

  lemma Scaled(r: nat, x: int, y: int)
    requires x <= y
    ensures r * x <= r * y
  {
  }

  /** Mapping a buffer of the guest: phys takes the guest's pages to guest physical addresses and host takes
      those to host addresses. Below the topmost huge page and within the cap every huge page of the buffer
      gets the host address of a page of the buffer that lies in it. */
  method MapBuffer(start: nat, count: nat, phys: nat -> nat, host: nat -> nat, ratio: nat) returns (r: Mapping)
    requires ratio > 0 && start < TWO_TO_64 && count < TWO_TO_64
    ensures r.Invalid? <==> Overflows(start, count)
    ensures r.Nothing? <==> count == 0 && !Overflows(start, count)
    ensures r.Mapped? ==>
              && |r.slots| == HugeCount(start, count, ratio)
              && (r.filled == |r.slots| <==>
                    PageOf(start) / ratio != TopHuge(ratio) && LastReached(start, count, ratio))
              && (forall k :: 0 <= k < r.filled <= |r.slots| ==>
                    var p := PageOf(start) + FirstIn(PageOf(start), k, ratio);
                    && PageOf(start) <= p <= PageOf(start + count - 1) && p / ratio == PageOf(start) / ratio + k
                    && r.slots[k] == Masked(host(phys(p)), ratio))
  {
    var listing := GuestPages(start, count, phys);
    match listing
    case Rejected => return Invalid;
    case Empty => return Nothing;
    case Listed(n) =>
      r := HugePages(n, host, ratio);
      AllFilledIff(start, count, ratio);
      forall k | 0 <= k < r.filled
        ensures 0 <= FirstIn(PageOf(start), k, ratio) < |n.gpas|
        ensures HugeAt(PageOf(start), FirstIn(PageOf(start), k, ratio), ratio) == PageOf(start) / ratio + k
      {
        EntryIsInHugePage(PageOf(start), Capped(|n.gpas|), k, ratio);
      }
  }
}
