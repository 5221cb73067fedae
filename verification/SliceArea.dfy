/** Geometry of a slice pool and the free list inside one area
    (src/memory/SlicePool.cxx, src/memory/SliceArea.hxx). Pointers into an area
    are byte offsets from its start. */
module SliceArea {
  import opened Bits
  import opened Seqs

  const PAGE_SIZE: nat := 4096

  /** sizeof(SliceArea), which includes one slot, and sizeof(Slot) */
  const AREA_STRUCT_SIZE: nat := 40
  const SLOT_SIZE: nat := 4

  // ---- Geometry ----

  function DivideRoundUp(a: nat, b: nat): nat
    requires b > 0
  {
    (a + b - 1) / b
  }

  /** Rounding up to a multiple of a power of two. */
  function RoundUp(n: nat, unit: nat): (r: nat)
    requires n > 0 && unit > 0
  {
    ((n - 1) / unit + 1) * unit
  }

  datatype Geometry = Geometry(
    sliceSize: nat, slicesPerPage: nat, pagesPerSlice: nat,
    pagesPerArea: nat, slicesPerArea: nat, headerPages: nat)
  {
    function AreaSize(): nat {
      PAGE_SIZE * (headerPages + pagesPerArea)
    }

    /** Several slices on a page, or several pages for a slice. */
    ghost predicate Valid() {
      && sliceSize > 0 && slicesPerPage > 0 && pagesPerSlice > 0 && slicesPerArea > 0
      && (|| (pagesPerSlice == 1 && slicesPerPage * sliceSize <= PAGE_SIZE
              && slicesPerArea == pagesPerArea * slicesPerPage)
          || (slicesPerPage == 1 && sliceSize == pagesPerSlice * PAGE_SIZE
              && pagesPerArea == slicesPerArea * pagesPerSlice))
    }
  }

  lemma RoundUpOf(n: nat, unit: nat)
    requires n > 0 && unit > 0
    ensures n <= RoundUp(n, unit) < n + unit
  {
    var q := (n - 1) / unit;
    assert n - 1 == unit * q + (n - 1) % unit;
    assert RoundUp(n, unit) == unit * q + unit;
  }

  lemma RoundUpWithin(n: nat, unit: nat, k: nat)
    requires n > 0 && unit > 0 && n <= unit * k
    ensures RoundUp(n, unit) <= unit * k
  {
    var q := (n - 1) / unit;
    assert n - 1 == unit * q + (n - 1) % unit;
    if q + 1 > k {
      MulMonotone(unit, k, q);
      assert false;
    }
    MulMonotone(unit, q + 1, k);
  }

  /** The pool constructor's computation. */
  function MakeGeometry(wantedSize: nat, wantedSlices: nat): (g: Geometry)
    requires wantedSize > 0 && wantedSlices > 0
  {
    if wantedSize <= PAGE_SIZE / 2 then
      var size := RoundUp(wantedSize, 0x20);
      RoundUpOf(wantedSize, 0x20);
      var perPage := PAGE_SIZE / size;
      SomePerPage(wantedSize);
      var pages := DivideRoundUp(wantedSlices, perPage);
      var slices := pages * perPage;
      Geometry(size, perPage, 1, pages, slices, HeaderPages(slices))
    else
      var size := RoundUp(wantedSize, PAGE_SIZE);
      var perSlice := size / PAGE_SIZE;
      var pages := wantedSlices * perSlice;
      PagesPerSlice(wantedSize);
      var slices := pages / perSlice;
      Geometry(size, 1, perSlice, pages, slices, HeaderPages(slices))
  }

  function HeaderPages(slices: nat): nat {
    DivideRoundUp(AREA_STRUCT_SIZE + SLOT_SIZE * (if slices > 0 then slices - 1 else 0), PAGE_SIZE)
  }

  lemma SomePerPage(wantedSize: nat)
    requires 0 < wantedSize <= PAGE_SIZE / 2
    ensures var size := RoundUp(wantedSize, 0x20); 0 < size <= PAGE_SIZE / 2 && PAGE_SIZE / size >= 2
  {
    RoundUpOf(wantedSize, 0x20);
    RoundUpWithin(wantedSize, 0x20, 64);
    var size := RoundUp(wantedSize, 0x20);
    AtLeastTwo(PAGE_SIZE, size);
  }

  lemma AtLeastTwo(n: nat, d: nat)
    requires d > 0 && 2 * d <= n
    ensures n / d >= 2
  {
    assert n == d * (n / d) + n % d;
    if n / d < 2 {
      MulMonotone(d, n / d, 1);
      assert false;
    }
  }

  lemma PagesPerSlice(wantedSize: nat)
    requires wantedSize > 0
    ensures var size := RoundUp(wantedSize, PAGE_SIZE); size / PAGE_SIZE > 0 && size == size / PAGE_SIZE * PAGE_SIZE
  {
  }

  lemma ExactDiv(a: nat, b: nat)
    requires b > 0
    ensures a * b / b == a
  {
    DivUnique(a * b, b, a, 0);
  }

  lemma DivideRoundUpOf(a: nat, b: nat)
    requires a > 0 && b > 0
    ensures DivideRoundUp(a, b) > 0 && DivideRoundUp(a, b) * b >= a
  {
    var q := DivideRoundUp(a, b);
    assert a + b - 1 == b * q + (a + b - 1) % b;
    if q == 0 {
      assert false;
    }
  }

  /** The constructor always yields a sound geometry with at least as many
      slices as wanted, each at least as large as wanted; the header with its
      table of slots fits the header pages; an area has one slice only if a slice
      takes more than half a page and one was wanted. */
  lemma GeometryIsValid(wantedSize: nat, wantedSlices: nat)
    requires wantedSize > 0 && wantedSlices > 0
    ensures var g := MakeGeometry(wantedSize, wantedSlices);
            && g.Valid() && g.sliceSize >= wantedSize && g.slicesPerArea >= wantedSlices
            && AREA_STRUCT_SIZE + SLOT_SIZE * (g.slicesPerArea - 1) <= g.headerPages * PAGE_SIZE
            && (g.slicesPerArea == 1 <==> wantedSize > PAGE_SIZE / 2 && wantedSlices == 1)
  {
    var g := MakeGeometry(wantedSize, wantedSlices);
    if wantedSize <= PAGE_SIZE / 2 {
      RoundUpOf(wantedSize, 0x20);
      SomePerPage(wantedSize);
      DivideRoundUpOf(wantedSlices, g.slicesPerPage);
      assert PAGE_SIZE == g.sliceSize * g.slicesPerPage + PAGE_SIZE % g.sliceSize;
      MulMonotone(g.slicesPerPage, 1, g.pagesPerArea);
    } else {
      RoundUpOf(wantedSize, PAGE_SIZE);
      PagesPerSlice(wantedSize);
      ExactDiv(wantedSlices, g.pagesPerSlice);
    }
    DivideRoundUpOf(AREA_STRUCT_SIZE + SLOT_SIZE * (g.slicesPerArea - 1), PAGE_SIZE);
  }

  lemma DivideRoundUpTight(a: nat, b: nat)
    requires a > 0 && b > 0
    ensures (DivideRoundUp(a, b) - 1) * b < a
  {
    var q := DivideRoundUp(a, b);
    assert a + b - 1 == b * q + (a + b - 1) % b;
    assert (q - 1) * b == b * q - b;
  }

  lemma MostPerPage(size: nat)
    requires size > 0
    ensures (PAGE_SIZE / size + 1) * size > PAGE_SIZE
  {
    assert PAGE_SIZE == size * (PAGE_SIZE / size) + PAGE_SIZE % size;
  }

  lemma MultipleOf(k: nat, unit: nat)
    requires unit > 0
    ensures k * unit % unit == 0
  {
    DivUnique(k * unit, unit, k, 0);
  }

  /** And nothing is larger than needed: small slices are rounded up to 32 bytes, with as
      many of them on a page as fit, large ones to whole pages; one page less would not
      do for the slices, nor for the header. */
  lemma GeometryIsTight(wantedSize: nat, wantedSlices: nat)
    requires wantedSize > 0 && wantedSlices > 0
    ensures var g := MakeGeometry(wantedSize, wantedSlices);
            && (if wantedSize <= PAGE_SIZE / 2 then
                  && g.pagesPerSlice == 1 && g.sliceSize % 32 == 0 && g.sliceSize < wantedSize + 32
                  && (g.slicesPerPage + 1) * g.sliceSize > PAGE_SIZE && (g.pagesPerArea - 1) * g.slicesPerPage < wantedSlices
                else
                  && g.slicesPerPage == 1 && g.sliceSize % PAGE_SIZE == 0 && g.sliceSize < wantedSize + PAGE_SIZE
                  && g.slicesPerArea == wantedSlices)
            && (g.headerPages - 1) * PAGE_SIZE < AREA_STRUCT_SIZE + SLOT_SIZE * (g.slicesPerArea - 1)
  {
    var g := MakeGeometry(wantedSize, wantedSlices);
    GeometryIsValid(wantedSize, wantedSlices);
    if wantedSize <= PAGE_SIZE / 2 {
      RoundUpOf(wantedSize, 0x20);
      MultipleOf((wantedSize - 1) / 0x20 + 1, 0x20);
      MostPerPage(g.sliceSize);
      DivideRoundUpTight(wantedSlices, g.slicesPerPage);
    } else {
      RoundUpOf(wantedSize, PAGE_SIZE);
      MultipleOf((wantedSize - 1) / PAGE_SIZE + 1, PAGE_SIZE);
      ExactDiv(wantedSlices, g.pagesPerSlice);
    }
    DivideRoundUpTight(AREA_STRUCT_SIZE + SLOT_SIZE * (g.slicesPerArea - 1), PAGE_SIZE);
  }

  /** The offset of slice i. */
  function GetSlice(g: Geometry, i: nat): nat
    requires g.Valid()
  {
    var page: nat := i / g.slicesPerPage;
    var rest: nat := i % g.slicesPerPage;
    (g.headerPages + page * g.pagesPerSlice) * PAGE_SIZE + rest * g.sliceSize
  }

  /** The slice that starts at an offset. */
  function IndexOf(g: Geometry, offset: nat): int
    requires g.Valid()
  {
    var page := offset / PAGE_SIZE - g.headerPages;
    page * g.slicesPerPage / g.pagesPerSlice + offset % PAGE_SIZE / g.sliceSize
  }

  lemma PageOf(page: nat, rest: nat)
    requires rest < PAGE_SIZE
    ensures (page * PAGE_SIZE + rest) / PAGE_SIZE == page && (page * PAGE_SIZE + rest) % PAGE_SIZE == rest
  {
  }

  /** Where a slice lies in the sub-page geometry. */
  lemma SmallSlice(g: Geometry, i: nat)
    requires g.Valid() && g.pagesPerSlice == 1 && g.slicesPerPage * g.sliceSize <= PAGE_SIZE
    ensures var k := i % g.slicesPerPage * g.sliceSize;
            && k + g.sliceSize <= PAGE_SIZE
            && GetSlice(g, i) == (g.headerPages + i / g.slicesPerPage) * PAGE_SIZE + k
            && k / g.sliceSize == i % g.slicesPerPage
  {
    var r := i % g.slicesPerPage;
    MulMonotone(g.sliceSize, r + 1, g.slicesPerPage);
    assert r * g.sliceSize + g.sliceSize == g.sliceSize * (r + 1);
    DivUnique(r * g.sliceSize, g.sliceSize, r, 0);
  }

  /** Where a slice lies in the multi-page geometry. */
  lemma LargeSlice(g: Geometry, i: nat)
    requires g.Valid() && g.slicesPerPage == 1
    ensures GetSlice(g, i) == (g.headerPages + i * g.pagesPerSlice) * PAGE_SIZE
  {
    assert i / 1 == i && i % 1 == 0;
  }

  ghost predicate Small(g: Geometry) {
    g.pagesPerSlice == 1 && g.slicesPerPage * g.sliceSize <= PAGE_SIZE
  }

  lemma SmallIndex(g: Geometry, i: nat)
    requires g.Valid() && Small(g)
    ensures IndexOf(g, GetSlice(g, i)) == i
  {
    var page, k := i / g.slicesPerPage, i % g.slicesPerPage * g.sliceSize;
    SmallSlice(g, i);
    PageOf(g.headerPages + page, k);
    assert page * g.slicesPerPage / 1 == page * g.slicesPerPage;
    assert i == g.slicesPerPage * page + i % g.slicesPerPage;
  }

  lemma LargeIndex(g: Geometry, i: nat)
    requires g.Valid() && g.slicesPerPage == 1
    ensures IndexOf(g, GetSlice(g, i)) == i
  {
    var page := i * g.pagesPerSlice;
    LargeSlice(g, i);
    PageOf(g.headerPages + page, 0);
    ExactDiv(i, g.pagesPerSlice);
    assert 0 / g.sliceSize == 0;
  }

  /** The index can be computed back from the pointer. */
  lemma IndexOfSlice(g: Geometry, i: nat)
    requires g.Valid() && i < g.slicesPerArea
    ensures IndexOf(g, GetSlice(g, i)) == i
  {
    if Small(g) {
      SmallIndex(g, i);
    } else {
      LargeIndex(g, i);
    }
  }

  lemma SmallInside(g: Geometry, i: nat)
    requires g.Valid() && Small(g) && i < g.pagesPerArea * g.slicesPerPage
    ensures g.headerPages * PAGE_SIZE <= GetSlice(g, i) && GetSlice(g, i) + g.sliceSize <= g.AreaSize()
  {
    SmallSlice(g, i);
    QuotientBelow(i, g.slicesPerPage, g.pagesPerArea);
    InsideArea(g, GetSlice(g, i), i / g.slicesPerPage, i % g.slicesPerPage * g.sliceSize);
  }

  lemma InsideArea(g: Geometry, offset: nat, page: nat, k: nat)
    requires page < g.pagesPerArea && k + g.sliceSize <= PAGE_SIZE && offset == (g.headerPages + page) * PAGE_SIZE + k
    ensures g.headerPages * PAGE_SIZE <= offset && offset + g.sliceSize <= g.AreaSize()
  {
    InsidePages(g.headerPages, page, g.pagesPerArea, k, g.sliceSize);
  }

  lemma InsidePages(header: nat, page: nat, pages: nat, k: nat, size: nat)
    requires page < pages && k + size <= PAGE_SIZE
    ensures header * PAGE_SIZE <= (header + page) * PAGE_SIZE + k
    ensures (header + page) * PAGE_SIZE + k + size <= PAGE_SIZE * (header + pages)
  {
  }

  lemma LargeInside(g: Geometry, i: nat)
    requires g.Valid() && g.slicesPerPage == 1 && g.sliceSize == g.pagesPerSlice * PAGE_SIZE
    requires i < g.slicesPerArea && g.pagesPerArea == g.slicesPerArea * g.pagesPerSlice
    ensures g.headerPages * PAGE_SIZE <= GetSlice(g, i) && GetSlice(g, i) + g.sliceSize <= g.AreaSize()
  {
    LargeSlice(g, i);
    MulMonotone(g.pagesPerSlice, i + 1, g.slicesPerArea);
    assert (i + 1) * g.pagesPerSlice == i * g.pagesPerSlice + g.pagesPerSlice;
  }

  lemma SmallArea(g: Geometry)
    requires g.Valid() && Small(g)
    ensures g.slicesPerArea == g.pagesPerArea * g.slicesPerPage
  {
    if g.slicesPerPage == 1 {
      assert g.slicesPerArea * 1 == g.slicesPerArea;
    }
  }

  /** Every slice lies inside the area, behind the header. */
  lemma SliceInside(g: Geometry, i: nat)
    requires g.Valid() && i < g.slicesPerArea
    ensures g.headerPages * PAGE_SIZE <= GetSlice(g, i) && GetSlice(g, i) + g.sliceSize <= g.AreaSize()
  {
    if Small(g) {
      SmallArea(g);
      SmallInside(g, i);
    } else {
      LargeInside(g, i);
    }
  }

  lemma QuotientBelow(i: nat, d: nat, n: nat)
    requires d > 0 && i < n * d
    ensures i / d < n
  {
    assert i == d * (i / d) + i % d;
    if i / d >= n {
      MulMonotone(d, n, i / d);
      assert false;
    }
  }

  lemma QuotientOrder(i: nat, j: nat, d: nat)
    requires d > 0 && i < j
    ensures i / d <= j / d && (i / d == j / d ==> i % d < j % d)
  {
    assert i == d * (i / d) + i % d;
    assert j == d * (j / d) + j % d;
    if i / d > j / d {
      MulMonotone(d, j / d + 1, i / d);
      assert false;
    }
  }

  /** Different slices do not overlap. */
  lemma SlicesDisjoint(g: Geometry, i: nat, j: nat)
    requires g.Valid() && i < j < g.slicesPerArea
    ensures GetSlice(g, i) + g.sliceSize <= GetSlice(g, j)
  {
    if Small(g) {
      SmallSlice(g, i);
      SmallSlice(g, j);
      QuotientOrder(i, j, g.slicesPerPage);
      if i / g.slicesPerPage == j / g.slicesPerPage {
        MulMonotone(g.sliceSize, i % g.slicesPerPage + 1, j % g.slicesPerPage);
      }
    } else {
      LargeSlice(g, i);
      LargeSlice(g, j);
      MulMonotone(g.pagesPerSlice, i + 1, j);
    }
  }

  // ---- One area ----

  const ALLOCATED: nat := 0xffff_ffff
  const END_OF_LIST: nat := 0xffff_fffe

  /** The chain of free slots from head on: the slots that are met are not
      allocated, none is met again after it was taken, and all others are
      allocated. */
  ghost predicate FreeChain(slots: seq<nat>, head: nat, free: seq<nat>)
    decreases |free|
  {
    if free == [] then head == END_OF_LIST && forall i :: 0 <= i < |slots| ==> slots[i] == ALLOCATED
    else
      && head == free[0] < |slots| && slots[head] != ALLOCATED
      && FreeChain(slots[head := ALLOCATED], slots[head], free[1..])
  }

  /** So the chain has no cycle and holds exactly the slots that are not
      allocated. */
  lemma {:induction false} FreeChainMeans(slots: seq<nat>, head: nat, free: seq<nat>)
    requires FreeChain(slots, head, free)
    ensures Distinct(free) && |free| <= |slots|
    ensures forall k :: 0 <= k < |free| ==> free[k] < |slots|
    ensures forall i :: 0 <= i < |slots| ==> (slots[i] == ALLOCATED <==> i !in free)
    decreases |free|
  {
    if free != [] {
      var rest := slots[head := ALLOCATED];
      FreeChainMeans(rest, slots[head], free[1..]);
      assert free == [head] + free[1..];
      assert rest[head] == ALLOCATED && head !in free[1..];
      DistinctBelow(free, |slots|);
    }
  }

  lemma HeadIsFree(slots: seq<nat>, head: nat, free: seq<nat>)
    requires FreeChain(slots, head, free) && |slots| < END_OF_LIST
    ensures head != ALLOCATED && (head == END_OF_LIST <==> free == [])
  {
  }

  lemma {:induction false} InitialChain(slots: seq<nat>, k: nat, free: seq<nat>)
    requires |slots| < END_OF_LIST && k <= |slots| && |free| == |slots| - k
    requires forall i :: 0 <= i < |free| ==> free[i] == k + i
    requires forall i :: 0 <= i < |slots| ==>
               slots[i] == if i < k then ALLOCATED else if i == |slots| - 1 then END_OF_LIST else i + 1
    ensures FreeChain(slots, if k == |slots| then END_OF_LIST else k, free)
    decreases |slots| - k
  {
    if k < |slots| {
      InitialChain(slots[k := ALLOCATED], k + 1, free[1..]);
    }
  }

  class Area {
    const n: nat
    const slots: array<nat>
    var allocatedCount: nat
    var freeHead: nat

    /** The free slots in the order of the list. */
    ghost var free: seq<nat>

    ghost predicate Valid()
      reads this, slots
    {
      && 0 < n < END_OF_LIST && slots.Length == n
      && FreeChain(slots[..], freeHead, free) && allocatedCount + |free| == n
    }

    /** A sound area of n slices, of which a number are allocated. */
    ghost predicate Is(n: nat, count: nat)
      reads this, slots
    {
      Valid() && this.n == n && allocatedCount == count
    }

    predicate IsEmpty()
      reads this
    {
      allocatedCount == 0
    }

    predicate IsFull()
      reads this
    {
      freeHead == END_OF_LIST
    }

    constructor (n: nat)
      requires 0 < n < END_OF_LIST
      ensures Is(n, 0) && fresh(slots)
      ensures |free| == n && forall k :: 0 <= k < n ==> free[k] == k
    {
      this.n := n;
      slots := new nat[n];
      allocatedCount, freeHead := 0, 0;
      free := seq(n, i requires i >= 0 => i);
      new;
      for i := 0 to n - 1
        invariant allocatedCount == 0 && freeHead == 0
        invariant |free| == n && forall k :: 0 <= k < n ==> free[k] == k
        invariant forall k :: 0 <= k < i ==> slots[k] == k + 1
      {
        slots[i] := i + 1;
      }
      slots[n - 1] := END_OF_LIST;
      InitialChain(slots[..], 0, free);
    }

    /** An area is full exactly if all its slices are allocated. */
    lemma FullMeans()
      requires Valid()
      ensures IsFull() <==> allocatedCount == n
      ensures IsFull() <==> free == []
    {
      HeadIsFree(slots[..], freeHead, free);
    }

    lemma SomeAllocatedSlot(i: nat)
      requires Valid() && i < n && slots[i] == ALLOCATED
      ensures allocatedCount > 0
    {
      FreeChainMeans(slots[..], freeHead, free);
      SomeAllocated(n, free, i);
    }

    /** Takes the first free slot. */
    method Alloc() returns (i: nat)
      requires Valid() && !IsFull()
      modifies `allocatedCount, `freeHead, `free, slots
      ensures Valid() && i < n && allocatedCount == old(allocatedCount) + 1
      ensures old(free) == [i] + free
      ensures old(slots[i]) != ALLOCATED && slots[..] == old(slots[..])[i := ALLOCATED]
    {
      HeadIsFree(slots[..], freeHead, free);
      i := freeHead;
      allocatedCount := allocatedCount + 1;
      freeHead := slots[i];
      slots[i] := ALLOCATED;
      assert slots[..] == old(slots[..])[i := ALLOCATED];
      free := free[1..];
    }

    /** Puts a slot back at the front of the free list. */
    method Free(i: nat)
      requires Valid() && i < n && slots[i] == ALLOCATED
      modifies `allocatedCount, `freeHead, `free, slots
      ensures Valid() && allocatedCount == old(allocatedCount) - 1
      ensures free == [i] + old(free)
      ensures slots[i] != ALLOCATED && slots[..] == old(slots[..])[i := slots[i]]
    {
      SomeAllocatedSlot(i);
      HeadIsFree(slots[..], freeHead, free);
      slots[i] := freeHead;
      assert slots[..] == old(slots[..])[i := freeHead] && slots[..][i := ALLOCATED] == old(slots[..]);
      freeHead := i;
      allocatedCount := allocatedCount - 1;
      free := [i] + free;
      assert free[1..] == old(free);
    }
  }

  lemma SomeAllocated(n: nat, free: seq<nat>, i: nat)
    requires Distinct(free) && i < n && i !in free && forall k :: 0 <= k < |free| ==> free[k] < n
    ensures |free| < n
  {
    DistinctBelow(free + [i], n);
  }
}
