/** The pool of areas and its three lists (src/memory/SlicePool.cxx). */
module SlicePool {
  import opened Seqs
  import opened SliceArea

  /** How often an area is in a list. */
  ghost function Count(list: seq<Area>, a: Area): nat {
    if list == [] then 0 else (if list[0] == a then 1 else 0) + Count(list[1..], a)
  }

  ghost function CountOf(m: map<Area, nat>, a: Area): nat {
    if a in m then m[a] else 0
  }

  /** How many slices of these areas are allocated, by a count for each. */
  ghost function Live(list: seq<Area>, m: map<Area, nat>): nat {
    if list == [] then 0 else CountOf(m, list[0]) + Live(list[1..], m)
  }

  /** All counts are in a range. */
  ghost predicate Within(list: seq<Area>, m: map<Area, nat>, lo: nat, hi: int) {
    list == [] || (list[0] in m && lo <= m[list[0]] <= hi && Within(list[1..], m, lo, hi))
  }

  lemma {:induction false} CountIn(list: seq<Area>, a: Area)
    ensures Count(list, a) > 0 <==> a in list
  {
    if list != [] {
      CountIn(list[1..], a);
    }
  }

  lemma {:induction false} CountSnoc(list: seq<Area>, x: Area, a: Area)
    ensures Count(list + [x], a) == Count(list, a) + (if x == a then 1 else 0)
  {
    if list != [] {
      CountSnoc(list[1..], x, a);
      assert (list + [x])[1..] == list[1..] + [x];
    }
  }

  lemma CountCons(list: seq<Area>, x: Area, a: Area)
    ensures Count([x] + list, a) == Count(list, a) + (if x == a then 1 else 0)
  {
    assert ([x] + list)[1..] == list;
  }

  lemma {:induction false} CountUnlinked(list: seq<Area>, x: Area, a: Area)
    ensures Count(Unlinked(list, x), a) == Count(list, a) - if a == x && Count(list, x) > 0 then 1 else 0
  {
    if list != [] && list[0] != x {
      CountUnlinked(list[1..], x, a);
      CountCons(Unlinked(list[1..], x), list[0], a);
    }
  }

  /** Putting an area behind or before a list. */
  lemma {:induction false} AddedSnoc(list: seq<Area>, m: map<Area, nat>, lo: nat, hi: int, x: Area)
    requires Within(list, m, lo, hi) && x in m && lo <= m[x] <= hi
    ensures Within(list + [x], m, lo, hi) && Live(list + [x], m) == Live(list, m) + m[x]
  {
    if list != [] {
      AddedSnoc(list[1..], m, lo, hi, x);
      assert (list + [x])[1..] == list[1..] + [x];
    }
  }

  lemma AddedCons(list: seq<Area>, m: map<Area, nat>, lo: nat, hi: int, x: Area)
    requires Within(list, m, lo, hi) && x in m && lo <= m[x] <= hi
    ensures Within([x] + list, m, lo, hi) && Live([x] + list, m) == Live(list, m) + m[x]
  {
    assert ([x] + list)[1..] == list;
  }

  lemma {:induction false} Removed(list: seq<Area>, m: map<Area, nat>, lo: nat, hi: int, x: Area)
    requires Within(list, m, lo, hi)
    ensures Within(Unlinked(list, x), m, lo, hi)
    ensures Live(list, m) == Live(Unlinked(list, x), m) + if Count(list, x) > 0 then CountOf(m, x) else 0
  {
    if list != [] && list[0] != x {
      Removed(list[1..], m, lo, hi, x);
      AddedCons(Unlinked(list[1..], x), m, lo, hi, list[0]);
    }
  }

  /** One area's count changes. */
  lemma {:induction false} Recounted(list: seq<Area>, m: map<Area, nat>, lo: nat, hi: int, x: Area, v: nat)
    requires Within(list, m, lo, hi) && Count(list, x) <= 1 && (Count(list, x) > 0 ==> lo <= v <= hi)
    ensures Within(list, m[x := v], lo, hi)
    ensures Live(list, m[x := v]) == Live(list, m) + (if Count(list, x) > 0 then v - CountOf(m, x) else 0)
  {
    if list != [] {
      Recounted(list[1..], m, lo, hi, x, v);
    }
  }

  /** The three lists of a pool. */
  datatype Lists = Lists(areas: seq<Area>, empties: seq<Area>, fulls: seq<Area>)
  {
    ghost function Occurs(a: Area): nat {
      Count(areas, a) + Count(empties, a) + Count(fulls, a)
    }

    ghost function Total(m: map<Area, nat>): nat {
      Live(areas, m) + Live(empties, m) + Live(fulls, m)
    }

    function Without(a: Area): Lists {
      Lists(Unlinked(areas, a), Unlinked(empties, a), Unlinked(fulls, a))
    }

    function Put(a: Area, place: Place): Lists {
      match place
      case AreasFront => this.(areas := [a] + areas)
      case AreasBack => this.(areas := areas + [a])
      case EmptyFront => this.(empties := [a] + empties)
      case FullBack => this.(fulls := fulls + [a])
    }
  }

  datatype Place = AreasFront | AreasBack | EmptyFront | FullBack

  /** The lists hold what their names say, by the areas' counts of n slices each.
      With one slice in an area, the main list may also hold empty areas. */
  ghost predicate Sorted(l: Lists, m: map<Area, nat>, n: nat) {
    && Within(l.areas, m, if n >= 2 then 1 else 0, n - 1)
    && Within(l.empties, m, 0, 0)
    && Within(l.fulls, m, n, n)
  }

  /** Also, every area is in one list and once, and the counts add up. */
  ghost predicate Filed(l: Lists, m: map<Area, nat>, n: nat, live: nat) {
    && Sorted(l, m, n) && live == l.Total(m)
    && (forall a :: a in m ==> l.Occurs(a) == 1)
  }

  lemma {:induction false} WithinMeans(list: seq<Area>, m: map<Area, nat>, lo: nat, hi: int, a: Area)
    requires Within(list, m, lo, hi) && a in list
    ensures a in m && lo <= m[a] <= hi && m[a] <= Live(list, m)
  {
    if list[0] != a {
      WithinMeans(list[1..], m, lo, hi, a);
    }
  }

  /** What this means for each area. */
  lemma FiledMeans(l: Lists, m: map<Area, nat>, n: nat, live: nat, a: Area)
    requires Filed(l, m, n, live)
    ensures a in m <==> a in l.areas || a in l.empties || a in l.fulls
    ensures a in l.areas ==> a !in l.empties && a !in l.fulls && m[a] < n && (n >= 2 ==> m[a] > 0)
    ensures a in l.empties ==> a !in l.fulls && m[a] == 0
    ensures a in l.fulls ==> m[a] == n
    ensures a in m ==> m[a] <= live
  {
    CountIn(l.areas, a);
    CountIn(l.empties, a);
    CountIn(l.fulls, a);
    assert a in m ==> l.Occurs(a) == 1;
    if a in l.areas {
      WithinMeans(l.areas, m, if n >= 2 then 1 else 0, n - 1, a);
    }
    if a in l.empties {
      WithinMeans(l.empties, m, 0, 0, a);
    }
    if a in l.fulls {
      WithinMeans(l.fulls, m, n, n, a);
    }
  }

  /** Where an area with a count belongs. */
  ghost predicate Suits(count: nat, n: nat, place: Place) {
    match place
    case AreasFront => count < n && (n >= 2 ==> count > 0)
    case AreasBack => count < n && (n >= 2 ==> count > 0)
    case EmptyFront => count == 0
    case FullBack => count == n
  }

  lemma SortedWithout(l: Lists, m: map<Area, nat>, n: nat, a: Area)
    requires Sorted(l, m, n) && l.Occurs(a) == 1
    ensures Sorted(l.Without(a), m, n) && l.Without(a).Total(m) + CountOf(m, a) == l.Total(m)
  {
    Removed(l.areas, m, if n >= 2 then 1 else 0, n - 1, a);
    Removed(l.empties, m, 0, 0, a);
    Removed(l.fulls, m, n, n, a);
  }

  lemma OccursWithout(l: Lists, a: Area, b: Area)
    requires l.Occurs(a) == 1
    ensures l.Without(a).Occurs(b) == if b == a then 0 else l.Occurs(b)
  {
    CountUnlinked(l.areas, a, b);
    CountUnlinked(l.empties, a, b);
    CountUnlinked(l.fulls, a, b);
  }

  lemma SortedPut(l: Lists, m: map<Area, nat>, n: nat, a: Area, place: Place)
    requires Sorted(l, m, n) && a in m && Suits(m[a], n, place)
    ensures Sorted(l.Put(a, place), m, n) && l.Put(a, place).Total(m) == l.Total(m) + m[a]
  {
    match place
    case AreasFront => AddedCons(l.areas, m, if n >= 2 then 1 else 0, n - 1, a);
    case AreasBack => AddedSnoc(l.areas, m, if n >= 2 then 1 else 0, n - 1, a);
    case EmptyFront => AddedCons(l.empties, m, 0, 0, a);
    case FullBack => AddedSnoc(l.fulls, m, n, n, a);
  }

  lemma OccursPut(l: Lists, a: Area, place: Place, b: Area)
    ensures l.Put(a, place).Occurs(b) == l.Occurs(b) + if b == a then 1 else 0
  {
    match place
    case AreasFront => CountCons(l.areas, a, b);
    case AreasBack => CountSnoc(l.areas, a, b);
    case EmptyFront => CountCons(l.empties, a, b);
    case FullBack => CountSnoc(l.fulls, a, b);
  }

  lemma SortedAbsent(l: Lists, m: map<Area, nat>, n: nat, a: Area, v: nat)
    requires Sorted(l, m, n) && l.Occurs(a) == 0
    ensures Sorted(l, m[a := v], n) && l.Total(m[a := v]) == l.Total(m)
  {
    Recounted(l.areas, m, if n >= 2 then 1 else 0, n - 1, a, v);
    Recounted(l.empties, m, 0, 0, a, v);
    Recounted(l.fulls, m, n, n, a, v);
  }

  lemma FiledNew(l: Lists, m: map<Area, nat>, n: nat, live: nat, a: Area)
    requires Filed(l, m, n, live) && a !in m
    ensures Filed(l.Put(a, EmptyFront), m[a := 0], n, live)
  {
    FiledMeans(l, m, n, live, a);
    CountIn(l.areas, a);
    CountIn(l.empties, a);
    CountIn(l.fulls, a);
    SortedAbsent(l, m, n, a, 0);
    SortedPut(l, m[a := 0], n, a, EmptyFront);
    forall b | b in m[a := 0] ensures l.Put(a, EmptyFront).Occurs(b) == 1 {
      OccursPut(l, a, EmptyFront, b);
      assert b in m ==> l.Occurs(b) == 1;
    }
  }

  /** An area moves to another list when its count changes; nothing is lost and
      nothing duplicated. */
  lemma FiledMoved(l: Lists, m: map<Area, nat>, n: nat, live: nat, a: Area, v: nat, place: Place)
    requires Filed(l, m, n, live) && a in m && Suits(v, n, place)
    ensures m[a] <= live && Filed(l.Without(a).Put(a, place), m[a := v], n, live - m[a] + v)
  {
    assert l.Occurs(a) == 1;
    var l1, m1 := l.Without(a), m[a := v];
    SortedWithout(l, m, n, a);
    OccursWithout(l, a, a);
    SortedAbsent(l1, m, n, a, v);
    SortedPut(l1, m1, n, a, place);
    forall b | b in m1 ensures l1.Put(a, place).Occurs(b) == 1 {
      OccursWithout(l, a, b);
      OccursPut(l1, a, place, b);
      assert l.Occurs(b) == 1;
    }
  }

  /** An area stays in the main list when its count changes. */
  lemma FiledStays(l: Lists, m: map<Area, nat>, n: nat, live: nat, a: Area, v: nat)
    requires Filed(l, m, n, live) && a in m && 0 < m[a] < n && 0 < v < n
    ensures m[a] <= live && Filed(l, m[a := v], n, live - m[a] + v)
  {
    FiledMeans(l, m, n, live, a);
    CountIn(l.areas, a);
    CountIn(l.empties, a);
    CountIn(l.fulls, a);
    assert l.Occurs(a) == 1;
    Recounted(l.areas, m, if n >= 2 then 1 else 0, n - 1, a, v);
    Recounted(l.empties, m, 0, 0, a, v);
    Recounted(l.fulls, m, n, n, a, v);
  }

  /** Where an area goes after one of its slices was handed out. */
  function AfterAlloc(l: Lists, a: Area, wasEmpty: bool, isFull: bool): Lists {
    if isFull then l.Without(a).Put(a, FullBack)
    else if wasEmpty then l.Without(a).Put(a, AreasBack)
    else l
  }

  lemma FiledAlloc(l: Lists, m: map<Area, nat>, n: nat, live: nat, a: Area)
    requires Filed(l, m, n, live) && a in m && m[a] < n
    ensures Filed(AfterAlloc(l, a, m[a] == 0, m[a] + 1 == n), m[a := m[a] + 1], n, live + 1)
  {
    if m[a] + 1 == n {
      FiledMoved(l, m, n, live, a, m[a] + 1, FullBack);
    } else if m[a] == 0 {
      FiledMoved(l, m, n, live, a, m[a] + 1, AreasBack);
    } else {
      FiledStays(l, m, n, live, a, m[a] + 1);
    }
  }

  /** Where an area goes after one of its slices was returned. */
  function AfterFree(l: Lists, a: Area, wasFull: bool, isEmpty: bool): Lists {
    if wasFull then l.Without(a).Put(a, AreasFront)
    else if isEmpty then l.Without(a).Put(a, EmptyFront)
    else l
  }

  lemma FiledFree(l: Lists, m: map<Area, nat>, n: nat, live: nat, a: Area)
    requires Filed(l, m, n, live) && a in m && 0 < m[a] <= n
    ensures live > 0
    ensures Filed(AfterFree(l, a, m[a] == n, m[a] == 1), m[a := m[a] - 1], n, live - 1)
  {
    FiledMeans(l, m, n, live, a);
    if m[a] == n {
      FiledMoved(l, m, n, live, a, m[a] - 1, AreasFront);
    } else if m[a] == 1 {
      FiledMoved(l, m, n, live, a, m[a] - 1, EmptyFront);
    } else {
      FiledStays(l, m, n, live, a, m[a] - 1);
    }
  }

  /** In which list an area is, by its count, and that the others do not move: a full one
      comes last among the full ones; one from the empty ones comes last in the main list,
      so that areas in use are filled up first. */
  lemma AllocOutcome(l: Lists, m: map<Area, nat>, n: nat, live: nat, a: Area)
    requires Filed(l, m, n, live) && a in m && m[a] < n
    ensures var l' := AfterAlloc(l, a, m[a] == 0, m[a] + 1 == n);
            && l'.empties == Unlinked(l.empties, a)
            && l'.fulls == (if m[a] + 1 == n then l.fulls + [a] else l.fulls)
            && l'.areas == (if m[a] + 1 == n then Unlinked(l.areas, a) else if m[a] == 0 then l.areas + [a] else l.areas)
  {
    FiledMeans(l, m, n, live, a);
    UnlinkedAbsent(l.fulls, a);
    if a !in l.areas {
      UnlinkedAbsent(l.areas, a);
    }
    if a !in l.empties {
      UnlinkedAbsent(l.empties, a);
    }
  }

  /** An area that was full comes first in the main list, so that the next slice is taken
      from it; one that has become empty comes first among the empty ones. */
  lemma FreeOutcome(l: Lists, m: map<Area, nat>, n: nat, live: nat, a: Area)
    requires Filed(l, m, n, live) && a in m && 0 < m[a] <= n
    ensures var l' := AfterFree(l, a, m[a] == n, m[a] == 1);
            && l'.fulls == Unlinked(l.fulls, a)
            && l'.empties == (if m[a] == 1 < n then [a] + l.empties else l.empties)
            && l'.areas == (if m[a] == n then [a] + l.areas else if m[a] == 1 then Unlinked(l.areas, a) else l.areas)
  {
    FiledMeans(l, m, n, live, a);
    UnlinkedAbsent(l.empties, a);
    if a !in l.areas {
      UnlinkedAbsent(l.areas, a);
    }
    if a !in l.fulls {
      UnlinkedAbsent(l.fulls, a);
    }
  }

  /** When everything was returned, only the list of empty areas is populated;
      this needs at least two slices in an area. */
  lemma AllReturned(l: Lists, m: map<Area, nat>, n: nat)
    requires Filed(l, m, n, 0) && n >= 2
    ensures l.areas == [] && l.fulls == []
  {
  }

  /** The exact condition: an area whose last slice is returned goes to the empty
      areas if and only if it has room for two; an area with one slice goes to the
      main list, where it does not belong. */
  lemma EmptiedIsFiled(l: Lists, m: map<Area, nat>, n: nat, live: nat, a: Area)
    requires Filed(l, m, n, live) && a in m && m[a] == 1 <= n
    ensures var l' := AfterFree(l, a, m[a] == n, true);
            (a in l'.empties <==> n >= 2) && (a in l'.areas <==> n == 1)
  {
    var place := if m[a] == n then AreasFront else EmptyFront;
    var l' := l.Without(a).Put(a, place);
    assert l.Occurs(a) == 1;
    OccursWithout(l, a, a);
    CountIn(l'.areas, a);
    CountIn(l'.empties, a);
    CountCons(l.Without(a).areas, a, a);
    CountCons(l.Without(a).empties, a, a);
  }

  // ---- The pool ----

  class Pool {
    const g: Geometry
    var lists: Lists

    /** All areas with the number of their allocated slices, and the number of
        slices that are handed out and not returned. */
    ghost var counts: map<Area, nat>
    ghost var live: nat

    /** The areas' memory, and the area that each array of slots belongs to. */
    ghost var parts: set<object>
    ghost var owner: map<array<nat>, Area>

    /** These are the areas with their counts, each with slots of its own. */
    ghost predicate Holds(counts: map<Area, nat>)
      reads this`parts, this`owner, parts
    {
      && 0 < g.slicesPerArea < END_OF_LIST && this !in parts
      && (forall a :: a in counts ==> a in parts && a.slots in parts && a.slots in owner && owner[a.slots] == a)
      && (forall a :: a in counts ==> a.Is(g.slicesPerArea, counts[a]))
    }

    /** Also, every area is in the list where it belongs. */
    ghost predicate Valid()
      reads this, parts
    {
      Holds(counts) && Filed(lists, counts, g.slicesPerArea, live)
    }

    constructor (wantedSize: nat, wantedSlices: nat)
      requires wantedSize > 0 && wantedSlices > 0 && MakeGeometry(wantedSize, wantedSlices).slicesPerArea < END_OF_LIST
      ensures Valid() && lists == Lists([], [], []) && live == 0
      ensures g == MakeGeometry(wantedSize, wantedSlices) && g.Valid()
    {
      GeometryIsValid(wantedSize, wantedSlices);
      g := MakeGeometry(wantedSize, wantedSlices);
      lists, live := Lists([], [], []), 0;
      counts, parts, owner := map[], {}, map[];
    }

    /** The first area that is not full. */
    method FindNonFullArea() returns (area: Area?)
      requires Filed(lists, counts, g.slicesPerArea, live) && g.slicesPerArea > 0
      ensures if lists.areas != [] then area == lists.areas[0]
              else if lists.empties != [] then area == lists.empties[0]
              else area == null
      ensures area != null ==> area in counts && counts[area] < g.slicesPerArea
    {
      if lists.areas != [] {
        area := lists.areas[0];
      } else if lists.empties != [] {
        area := lists.empties[0];
      } else {
        area := null;
      }
    }

    /** A new area, which no other one shares its slots with. */
    method NewArea() returns (area: Area)
      requires Holds(counts)
      modifies `parts, `owner
      ensures fresh(area) && fresh(area.slots) && area !in counts && Holds(counts[area := 0])
    {
      area := new Area(g.slicesPerArea);
      parts, owner := parts + {area, area.slots}, owner[area.slots := area];
    }

    /** A new area goes to the empty ones. */
    method AddArea() returns (area: Area)
      requires Valid()
      modifies this
      ensures Valid() && fresh(area) && fresh(area.slots) && live == old(live) && lists == old(lists).Put(area, EmptyFront)
      ensures area in counts && counts[area] == 0 && forall b :: b in old(counts) ==> b in counts
    {
      ghost var before := counts;
      area := NewArea();
      ghost var after := before[area := 0];
      label Made:
      FileNew(area, before, after);
      assert Holds(after) == old@Made(Holds(after));
    }

    method FileNew(area: Area, ghost m: map<Area, nat>, ghost after: map<Area, nat>)
      requires Filed(lists, m, g.slicesPerArea, live) && area !in m && after == m[area := 0]
      modifies `lists, `counts
      ensures Filed(lists, after, g.slicesPerArea, live) && counts == after && lists == old(lists).Put(area, EmptyFront)
    {
      FiledNew(lists, m, g.slicesPerArea, live, area);
      lists, counts := lists.Put(area, EmptyFront), after;
    }

    method TakeSlice(area: Area, ghost m: map<Area, nat>, ghost after: map<Area, nat>) returns (i: nat)
      requires Holds(m) && area in m && m[area] < g.slicesPerArea && after == m[area := m[area] + 1]
      modifies area, area.slots
      ensures Holds(after) && area.IsFull() == (m[area] + 1 == g.slicesPerArea)
      ensures i < area.n && old(area.slots[i]) != ALLOCATED && area.slots[i] == ALLOCATED
      ensures area.slots[..] == old(area.slots[..])[i := ALLOCATED]
    {
      area.FullMeans();
      i := area.Alloc();
      area.FullMeans();
    }

    method ReturnSlice(area: Area, i: nat, ghost m: map<Area, nat>, ghost after: map<Area, nat>) returns (wasFull: bool)
      requires Holds(m) && area in m && i < area.n && area.slots[i] == ALLOCATED && m[area] > 0 && after == m[area := m[area] - 1]
      modifies area, area.slots
      ensures Holds(after) && area.IsEmpty() == (m[area] == 1) && wasFull == (m[area] == g.slicesPerArea) && m[area] <= g.slicesPerArea
      ensures area.slots[i] != ALLOCATED && area.slots[..] == old(area.slots[..])[i := area.slots[i]]
    {
      area.FullMeans();
      wasFull := area.IsFull();
      area.Free(i);
    }

    /** The area moves to the list of full areas when it has become full, else to
        the main list if it was empty. */
    method FileAllocated(area: Area, wasEmpty: bool, isFull: bool, ghost m: map<Area, nat>, ghost after: map<Area, nat>)
      requires Filed(lists, m, g.slicesPerArea, live) && area in m && m[area] < g.slicesPerArea && after == m[area := m[area] + 1]
      requires wasEmpty == (m[area] == 0) && isFull == (m[area] + 1 == g.slicesPerArea)
      modifies `lists, `live, `counts
      ensures Filed(lists, after, g.slicesPerArea, live) && live == old(live) + 1 && counts == after
      ensures lists == AfterAlloc(old(lists), area, wasEmpty, isFull)
    {
      FiledAlloc(lists, m, g.slicesPerArea, live, area);
      if isFull {
        lists := lists.Without(area).Put(area, FullBack);
      } else if wasEmpty {
        lists := lists.Without(area).Put(area, AreasBack);
      }
      live, counts := live + 1, after;
    }

    /** An area that was full goes to the front of the main list, another one to
        the empty areas once it is empty. */
    method FileFreed(area: Area, wasFull: bool, isEmpty: bool, ghost m: map<Area, nat>, ghost after: map<Area, nat>)
      requires Filed(lists, m, g.slicesPerArea, live) && area in m && 0 < m[area] <= g.slicesPerArea && after == m[area := m[area] - 1]
      requires wasFull == (m[area] == g.slicesPerArea) && isEmpty == (m[area] == 1)
      modifies `lists, `live, `counts
      ensures old(live) > 0 && Filed(lists, after, g.slicesPerArea, live) && live == old(live) - 1 && counts == after
      ensures lists == AfterFree(old(lists), area, wasFull, isEmpty)
    {
      FiledFree(lists, m, g.slicesPerArea, live, area);
      if wasFull {
        lists := lists.Without(area).Put(area, AreasFront);
      } else if isEmpty {
        lists := lists.Without(area).Put(area, EmptyFront);
      }
      live, counts := live - 1, after;
    }

    /** Hands out a slice of an area that has one. */
    method AllocFrom(area: Area) returns (i: nat)
      requires Valid() && area in counts && counts[area] < g.slicesPerArea
      modifies `counts, `lists, `live, area, area.slots
      ensures Valid() && live == old(live) + 1
      ensures forall b :: b in old(counts) ==> b in counts
      ensures lists == AfterAlloc(old(lists), area, old(counts)[area] == 0, old(counts)[area] + 1 == g.slicesPerArea)
      ensures i < area.n && old(area.slots[i]) != ALLOCATED && area.slots[i] == ALLOCATED
      ensures area.slots[..] == old(area.slots[..])[i := ALLOCATED]
    {
      ghost var before := counts;
      ghost var after := before[area := before[area] + 1];
      var wasEmpty := area.IsEmpty();
      i := TakeSlice(area, before, after);
      label Taken:
      FileAllocated(area, wasEmpty, area.IsFull(), before, after);
      assert Holds(after) == old@Taken(Holds(after));
    }

    /** Hands out a slice of a new area. */
    method AllocNew() returns (area: Area, i: nat)
      requires Valid()
      modifies this
      ensures Valid() && live == old(live) + 1 && area in counts && fresh(area) && fresh(area.slots)
      ensures forall b :: b in old(counts) ==> b in counts
      ensures i < area.n && area.slots[i] == ALLOCATED
    {
      area := AddArea();
      i := AllocFrom(area);
    }

    /** Hands out a slice, from the main list if possible, then from an empty
        area, then from a new one. */
    method AllocSlot() returns (area: Area, i: nat)
      requires Valid()
      modifies this, parts
      ensures Valid() && live == old(live) + 1 && area in counts
      ensures forall b :: b in old(counts) ==> b in counts
      ensures i < area.n && area.slots[i] == ALLOCATED
      ensures if old(lists.areas) != [] then area == old(lists.areas)[0]
              else if old(lists.empties) != [] then area == old(lists.empties)[0]
              else fresh(area)
      ensures fresh(area) || area in old(counts)
      ensures !fresh(area) ==> old(area.slots[i]) != ALLOCATED && area.slots[..] == old(area.slots[..])[i := ALLOCATED]
      ensures forall s :: s in old(owner) && s != area.slots ==> unchanged(s)
    {
      var found := FindNonFullArea();
      if found == null {
        area, i := AllocNew();
      } else {
        area := found;
        i := AllocFrom(area);
      }
    }

    /** Takes a slice of an area back that has handed some out. */
    method FreeFrom(area: Area, i: nat)
      requires Valid() && area in counts && counts[area] > 0 && i < area.n && area.slots[i] == ALLOCATED
      modifies `counts, `lists, `live, area, area.slots
      ensures Valid() && old(live) > 0 && live == old(live) - 1
      ensures forall b :: b in old(counts) ==> b in counts
      ensures lists == AfterFree(old(lists), area, old(counts)[area] == g.slicesPerArea, old(counts)[area] == 1)
      ensures area.slots[i] != ALLOCATED && area.slots[..] == old(area.slots[..])[i := area.slots[i]]
    {
      ghost var before := counts;
      ghost var after := before[area := before[area] - 1];
      var wasFull := ReturnSlice(area, i, before, after);
      label Returned:
      FileFreed(area, wasFull, area.IsEmpty(), before, after);
      assert Holds(after) == old@Returned(Holds(after));
    }

    /** Takes a slice back. */
    method FreeSlot(area: Area, i: nat)
      requires Valid() && area in counts && i < area.n && area.slots[i] == ALLOCATED
      modifies `counts, `lists, `live, area, area.slots
      ensures Valid() && old(live) > 0 && live == old(live) - 1
      ensures forall b :: b in old(counts) ==> b in counts
      ensures lists == AfterFree(old(lists), area, old(counts)[area] == g.slicesPerArea, old(counts)[area] == 1)
      ensures area.slots[i] != ALLOCATED && area.slots[..] == old(area.slots[..])[i := area.slots[i]]
    {
      area.SomeAllocatedSlot(i);
      FreeFrom(area, i);
    }

    /** The pointer handed out lies inside the area, and its slice was free. */
    method Alloc() returns (area: Area, p: nat, ghost i: nat)
      requires Valid() && g.Valid()
      modifies this, parts
      ensures Valid() && live == old(live) + 1
      ensures area in counts && i < area.n && area.slots[i] == ALLOCATED
      ensures fresh(area) || (area in old(counts) && old(area.slots[i]) != ALLOCATED)
      ensures p == GetSlice(g, i) && g.headerPages * PAGE_SIZE <= p && p + g.sliceSize <= g.AreaSize()
    {
      var k: nat;
      area, k := AllocSlot();
      i := k;
      SliceInside(g, k);
      p := GetSlice(g, k);
    }

    /** The slice is found again by its pointer. */
    method Free(area: Area, p: nat, ghost i: nat)
      requires Valid() && g.Valid() && area in counts
      requires i < area.n && area.slots[i] == ALLOCATED && p == GetSlice(g, i)
      modifies `counts, `lists, `live, area, area.slots
      ensures Valid() && old(live) > 0 && live == old(live) - 1
      ensures area.slots[i] != ALLOCATED && area.slots[..] == old(area.slots[..])[i := area.slots[i]]
    {
      IndexOfSlice(g, i);
      FreeSlot(area, IndexOf(g, p));
    }

    method AddStats(list: seq<Area>, netto: nat, ghost lo: nat, ghost hi: int) returns (netto': nat)
      requires Within(list, counts, lo, hi) && forall a :: a in counts ==> a.allocatedCount == counts[a]
      ensures netto' == netto + Live(list, counts) * g.sliceSize
    {
      netto' := netto;
      ghost var done: nat := 0;
      assert list[0..] == list;
      for k := 0 to |list|
        invariant netto' == netto + done * g.sliceSize && Within(list[k..], counts, lo, hi)
        invariant done + Live(list[k..], counts) == Live(list, counts)
      {
        netto' := netto' + list[k].allocatedCount * g.sliceSize;
        assert list[k..][1..] == list[k + 1..];
        Distribute(done, list[k].allocatedCount, g.sliceSize);
        done := done + list[k].allocatedCount;
      }
    }

    /** The net size is exactly what is handed out. */
    method GetStats() returns (netto: nat)
      requires Valid()
      ensures netto == live * g.sliceSize
    {
      ghost var l, n := lists, g.slicesPerArea;
      netto := AddStats(lists.areas, 0, if n >= 2 then 1 else 0, n - 1);
      netto := AddStats(lists.empties, netto, 0, 0);
      netto := AddStats(lists.fulls, netto, n, n);
      SumOfParts(Live(l.areas, counts), Live(l.empties, counts), Live(l.fulls, counts), live, g.sliceSize, netto);
    }
  }

  lemma Distribute(a: nat, b: nat, c: nat)
    ensures (a + b) * c == a * c + b * c
  {
  }

  lemma SumOfParts(a: nat, b: nat, c: nat, sum: nat, size: nat, total: nat)
    requires sum == a + b + c && total == 0 + a * size + b * size + c * size
    ensures total == sum * size
  {
    Distribute(a, b, size);
    Distribute(a + b, c, size);
  }
}
