/** The circular doubly-linked list with embedded nodes
    (src/util/IntrusiveList.hxx), with default options. */
module IntrusiveList {
  import opened Seqs

  class Node {
    var next: Node
    var prev: Node

    constructor ()
      ensures next == this && prev == this
    {
      next, prev := this, this;
    }
  }

  /** Neighbours in the sequence point at each other. */
  ghost predicate Linked(s: seq<Node>)
    reads s
  {
    forall i :: 0 <= i < |s| - 1 ==> s[i].next == s[i + 1] && s[i + 1].prev == s[i]
  }

  /** The ring through head and the items. */
  ghost predicate Ring(head: Node, items: seq<Node>)
    reads [head] + items + [head]
  {
    Linked([head] + items + [head]) && Distinct([head] + items)
  }

  lemma LinkedConcat(a: seq<Node>, b: seq<Node>)
    requires Linked(a) && Linked(b)
    requires a != [] && b != [] ==> a[|a| - 1].next == b[0] && b[0].prev == a[|a| - 1]
    ensures Linked(a + b)
  {
    var s := a + b;
    forall i | 0 <= i < |s| - 1 ensures s[i].next == s[i + 1] && s[i + 1].prev == s[i] {
      if i + 1 < |a| {
        assert s[i] == a[i] && s[i + 1] == a[i + 1];
      } else if i >= |a| {
        assert s[i] == b[i - |a|] && s[i + 1] == b[i + 1 - |a|];
      }
    }
  }

  lemma LinkedSplit(a: seq<Node>, b: seq<Node>)
    requires Linked(a + b)
    ensures Linked(a) && Linked(b)
    ensures a != [] && b != [] ==> a[|a| - 1].next == b[0] && b[0].prev == a[|a| - 1]
  {
    var s := a + b;
    assert forall i :: 0 <= i < |a| ==> s[i] == a[i];
    assert forall i :: 0 <= i < |b| ==> b[i] == s[|a| + i];
  }

  /** A new link from a to b does not concern a linked sequence that has no other
      link from a or to b. */
  ghost predicate Spared(s: seq<Node>, a: Node, b: Node) {
    (forall i :: 0 <= i < |s| - 1 ==> s[i] != a) && (forall i :: 1 <= i < |s| ==> s[i] != b)
  }

  /** Links two nodes. The parts of lists that this spares remain linked. */
  method Connect(a: Node, b: Node, ghost parts: seq<seq<Node>>)
    requires forall k :: 0 <= k < |parts| ==> Linked(parts[k]) && Spared(parts[k], a, b)
    modifies a`next, b`prev
    ensures a.next == b && b.prev == a
    ensures forall k :: 0 <= k < |parts| ==> Linked(parts[k])
  {
    a.next := b;
    b.prev := a;
  }

  /** The nodes before a position and those from it on, each with the head. */
  ghost function Before(head: Node, items: seq<Node>, k: nat): seq<Node>
    requires k <= |items|
  {
    [head] + items[..k]
  }

  ghost function From(head: Node, items: seq<Node>, k: nat): seq<Node>
    requires k <= |items|
  {
    items[k..] + [head]
  }

  lemma RingSplit(head: Node, items: seq<Node>, k: nat)
    requires Ring(head, items) && k <= |items|
    ensures var a, b := Before(head, items, k), From(head, items, k);
            Linked(a) && Linked(b) && a[|a| - 1].next == b[0] && b[0].prev == a[|a| - 1]
  {
    var a, b := Before(head, items, k), From(head, items, k);
    assert a + b == [head] + items + [head];
    LinkedSplit(a, b);
  }

  lemma SparedBefore(head: Node, items: seq<Node>, k: nat, a: Node, b: Node)
    requires Distinct([head] + items) && k <= |items|
    requires a !in [head] + items[..k] || a == ([head] + items[..k])[k]
    requires b !in items[..k]
    ensures Spared(Before(head, items, k), a, b)
  {
    var s, r := Before(head, items, k), [head] + items;
    assert forall i :: 0 <= i < |s| ==> s[i] == r[i];
    forall i | 1 <= i < |s| ensures s[i] != b {
      assert s[i] == items[..k][i - 1];
    }
  }

  lemma SparedFrom(head: Node, items: seq<Node>, k: nat, a: Node, b: Node)
    requires Distinct([head] + items) && k <= |items|
    requires a !in items[k..]
    requires b !in items[k..] + [head] || b == (items[k..] + [head])[0]
    ensures Spared(From(head, items, k), a, b)
  {
    var s, r := From(head, items, k), [head] + items;
    assert forall i :: 0 <= i < |s| - 1 ==> s[i] == items[k..][i] == r[k + 1 + i];
    assert r[0] == head == s[|s| - 1];
  }

  lemma SplitApart(r: seq<Node>, m: nat)
    requires Distinct(r) && m <= |r|
    ensures forall n :: n in r[..m] ==> n !in r[m..]
  {
  }

  /** The two parts share the head only. */
  lemma PartsApart(head: Node, items: seq<Node>, k: nat)
    requires Distinct([head] + items) && k <= |items|
    ensures forall n :: n in Before(head, items, k) ==> n !in items[k..] && n in [head] + items
    ensures forall n :: n in From(head, items, k) ==> n !in items[..k] && n in [head] + items
  {
    var r := [head] + items;
    SplitApart(r, 1);
    SplitApart(r, k + 1);
    assert r[..1] == [head] && r[1..] == items;
    assert Before(head, items, k) == r[..k + 1] && items[k..] == r[k + 1..];
    forall n | n in From(head, items, k) ensures n !in items[..k] && n in r {
      if n in items[k..] {
        assert n !in r[..k + 1];
      } else {
        assert n == head && n == r[0];
      }
    }
  }

  lemma DistinctInsert(head: Node, items: seq<Node>, k: nat, t: Node)
    requires Distinct([head] + items) && k <= |items| && t !in items && t != head
    ensures Distinct([head] + (items[..k] + [t] + items[k..]))
  {
    var r, s := [head] + items, [head] + (items[..k] + [t] + items[k..]);
    assert t !in r;
    forall i | 0 <= i < |s| ensures i == k + 1 || s[i] == r[if i <= k then i else i - 1] {
    }
    forall i, j | 0 <= i < j < |s| ensures s[i] != s[j] {
      assert i != k + 1 ==> s[i] in r;
      assert j != k + 1 ==> s[j] in r;
    }
  }

  /** Both parts around a gap, in which some items are left out, survive when the
      gap is closed or filled with other nodes. */
  lemma GapParts(head: Node, items: seq<Node>, i: nat, j: nat)
    requires Distinct([head] + items) && i <= j <= |items|
    ensures var a, b := Before(head, items, i), From(head, items, j);
            && Spared(a, a[|a| - 1], b[0]) && Spared(b, a[|a| - 1], b[0])
            && a[|a| - 1] in [head] + items && b[0] in [head] + items
            && (forall n :: n in a ==> n in [head] + items) && (forall n :: n in b ==> n in [head] + items)
  {
    var a, b := Before(head, items, i), From(head, items, j);
    PartsApart(head, items, i);
    PartsApart(head, items, j);
    assert items[i..] == items[i..j] + items[j..] && items[..j] == items[..i] + items[i..j];
    assert a[|a| - 1] in a && b[0] in b;
    SparedBefore(head, items, i, a[|a| - 1], b[0]);
    SparedFrom(head, items, j, a[|a| - 1], b[0]);
  }

  /** Links a node between two parts. */
  method Bridge(q: Node, t: Node, p: Node, ghost a: seq<Node>, ghost b: seq<Node>)
    requires Linked(a) && Linked(b) && a != [] && b != [] && q == a[|a| - 1] && p == b[0]
    requires Spared(a, q, p) && Spared(b, q, p) && t !in a && t !in b
    modifies q`next, t, p`prev
    ensures Linked(a + [t] + b)
  {
    Connect(q, t, [a, b]);
    LinkedConcat(a, [t]);
    Connect(t, p, [a + [t], b]);
    LinkedConcat(a + [t], b);
  }

  lemma RingAround(head: Node, items: seq<Node>, k: nat)
    requires Ring(head, items) && k < |items|
    ensures var a, b := Before(head, items, k), From(head, items, k + 1);
            && Linked(a) && Linked(b)
            && items[k].prev == a[|a| - 1] && a[|a| - 1].next == items[k] && items[k].next == b[0] && b[0].prev == items[k]
  {
    var a, b := Before(head, items, k), From(head, items, k + 1);
    assert [head] + items + [head] == a + ([items[k]] + b);
    LinkedSplit(a, [items[k]] + b);
    LinkedSplit([items[k]], b);
  }

  lemma DistinctRemove(head: Node, items: seq<Node>, k: nat)
    requires Distinct([head] + items) && k < |items|
    ensures Distinct([head] + (items[..k] + items[k + 1..]))
    ensures items[k] !in items[..k] && items[k] !in items[k + 1..] && items[k] != head
  {
    var r, s := [head] + items, [head] + (items[..k] + items[k + 1..]);
    forall i | 0 <= i < |s| ensures s[i] == r[if i <= k then i else i + 1] {
    }
    assert forall i :: 0 <= i < |items| ==> items[i] == r[i + 1];
    assert r[k + 1] == items[k] && r[0] == head;
  }

  lemma ItemsSpared(head: Node, items: seq<Node>)
    requires items != [] && Distinct([head] + items)
    ensures Distinct(items) && head !in items
    ensures Spared(items, head, items[0]) && Spared([head] + items, items[|items| - 1], head)
  {
    var r := [head] + items;
    assert forall i :: 0 <= i < |items| ==> items[i] == r[i + 1];
    assert r[0] == head;
  }

  /** The head's links are set to linked items, and theirs to the head. */
  method Adopt(head: Node, first: Node, last: Node, ghost items: seq<Node>)
    requires Linked(items) && items != [] && Distinct([head] + items)
    requires first == items[0] && last == items[|items| - 1]
    modifies head, first`prev, last`next
    ensures Ring(head, items)
  {
    ItemsSpared(head, items);
    Connect(head, first, [items]);
    LinkedConcat([head], items);
    Connect(last, head, [[head] + items]);
    LinkedConcat([head] + items, [head]);
  }

  lemma RingEmpty(head: Node, items: seq<Node>)
    requires Ring(head, items)
    ensures head.next == head <==> items == []
    ensures items == [] ==> head.prev == head
    ensures items != [] ==> head.next == items[0] && head.prev == items[|items| - 1] && Linked(items)
  {
    var r := [head] + items + [head];
    assert r[0] == head && r[|r| - 1] == head;
    assert forall i :: 0 <= i < |items| ==> r[i + 1] == items[i];
    assert ([head] + items)[0] == head;
    assert items != [] ==> ([head] + items)[1] == items[0];
  }

  class List {
    const head: Node

    /** What the ring stands for. */
    ghost var items: seq<Node>

    ghost predicate Valid()
      reads this, [head] + items + [head]
    {
      Ring(head, items)
    }

    constructor ()
      ensures Valid() && items == [] && fresh(head)
    {
      head := new Node();
      items := [];
    }

    ghost function Nodes(): set<Node>
      reads this
    {
      NodesOf(head, items)
    }

    /** The node that an iterator to the k-th item points to; the head at the end. */
    ghost function At(k: nat): Node
      reads this
      requires k <= |items|
    {
      if k < |items| then items[k] else head
    }

    /** Inserts a node before the position p, which is that of the k-th item. */
    method Insert(p: Node, t: Node, ghost k: nat)
      requires Valid() && k <= |items| && p == At(k) && t !in items && t != head
      modifies this, Nodes(), t
      ensures Valid() && items == old(items[..k] + [t] + items[k..])
    {
      ghost var a, b := Before(head, items, k), From(head, items, k);
      RingSplit(head, items, k);
      GapParts(head, items, k, k);
      DistinctInsert(head, items, k, t);
      Bridge(p.prev, t, p, a, b);
      items := items[..k] + [t] + items[k..];
      assert [head] + items + [head] == a + [t] + b;
    }

    /** Takes an item out of the ring. */
    method Unlink(t: Node, ghost k: nat)
      requires Valid() && k < |items| && t == items[k]
      modifies this, Nodes()
      ensures Valid() && items == old(items[..k] + items[k + 1..])
      ensures Nodes() <= old(Nodes())
    {
      ghost var a, b := Before(head, items, k), From(head, items, k + 1);
      RingAround(head, items, k);
      GapParts(head, items, k, k + 1);
      DistinctRemove(head, items, k);
      Connect(t.prev, t.next, [a, b]);
      LinkedConcat(a, b);
      items := items[..k] + items[k + 1..];
      assert [head] + items + [head] == a + b;
    }

    method PushFront(t: Node)
      requires Valid() && t !in items && t != head
      modifies this, Nodes(), t
      ensures Valid() && items == [t] + old(items)
    {
      RingNext(head, items, 0);
      Insert(head.next, t, 0);
      assert items == [t] + old(items);
    }

    method PushBack(t: Node)
      requires Valid() && t !in items && t != head
      modifies this, Nodes(), t
      ensures Valid() && items == old(items) + [t]
    {
      Insert(head, t, |items|);
      assert items == old(items) + [t];
    }

    method PopFront() returns (t: Node)
      requires Valid() && items != []
      modifies this, Nodes()
      ensures Valid() && t == old(items[0]) && items == old(items[1..]) && Nodes() <= old(Nodes())
    {
      RingNext(head, items, 0);
      t := head.next;
      Unlink(t, 0);
    }

    /** The number of items, by a walk round the ring. */
    method Size() returns (n: nat)
      requires Valid()
      ensures n == |items|
    {
      n := 0;
      RingNext(head, items, 0);
      var cursor := head.next;
      while cursor != head
        invariant n <= |items| && cursor == At(n)
        decreases |items| - n
      {
        RingNext(head, items, n + 1);
        n := n + 1;
        cursor := cursor.next;
      }
      HeadApart(head, items);
    }

    /** Takes out all items one after the other and disposes of them, in order. */
    method ClearAndDispose() returns (disposed: seq<Node>)
      requires Valid()
      modifies this, Nodes()
      ensures Valid() && items == [] && disposed == old(items)
    {
      disposed := [];
      ghost var all, m := items, 0;
      RingEmpty(head, items);
      while head.next != head
        invariant Valid() && m <= |all| && disposed == all[..m] && items == all[m..] && (head.next == head <==> items == [])
        invariant Nodes() <= old(Nodes())
        decreases |items|
      {
        assert all[m..][1..] == all[m + 1..] && all[..m + 1] == all[..m] + [all[m]];
        var t := PopFront();
        disposed, m := disposed + [t], m + 1;
        RingEmpty(head, items);
      }
    }

    /** The first m items have been visited, and n is the next one. */
    ghost predicate Visited(all: seq<Node>, m: nat, kept: seq<Node>, disposed: seq<Node>, n: Node, pred: Node -> bool)
      reads this
    {
      && m <= |all| && items == kept + all[m..] && n == At(|kept|)
      && kept == Select(all[..m], pred, false) && disposed == Select(all[..m], pred, true)
    }

    method Visit(n: Node, pred: Node -> bool, disposed: seq<Node>, ghost all: seq<Node>, ghost m: nat, ghost kept: seq<Node>)
      returns (n': Node, disposed': seq<Node>, ghost kept': seq<Node>)
      requires Valid() && m < |all| && Visited(all, m, kept, disposed, n, pred)
      modifies this, Nodes()
      ensures Valid() && Nodes() <= old(Nodes()) && Visited(all, m + 1, kept', disposed', n', pred)
      ensures disposed' == if pred(n) then disposed + [n] else disposed
    {
      assert items[|kept|] == n == all[m];
      RingNext(head, items, |kept| + 1);
      n' := n.next;
      SelectSnoc(all, m, pred);
      if pred(n) {
        Unlink(n, |kept|);
        disposed', kept' := disposed + [n], kept;
      } else {
        disposed', kept' := disposed, kept + [n];
      }
      assert items == kept' + all[m + 1..];
    }

    /** Takes out and disposes of exactly the items that match, in order. */
    method RemoveAndDisposeIf(pred: Node -> bool) returns (result: nat, disposed: seq<Node>)
      requires Valid()
      modifies this, Nodes()
      ensures Valid() && items == Select(old(items), pred, false) && disposed == Select(old(items), pred, true)
      ensures result == |disposed|
    {
      result, disposed := 0, [];
      ghost var all, m, kept := items, 0, [];
      RingNext(head, items, 0);
      var n := head.next;
      while n != head
        invariant Valid() && Nodes() <= old(Nodes()) && Visited(all, m, kept, disposed, n, pred)
        invariant result == |disposed|
        decreases |all| - m
      {
        if pred(n) {
          result := result + 1;
        }
        n, disposed, kept := Visit(n, pred, disposed, all, m, kept);
        m := m + 1;
      }
      HeadApart(head, items);
      assert all[..m] == all;
    }
  }

  /** The items for which the predicate has the given value. */
  function Select(s: seq<Node>, pred: Node -> bool, value: bool): seq<Node> {
    if s == [] then []
    else Select(s[..|s| - 1], pred, value) + if pred(s[|s| - 1]) == value then [s[|s| - 1]] else []
  }

  lemma SelectSnoc(all: seq<Node>, m: nat, pred: Node -> bool)
    requires m < |all|
    ensures Select(all[..m + 1], pred, true) == Select(all[..m], pred, true) + if pred(all[m]) then [all[m]] else []
    ensures Select(all[..m + 1], pred, false) == Select(all[..m], pred, false) + if pred(all[m]) then [] else [all[m]]
  {
    var s := all[..m + 1];
    assert s[..m] == all[..m] && s[m] == all[m];
  }

  /** The node before a position points to it. */
  lemma RingNext(head: Node, items: seq<Node>, k: nat)
    requires Ring(head, items) && k <= |items|
    ensures (if k == 0 then head else items[k - 1]).next == if k < |items| then items[k] else head
  {
    RingSplit(head, items, k);
  }

  /** Takes over all items of another list, whose ring is empty then. */
  method MoveConstruct(src: List) returns (list: List)
    requires src.Valid()
    modifies src, src.Nodes()
    ensures list.Valid() && fresh(list) && fresh(list.head) && src.Valid()
    ensures list.items == old(src.items) && src.items == []
  {
    list := new List();
    RingEmpty(src.head, src.items);
    if src.head.next == src.head {
      return;
    }
    HandOver(src, list);
  }

  /** Two rings have no node in common. */
  ghost predicate Separate(h: Node, x: seq<Node>, g: Node, y: seq<Node>) {
    h != g && h !in y && g !in x && forall n :: n in x ==> n !in y
  }

  ghost predicate Disjoint(a: List, b: List)
    reads a, b
  {
    a != b && Separate(a.head, a.items, b.head, b.items)
  }

  /** Moves the items of a list into an empty one. */
  method HandOver(src: List, dest: List)
    requires src.Valid() && dest.Valid() && Disjoint(src, dest) && src.items != [] && dest.items == []
    modifies src, src.Nodes(), dest, dest.head
    ensures src.Valid() && dest.Valid() && Disjoint(src, dest)
    ensures dest.items == old(src.items) && src.items == []
  {
    RingEmpty(src.head, src.items);
    OtherHead(src.head, dest.head, src.items);
    HeadApart(src.head, src.items);
    Adopt(dest.head, src.head.next, src.head.prev, src.items);
    assert src.head !in [dest.head] + src.items + [dest.head];
    src.head.next, src.head.prev := src.head, src.head;
    dest.items, src.items := src.items, [];
  }

  lemma HeadApart(head: Node, items: seq<Node>)
    requires Distinct([head] + items)
    ensures head !in items
  {
    SplitApart([head] + items, 1);
    assert ([head] + items)[1..] == items;
  }

  lemma OtherHead(head: Node, other: Node, items: seq<Node>)
    requires Distinct([head] + items) && other !in items
    ensures Distinct([other] + items)
  {
    var r, s := [head] + items, [other] + items;
    assert forall i :: 0 < i < |s| ==> s[i] == r[i] && s[i] == items[i - 1];
  }

  /** Exchanges the items of two lists. */
  method Swap(a: List, b: List)
    requires a.Valid() && b.Valid() && Disjoint(a, b)
    modifies a, a.Nodes(), b, b.Nodes()
    ensures a.Valid() && b.Valid() && Disjoint(a, b)
    ensures a.items == old(b.items) && b.items == old(a.items)
  {
    RingEmpty(a.head, a.items);
    RingEmpty(b.head, b.items);
    if a.head.next == a.head {
      if b.head.next == b.head {
        return;
      }
      HandOver(b, a);
    } else if b.head.next == b.head {
      HandOver(a, b);
    } else {
      Exchange(a, b);
    }
  }

  method Exchange(a: List, b: List)
    requires a.Valid() && b.Valid() && Disjoint(a, b) && a.items != [] && b.items != []
    modifies a, a.Nodes(), b, b.Nodes()
    ensures a.Valid() && b.Valid() && Disjoint(a, b)
    ensures a.items == old(b.items) && b.items == old(a.items)
  {
    ghost var x, y := a.items, b.items;
    RingEmpty(a.head, x);
    RingEmpty(b.head, y);
    OtherHead(a.head, b.head, x);
    OtherHead(b.head, a.head, y);
    HeadApart(a.head, x);
    HeadApart(b.head, y);
    a.items, b.items := y, x;
    AdoptBoth(a.head, b.head, x, y);
  }

  method AdoptBoth(h: Node, g: Node, ghost x: seq<Node>, ghost y: seq<Node>)
    requires x != [] && y != [] && Linked(x) && Linked(y) && Distinct([h] + y) && Distinct([g] + x)
    requires h.next == x[0] && h.prev == x[|x| - 1] && g.next == y[0] && g.prev == y[|y| - 1]
    requires Separate(h, x, g, y) && h !in x && g !in y
    modifies NodesOf(h, x), NodesOf(g, y)
    ensures Ring(h, y) && Ring(g, x)
  {
    var first, last := h.next, h.prev;
    assert y[0] in y && y[|y| - 1] in y && x[0] in x && x[|x| - 1] in x;
    Adopt(h, g.next, g.prev, y);
    assert Linked(x);
    ghost var r := [h] + y + [h];
    assert x[0] !in r && x[|x| - 1] !in r && g !in r;
    Adopt(g, first, last, x);
  }

  // ---- Moving a range ----

  lemma RingRange(head: Node, items: seq<Node>, i: nat, j: nat)
    requires Ring(head, items) && i < j <= |items|
    ensures var a, v, b := Before(head, items, i), items[i..j], From(head, items, j);
            && Linked(a) && Linked(v) && Linked(b)
            && v[0].prev == a[|a| - 1] && b[0].prev == v[|v| - 1]
  {
    var a, v, b := Before(head, items, i), items[i..j], From(head, items, j);
    assert [head] + items + [head] == a + (v + b);
    LinkedSplit(a, v + b);
    LinkedSplit(v, b);
  }

  /** A range of items and the rest of the ring have no node in common. */
  lemma RangeApart(head: Node, items: seq<Node>, i: nat, j: nat)
    requires Distinct([head] + items) && i <= j <= |items|
    ensures var a, v, b := Before(head, items, i), items[i..j], From(head, items, j);
            && Distinct(v) && Distinct([head] + (items[..i] + items[j..]))
            && (forall n :: n in v ==> n !in a && n !in b && n in items && n != head)
  {
    var r, s := [head] + items, [head] + (items[..i] + items[j..]);
    forall m | 0 <= m < |s| ensures s[m] == r[if m <= i then m else m + j - i] {
    }
    assert forall m :: 0 <= m < j - i ==> items[i..j][m] == r[i + 1 + m];
    PartsApart(head, items, i);
    PartsApart(head, items, j);
    assert items[i..] == items[i..j] + items[j..] && items[..j] == items[..i] + items[i..j];
    HeadApart(head, items);
  }

  lemma DistinctInsertRange(head: Node, items: seq<Node>, k: nat, v: seq<Node>)
    requires Distinct([head] + items) && k <= |items| && Distinct(v)
    requires forall n :: n in v ==> n !in items && n != head
    ensures Distinct([head] + (items[..k] + v + items[k..]))
  {
    var r, s := [head] + items, [head] + (items[..k] + v + items[k..]);
    forall i | 0 <= i < |s|
      ensures if k < i <= k + |v| then s[i] == v[i - k - 1] else s[i] == r[if i <= k then i else i - |v|]
    {
    }
    forall i, j | 0 <= i < j < |s| ensures s[i] != s[j] {
      assert if k < i <= k + |v| then s[i] in v else s[i] in r;
      assert if k < j <= k + |v| then s[j] in v else s[j] in r;
    }
  }

  /** Links a range between two parts; the rest remains as it is. */
  method BridgeRange(
    prev: Node, next: Node, first: Node, last: Node,
    ghost a: seq<Node>, ghost b: seq<Node>, ghost v: seq<Node>, ghost rest: seq<Node>)
    requires a != [] && b != [] && v != [] && Linked(a) && Linked(b) && Linked(v) && Linked(rest) && Distinct(v)
    requires prev == a[|a| - 1] && next == b[0] && first == v[0] && last == v[|v| - 1]
    requires Spared(a, prev, next) && Spared(b, prev, next)
    requires forall n :: n in v ==> n !in a && n !in b && n !in rest
    requires prev !in rest && next !in rest
    modifies prev`next, first`prev, last`next, next`prev
    ensures Linked(a + v + b) && Linked(rest)
  {
    assert prev in a && next in b && first in v && last in v;
    Connect(prev, first, [a, b, rest, v]);
    LinkedConcat(a, v);
    Connect(last, next, [a + v, b, rest]);
    LinkedConcat(a + v, b);
  }

  /** The three new links of a range that moves. */
  method Relink(
    before: Node, after: Node, prev: Node, next: Node, first: Node, last: Node,
    ghost a: seq<Node>, ghost b: seq<Node>, ghost c: seq<Node>, ghost d: seq<Node>, ghost v: seq<Node>)
    requires a != [] && b != [] && c != [] && d != [] && v != []
    requires Linked(a) && Linked(b) && Linked(c) && Linked(d) && Linked(v) && Distinct(v)
    requires prev == a[|a| - 1] && next == b[0] && before == c[|c| - 1] && after == d[0]
    requires first == v[0] && last == v[|v| - 1]
    requires Spared(a, prev, next) && Spared(b, prev, next) && Spared(c, before, after) && Spared(d, before, after)
    requires forall n :: n in v ==> n !in a && n !in b && n !in c && n !in d
    requires forall n :: n in a || n in b ==> n !in c && n !in d
    modifies before`next, after`prev, prev`next, first`prev, last`next, next`prev
    ensures Linked(a + v + b) && Linked(c + d)
  {
    assert prev in a && next in b && before in c && after in d;
    Connect(before, after, [a, b, c, d, v]);
    LinkedConcat(c, d);
    BridgeRange(prev, next, first, last, a, b, v, c + d);
  }

  /** Moves the items from the i-th to before the j-th one of a list to before the
      k-th one of another list. */
  method Splice(dest: List, position: Node, from: List, begin: Node, end: Node, ghost k: nat, ghost i: nat, ghost j: nat)
    requires dest.Valid() && from.Valid() && Disjoint(dest, from)
    requires k <= |dest.items| && position == dest.At(k)
    requires i <= j <= |from.items| && begin == from.At(i) && end == from.At(j)
    modifies dest, dest.Nodes(), from, from.Nodes()
    ensures dest.Valid() && from.Valid() && Disjoint(dest, from)
    ensures dest.items == old(dest.items[..k] + from.items[i..j] + dest.items[k..])
    ensures from.items == old(from.items[..i] + from.items[j..])
  {
    ghost var x, f := dest.items, from.items;
    SamePosition(from.head, f, i, j);
    if begin == end {
      assert x == x[..k] + f[i..j] + x[k..] && f == f[..i] + f[j..];
      return;
    }
    ghost var v := f[i..j];
    DisjointAfter(x, from.head, f, k, i, j);
    RangeApart(from.head, f, i, j);
    DistinctInsertRange(dest.head, x, k, v);
    RingWith(dest.head, x, k, k, v);
    RingWith(from.head, f, i, j, v);
    dest.items, from.items := x[..k] + v + x[k..], f[..i] + f[j..];
    MoveRange(position, begin, end, dest.head, x, k, from.head, f, i, j);
  }

  lemma DisjointAfter(x: seq<Node>, g: Node, f: seq<Node>, k: nat, i: nat, j: nat)
    requires Distinct([g] + f) && k <= |x| && i <= j <= |f| && g !in x && forall n :: n in x ==> n !in f
    ensures g !in x[..k] + f[i..j] + x[k..]
    ensures forall n :: n in x[..k] + f[i..j] + x[k..] ==> n !in f[..i] + f[j..]
  {
    RangeApart(g, f, i, j);
    forall n | n in x[..k] + f[i..j] + x[k..] ensures n !in f[..i] + f[j..] && n != g {
      if n in f[i..j] {
        assert n !in Before(g, f, i) && n !in From(g, f, j);
      } else {
        assert n in x;
      }
    }
  }

  ghost function NodesOf(head: Node, items: seq<Node>): set<Node> {
    {head} + set n | n in items
  }

  method MoveRange(
    position: Node, begin: Node, end: Node,
    ghost h: Node, ghost x: seq<Node>, ghost k: nat, ghost g: Node, ghost f: seq<Node>, ghost i: nat, ghost j: nat)
    requires Ring(h, x) && Ring(g, f) && Separate(h, x, g, f)
    requires k <= |x| && position == From(h, x, k)[0]
    requires i < j <= |f| && begin == f[i] && end == From(g, f, j)[0]
    modifies NodesOf(h, x), NodesOf(g, f)
    ensures Linked(Before(h, x, k) + f[i..j] + From(h, x, k)) && Linked(Before(g, f, i) + From(g, f, j))
  {
    RingSplit(h, x, k);
    RingRange(g, f, i, j);
    GapParts(h, x, k, k);
    GapParts(g, f, i, j);
    RangeApart(g, f, i, j);
    Relink(begin.prev, end, position.prev, position, begin, end.prev,
           Before(h, x, k), From(h, x, k), Before(g, f, i), From(g, f, j), f[i..j]);
  }

  lemma RingWith(head: Node, items: seq<Node>, i: nat, j: nat, v: seq<Node>)
    requires i <= j <= |items|
    ensures [head] + (items[..i] + v + items[j..]) + [head] == Before(head, items, i) + v + From(head, items, j)
    ensures [head] + (items[..i] + items[j..]) + [head] == Before(head, items, i) + From(head, items, j)
  {
  }

  /** Different positions are at different nodes. */
  lemma SamePosition(head: Node, items: seq<Node>, i: nat, j: nat)
    requires Distinct([head] + items) && i <= j <= |items|
    ensures From(head, items, i)[0] == From(head, items, j)[0] <==> i == j
  {
    var r := [head] + items;
    assert forall m :: 0 <= m < |items| ==> items[m] == r[m + 1];
    assert r[0] == head;
  }

  /** Moves all items of another list. */
  method SpliceAll(dest: List, position: Node, from: List, ghost k: nat)
    requires dest.Valid() && from.Valid() && Disjoint(dest, from) && k <= |dest.items| && position == dest.At(k)
    modifies dest, dest.Nodes(), from, from.Nodes()
    ensures dest.Valid() && from.Valid() && Disjoint(dest, from)
    ensures dest.items == old(dest.items[..k] + from.items + dest.items[k..]) && from.items == []
  {
    RingNext(from.head, from.items, 0);
    ghost var n := |from.items|;
    assert from.items[0..n] == from.items;
    Splice(dest, position, from, from.head.next, from.head, k, 0, n);
  }
}
