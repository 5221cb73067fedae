/** The proxy's mirror of the game world (src/World.cxx, src/World.hxx). An item
    is on the ground, in a container, or worn by a mobile; the other fields of a
    packet are carried along as one number. */
module World {
  import opened SerialList
  import opened Wrappers

  const U32: nat := 0x1_0000_0000

  /** Incrementing the 32-bit counter. */
  function NextMark(counter: nat): nat {
    if counter + 1 == U32 then 0 else counter + 1
  }

  datatype Socket =
    | Nowhere
    | Ground(info: nat)
    | Container(parent: nat, info: nat)
    | Worn(parent: nat, info: nat)

  datatype Item = Item(socket: Socket, open: Option<nat>, mark: nat)

  type Items = seq<Entry<Item>>

  const NEW_ITEM := Item(Nowhere, None, 0)

  function GetParentSerial(i: Item): nat {
    match i.socket
    case Container(p, _) => p
    case Worn(p, _) => p
    case _ => 0
  }

  function ParentOf(e: Entry<Item>): nat {
    GetParentSerial(e.data)
  }

  datatype Mobile = Mobile(incoming: Option<nat>, status: Option<Status>)
  datatype Status = Status(flags: nat, info: nat)

  // ---- Deep deletion, as a least fixed point ----

  /** A set that contains the children of root and the children of its members. */
  ghost predicate Closed(items: Items, root: nat, c: set<Entry<Item>>) {
    forall e :: e in items && (ParentOf(e) == root || exists r :: r in c && r.serial == ParentOf(e)) ==> e in c
  }

  /** The least such set. */
  ghost predicate Subtree(items: Items, root: nat, removed: set<Entry<Item>>) {
    && Closed(items, root, removed)
    && forall c :: Closed(items, root, c) ==> removed <= c
  }

  function Outside(items: Items, removed: set<Entry<Item>>): Items {
    Filter(items, e => e !in removed)
  }

  lemma OutsideIn(items: Items, removed: set<Entry<Item>>)
    ensures forall e :: e in Outside(items, removed) <==> e in items && e !in removed
    ensures |Outside(items, removed)| <= |items|
  {
    var keep := (e: Entry<Item>) => e !in removed;
    assert Outside(items, removed) == Filter(items, keep);
    forall e ensures e in Outside(items, removed) <==> e in items && e !in removed {
      FilterIn(items, keep, e);
    }
    if items != [] {
      FilterSize(items, keep, items[0]);
    }
  }

  lemma {:induction false} OutsideOutside(items: Items, a: set<Entry<Item>>, b: set<Entry<Item>>)
    ensures Outside(Outside(items, a), b) == Outside(items, a + b)
  {
    if items != [] {
      OutsideOutside(items[1..], a, b);
      if items[0] !in a {
        assert Outside(items, a)[1..] == Outside(items[1..], a);
      }
    }
  }

  lemma {:induction false} OutsideNothing(items: Items)
    ensures Outside(items, {}) == items
  {
    if items != [] {
      OutsideNothing(items[1..]);
    }
  }

  lemma SubtreeUnique(items: Items, root: nat, a: set<Entry<Item>>, b: set<Entry<Item>>)
    requires Subtree(items, root, a) && Subtree(items, root, b)
    ensures a == b
  {
    assert a <= b && b <= a;
  }

  /** In a container, or worn by a mobile. */
  predicate Inside(socket: Socket) {
    socket.Container? || socket.Worn?
  }

  /** No item is in this container, or worn by this mobile. */
  ghost predicate NoneInside(items: Items, s: nat) {
    forall e :: e in items && Inside(e.data.socket) ==> e.data.socket.parent != s
  }

  /** Removed for a reason: what it is in is the root or removed; an item that is in
      nothing counts as being in 0. */
  ghost predicate Justified(root: nat, removed: set<Entry<Item>>, e: Entry<Item>) {
    var parent := if Inside(e.data.socket) then e.data.socket.parent else 0;
    parent == root || exists r :: r in removed && r.serial == parent
  }

  /** What this means where items are: nothing that is left is in the root or in
      something removed, be it as contents or as equipment, and everything that was
      removed is. */
  lemma SubtreeOnSockets(items: Items, root: nat, removed: set<Entry<Item>>)
    requires Subtree(items, root, removed)
    ensures forall e :: e in Outside(items, removed) && Inside(e.data.socket) ==>
              e.data.socket.parent != root && forall r :: r in removed ==> r.serial != e.data.socket.parent
    ensures forall e :: e in removed ==> e in items && Justified(root, removed, e)
    ensures root != 0 && (forall r :: r in removed ==> r.serial != 0) ==> forall e :: e in removed ==> Inside(e.data.socket)
  {
    OutsideIn(items, removed);
    var c := set e | e in removed && e in items && Justified(root, removed, e);
    forall e | e in items && (ParentOf(e) == root || exists r :: r in c && r.serial == ParentOf(e)) ensures e in c {
      assert e in removed;
    }
    assert Closed(items, root, c);
  }

  /** Some items were removed, and what is left has no parent among the removed
      ones except those still to be followed. */
  ghost predicate Progress(all: Items, root: nat, items: Items, removed: set<Entry<Item>>, todo: seq<Entry<Item>>) {
    && items == Outside(all, removed)
    && (forall e :: e in todo ==> e in removed)
    && (forall e :: e in items ==> ParentOf(e) != root)
    && (forall e, r :: e in items && r in removed && r.serial == ParentOf(e) ==> r in todo)
    && (forall c :: Closed(all, root, c) ==> removed <= c)
  }

  function Children(items: Items, root: nat): Items {
    Filter(items, e => ParentOf(e) == root)
  }

  function Others(items: Items, root: nat): Items {
    Filter(items, e => ParentOf(e) != root)
  }

  lemma ChildrenOf(items: Items, root: nat)
    ensures forall e :: e in Children(items, root) <==> e in items && ParentOf(e) == root
    ensures forall e :: e in Others(items, root) <==> e in items && ParentOf(e) != root
    ensures Children(items, root) != [] ==> |Others(items, root)| < |items|
    ensures |Others(items, root)| <= |items|
    ensures DistinctSerials(items) ==> DistinctSerials(Others(items, root))
  {
    var child, other := (e: Entry<Item>) => ParentOf(e) == root, (e: Entry<Item>) => ParentOf(e) != root;
    assert Children(items, root) == Filter(items, child);
    assert Others(items, root) == Filter(items, other);
    forall e ensures e in Children(items, root) <==> e in items && ParentOf(e) == root {
      FilterIn(items, child, e);
    }
    forall e ensures e in Others(items, root) <==> e in items && ParentOf(e) != root {
      FilterIn(items, other, e);
    }
    if Children(items, root) != [] {
      FilterSize(items, other, Children(items, root)[0]);
    } else if items != [] {
      FilterSize(items, other, items[0]);
    }
    if DistinctSerials(items) {
      FilterKeeps(items, other);
    }
  }

  lemma {:induction false} OthersOutside(items: Items, root: nat, removed: set<Entry<Item>>)
    requires forall e :: e in items ==> (e in removed <==> ParentOf(e) == root)
    ensures Others(items, root) == Outside(items, removed)
  {
    if items != [] {
      OthersOutside(items[1..], root, removed);
    }
  }

  lemma StartProgress(all: Items, root: nat, removed: set<Entry<Item>>)
    requires forall e :: e in removed <==> e in Children(all, root)
    ensures Progress(all, root, Others(all, root), removed, Children(all, root))
  {
    ChildrenOf(all, root);
    OthersOutside(all, root, removed);
  }

  /** Following one removed item: its own subtree goes too. */
  lemma StepProgress(all: Items, root: nat, items: Items, removed: set<Entry<Item>>, todo: seq<Entry<Item>>,
                     more: set<Entry<Item>>)
    requires Progress(all, root, items, removed, todo) && todo != []
    requires Subtree(items, todo[0].serial, more)
    ensures Progress(all, root, Outside(items, more), removed + more, todo[1..])
  {
    var left := Outside(items, more);
    OutsideIn(all, removed);
    OutsideIn(items, more);
    OutsideOutside(all, removed, more);
    forall c | Closed(all, root, c) ensures removed + more <= c {
      assert todo[0] in c;
      assert Closed(items, todo[0].serial, c);
    }
    forall e, r | e in left && r in removed + more && r.serial == ParentOf(e)
      ensures r in todo[1..]
    {
      assert r !in more;
      assert r in todo && r != todo[0];
    }
  }

  lemma FinishProgress(all: Items, root: nat, items: Items, removed: set<Entry<Item>>)
    requires Progress(all, root, items, removed, [])
    ensures Subtree(all, root, removed)
  {
    OutsideIn(all, removed);
  }

  // ---- Container contents ----

  /** One entry of a ContainerContent packet. */
  datatype Content = Content(serial: nat, parent: nat, info: nat)

  ghost predicate Listed(entries: seq<Content>, s: nat) {
    exists k :: 0 <= k < |entries| && entries[k].serial == s
  }

  /** The last entry with a serial. */
  ghost function LastOf(entries: seq<Content>, s: nat): Option<Content> {
    if entries == [] then None
    else
      var last := entries[|entries| - 1];
      if last.serial == s then Some(last) else LastOf(entries[..|entries| - 1], s)
  }

  /** It is the last one. */
  lemma {:induction false} LastOfIs(entries: seq<Content>, s: nat, k: nat)
    requires k < |entries| && entries[k].serial == s && forall j :: k < j < |entries| ==> entries[j].serial != s
    ensures LastOf(entries, s) == Some(entries[k])
  {
    if k < |entries| - 1 {
      LastOfIs(entries[..|entries| - 1], s, k);
    }
  }

  /** An item after it was listed. */
  ghost function Placed(was: Option<Item>, e: Content, mark: nat): Item {
    Item(Container(e.parent, e.info), if was.Some? then was.value.open else None, mark)
  }

  /** The pieces before the first one with the serial 0. */
  ghost function Equipment(pieces: seq<Entry<nat>>): seq<Entry<nat>> {
    if pieces == [] || pieces[0].serial == 0 then [] else [pieces[0]] + Equipment(pieces[1..])
  }

  lemma {:induction false} EquipmentIs(pieces: seq<Entry<nat>>, k: nat)
    requires k <= |pieces| && (forall i :: 0 <= i < k ==> pieces[i].serial != 0) && (k == |pieces| || pieces[k].serial == 0)
    ensures Equipment(pieces) == pieces[..k]
  {
    if k > 0 {
      EquipmentIs(pieces[1..], k - 1);
      assert pieces[..k] == [pieces[0]] + pieces[1..][..k - 1];
    }
  }

  /** An item after mobile s has put the pieces on: the last mention counts. */
  ghost function Dressed(before: Items, s: nat, pieces: seq<Entry<nat>>, r: nat): Option<Item> {
    if pieces == [] then Get(before, r)
    else
      var n := |pieces| - 1;
      var i := Dressed(before, s, pieces[..n], r);
      if pieces[n].serial != r then i
      else Some((if i.Some? then i.value else NEW_ITEM).(socket := Worn(s, pieces[n].data)))
  }

  /** So an item that is mentioned is worn as the last mention says and keeps the rest,
      and any other one is as before. */
  lemma {:induction false} DressedIs(before: Items, s: nat, pieces: seq<Entry<nat>>, r: nat, k: nat)
    requires k < |pieces| && pieces[k].serial == r && forall j :: k < j < |pieces| ==> pieces[j].serial != r
    ensures var i := Dressed(before, s, pieces, r);
            && i.Some? && i.value.socket == Worn(s, pieces[k].data)
            && (Get(before, r).Some? ==> i.value.open == Get(before, r).value.open && i.value.mark == Get(before, r).value.mark)
            && (Get(before, r).None? ==> i.value.open == None && i.value.mark == 0)
  {
    if k < |pieces| - 1 {
      DressedIs(before, s, pieces[..|pieces| - 1], r, k);
    } else {
      DressedKeeps(before, s, pieces[..k], r);
    }
  }

  lemma {:induction false} DressedKeeps(before: Items, s: nat, pieces: seq<Entry<nat>>, r: nat)
    ensures var i := Dressed(before, s, pieces, r);
            && (Get(before, r).Some? ==>
                  i.Some? && i.value.open == Get(before, r).value.open && i.value.mark == Get(before, r).value.mark)
            && (Get(before, r).None? && i.Some? ==> i.value.open == None && i.value.mark == 0)
            && ((forall j :: 0 <= j < |pieces| ==> pieces[j].serial != r) ==> i == Get(before, r))
  {
    if pieces != [] {
      DressedKeeps(before, s, pieces[..|pieces| - 1], r);
    }
  }

  ghost predicate MarksUpTo(items: Items, counter: nat) {
    forall e :: e in items ==> e.data.mark <= counter
  }

  class World {
    var items: Items
    var mobiles: seq<Entry<Mobile>>
    var counter: nat

    ghost predicate Valid()
      reads this
    {
      DistinctSerials(items) && DistinctSerials(mobiles) && counter < U32
    }

    /** No mark is ahead of the counter: holds until the counter wraps around. */
    ghost predicate MarksBelow()
      reads this
    {
      MarksUpTo(items, counter)
    }

    constructor ()
      ensures Valid() && MarksBelow() && items == [] && mobiles == [] && counter == 0
    {
      items, mobiles, counter := [], [], 0;
    }

    /** WorldItem, WorldItem7, Equip and ContainerUpdate overwrite where an item
        is. A WorldItem's serial is cut to 31 bits by the caller. */
    method ApplySocket(s: nat, socket: Socket)
      requires Valid()
      modifies `items
      ensures Valid() && (old(MarksBelow()) ==> MarksBelow())
      ensures Get(items, s) == Some((if Get(old(items), s).Some? then Get(old(items), s).value else NEW_ITEM).(socket := socket))
      ensures forall r :: r != s ==> Get(items, r) == Get(old(items), r)
    {
      ghost var before := items;
      items := Put(items, s, NEW_ITEM, (i: Item) => i.(socket := socket));
      MarksPreserved(before, items, s, counter);
    }

    method ApplyOpen(s: nat, gump: nat)
      requires Valid()
      modifies `items
      ensures Valid() && (old(MarksBelow()) ==> MarksBelow())
      ensures Get(items, s) == Some((if Get(old(items), s).Some? then Get(old(items), s).value else NEW_ITEM).(open := Some(gump)))
      ensures forall r :: r != s ==> Get(items, r) == Get(old(items), r)
    {
      ghost var before := items;
      items := Put(items, s, NEW_ITEM, (i: Item) => i.(open := Some(gump)));
      MarksPreserved(before, items, s, counter);
    }

    /** Removes the items below a serial, at any depth: exactly the least set
        that contains the children of the serial and of its own members. */
    method RemoveItemTree(root: nat) returns (ghost removed: set<Entry<Item>>)
      requires Valid()
      modifies `items
      ensures Valid() && (old(MarksBelow()) ==> MarksBelow())
      ensures Subtree(old(items), root, removed)
      ensures items == Outside(old(items), removed) && NoneInside(items, root)
      decreases |items|
    {
      ghost var all := items;
      ChildrenOf(all, root);
      var temp := Children(items, root);
      removed := set e | e in temp;
      StartProgress(all, root, removed);
      items := Others(items, root);
      while temp != []
        invariant Valid() && (old(MarksBelow()) ==> MarksBelow())
        invariant temp != [] ==> |items| < |old(items)|
        invariant Progress(all, root, items, removed, temp)
        decreases |temp|
      {
        var i := temp[0];
        ghost var before := items;
        ghost var more := RemoveItemTree(i.serial);
        OutsideIn(before, more);
        StepProgress(all, root, before, removed, temp, more);
        temp := temp[1..];
        removed := removed + more;
      }
      FinishProgress(all, root, items, removed);
      SubtreeOnSockets(all, root, removed);
    }

    method RemoveItemSerial(s: nat) returns (ghost removed: set<Entry<Item>>)
      requires Valid()
      modifies `items
      ensures Valid() && (old(MarksBelow()) ==> MarksBelow())
      ensures var others := WithoutSerial(old(items), s);
              Subtree(others, s, removed) && items == Outside(others, removed) && NoneInside(items, s)
    {
      RemoveFound(items, s);
      var found := Find(items, s);
      if found.Some? {
        items := items[..found.value] + items[found.value + 1..];
      }
      removed := RemoveItemTree(s);
    }

    method RemoveMobileSerial(s: nat) returns (ghost removed: set<Entry<Item>>)
      requires Valid()
      modifies `items, `mobiles
      ensures Valid() && (old(MarksBelow()) ==> MarksBelow())
      ensures mobiles == WithoutSerial(old(mobiles), s)
      ensures Subtree(old(items), s, removed) && items == Outside(old(items), removed) && NoneInside(items, s)
    {
      RemoveFound(mobiles, s);
      var found := Find(mobiles, s);
      if found.Some? {
        mobiles := mobiles[..found.value] + mobiles[found.value + 1..];
      }
      removed := RemoveItemTree(s);
    }

    /** A Delete packet names a mobile, an item, or nothing that is kept here. */
    method RemoveSerial(s: nat) returns (ghost removed: set<Entry<Item>>)
      requires Valid()
      modifies `items, `mobiles
      ensures Valid() && (old(MarksBelow()) ==> MarksBelow())
      ensures var others := if 0x4000_0000 <= s < 0x8000_0000 then WithoutSerial(old(items), s) else old(items);
              && items == Outside(others, removed)
              && (if s < 0x8000_0000 then Subtree(others, s, removed) else removed == {})
      ensures mobiles == if s < 0x4000_0000 then WithoutSerial(old(mobiles), s) else old(mobiles)
    {
      if s < 0x4000_0000 {
        removed := RemoveMobileSerial(s);
      } else if s < 0x8000_0000 {
        removed := RemoveItemSerial(s);
      } else {
        removed := {};
        OutsideNothing(items);
      }
    }

    /** The packet of a mobile is kept, and its pieces of equipment, up to one
        with the serial 0, are worn by it. */
    method ApplyIncoming(s: nat, packet: nat, pieces: seq<Entry<nat>>)
      requires Valid()
      modifies `mobiles, `items
      ensures Valid() && (old(MarksBelow()) ==> MarksBelow())
      ensures Get(mobiles, s) == Some(Mobile(Some(packet), if Get(old(mobiles), s).Some? then Get(old(mobiles), s).value.status else None))
      ensures forall r :: r != s ==> Get(mobiles, r) == Get(old(mobiles), r)
      ensures forall r :: Get(items, r) == Dressed(old(items), s, Equipment(pieces), r)
    {
      mobiles := Put(mobiles, s, Mobile(None, None), (m: Mobile) => m.(incoming := Some(packet)));
      ReadEquipped(s, pieces);
    }

    method ReadEquipped(s: nat, pieces: seq<Entry<nat>>)
      requires Valid()
      modifies `items
      ensures Valid() && (old(MarksBelow()) ==> MarksBelow())
      ensures forall r :: Get(items, r) == Dressed(old(items), s, Equipment(pieces), r)
    {
      var k := 0;
      while k < |pieces| && pieces[k].serial != 0
        invariant k <= |pieces| && forall i :: 0 <= i < k ==> pieces[i].serial != 0
        invariant Valid() && (old(MarksBelow()) ==> MarksBelow())
        invariant forall r :: Get(items, r) == Dressed(old(items), s, pieces[..k], r)
      {
        ApplySocket(pieces[k].serial, Worn(s, pieces[k].data));
        assert pieces[..k + 1][..k] == pieces[..k];
        k := k + 1;
      }
      EquipmentIs(pieces, k);
    }

    /** A status packet replaces the stored one unless that one has more flags. */
    method ApplyStatus(s: nat, p: Status)
      requires Valid()
      modifies `mobiles
      ensures Valid() && Get(mobiles, s).Some?
      ensures var was := if Get(old(mobiles), s).Some? then Get(old(mobiles), s).value else Mobile(None, None);
              Get(mobiles, s).value == was.(status := Some(if was.status.Some? && was.status.value.flags > p.flags then was.status.value else p))
      ensures forall r :: r != s ==> Get(mobiles, r) == Get(old(mobiles), r)
    {
      mobiles := Put(mobiles, s, Mobile(None, None), (m: Mobile) =>
        if m.status.None? || m.status.value.flags <= p.flags then m.(status := Some(p)) else m);
    }

    /** The new contents of a container: the listed items get their last data
        and the new mark, then the first entry's container loses every item
        without that mark. */
    method ApplyContent(entries: seq<Content>)
      requires Valid()
      modifies `items, `counter
      ensures Valid() && counter == NextMark(old(counter))
      ensures old(MarksBelow()) && old(counter) + 1 < U32 ==> MarksBelow()
      ensures forall s :: Get(items, s) == AfterContent(old(items), entries, counter, s)
    {
      counter := NextMark(counter);
      ghost var before := items;
      for k := 0 to |entries|
        invariant Valid() && counter == NextMark(old(counter))
        invariant MarksUpTo(before, counter) ==> MarksUpTo(items, counter)
        invariant forall s :: Get(items, s) == Merged(before, entries[..k], counter, s)
      {
        var e, mark := entries[k], counter;
        ghost var was := items;
        items := Put(items, e.serial, NEW_ITEM,
                     (i: Item) => i.(socket := Container(e.parent, e.info), mark := mark));
        MarksRaised(was, items, e.serial, counter);
        assert entries[..k + 1][..k] == entries[..k];
      }
      assert entries[..|entries|] == entries;
      if entries != [] {
        var p := entries[0].parent;
        var mark := counter;
        var keep := (e: Entry<Item>) => !(ParentOf(e) == p && e.data.mark != mark);
        forall e ensures e in Filter(items, keep) ==> e in items {
          FilterIn(items, keep, e);
        }
        forall s ensures Get(Filter(items, keep), s) == AfterContent(before, entries, counter, s) {
          FilterDistinct(items, keep, s);
        }
        FilterKeeps(items, keep);
        items := Filter(items, keep);
      }
    }
  }

  /** An item after all listed items were written, before the sweep. */
  ghost function Merged(before: Items, entries: seq<Content>, mark: nat, s: nat): Option<Item> {
    match LastOf(entries, s)
    case None => Get(before, s)
    case Some(e) => Some(Placed(Get(before, s), e, mark))
  }

  /** An item after the whole packet. */
  ghost function AfterContent(before: Items, entries: seq<Content>, mark: nat, s: nat): Option<Item> {
    var i := Merged(before, entries, mark, s);
    if entries != [] && i.Some? && GetParentSerial(i.value) == entries[0].parent && i.value.mark != mark then None else i
  }

  lemma {:induction false} LastOfListed(entries: seq<Content>, s: nat)
    ensures LastOf(entries, s).Some? <==> Listed(entries, s)
    ensures LastOf(entries, s).Some? ==> LastOf(entries, s).value in entries && LastOf(entries, s).value.serial == s
  {
    if entries != [] {
      var n := |entries| - 1;
      LastOfListed(entries[..n], s);
      if Listed(entries, s) && entries[n].serial != s {
        var k :| 0 <= k < |entries| && entries[k].serial == s;
        assert entries[..n][k].serial == s;
      }
    }
  }

  /** If all entries name the container p and no old mark equals the new one,
      the items in p are afterwards exactly the listed ones, each with its last
      data, and no unlisted item outside p has changed. */
  lemma ContentIsExact(before: Items, entries: seq<Content>, mark: nat, p: nat, s: nat)
    requires entries != [] && forall k :: 0 <= k < |entries| ==> entries[k].parent == p
    requires Get(before, s).Some? ==> Get(before, s).value.mark != mark
    ensures var i := AfterContent(before, entries, mark, s);
            && (i.Some? && GetParentSerial(i.value) == p <==> Listed(entries, s))
            && (Listed(entries, s) ==>
                  && i.value.socket == Container(p, LastOf(entries, s).value.info) && i.value.mark == mark
                  && i.value.open == if Get(before, s).Some? then Get(before, s).value.open else None)
            && ((Listed(entries, s) || (Get(before, s).Some? && GetParentSerial(Get(before, s).value) == p))
                || i == Get(before, s))
  {
    LastOfListed(entries, s);
  }

  /** The condition is needed: an unlisted item of the container survives the
      sweep if and only if its old mark happens to equal the new one, which
      takes a counter that has wrapped around. */
  lemma StaleMarkSurvives(before: Items, entries: seq<Content>, mark: nat, p: nat, s: nat)
    requires entries != [] && entries[0].parent == p && !Listed(entries, s)
    requires Get(before, s).Some? && GetParentSerial(Get(before, s).value) == p
    ensures AfterContent(before, entries, mark, s).Some? <==> Get(before, s).value.mark == mark
  {
    LastOfListed(entries, s);
  }

  /** A world in which it happens: item s is put into p, and the contents of q
      are sent so often that the counter reaches its maximum. The next packet
      lists only r as the contents of p, and yet s stays there. */
  method KeepStaleItem(p: nat, q: nat, r: nat, s: nat) returns (w: World, ghost before: Items)
    requires p != q && r != s
    ensures fresh(w) && w.Valid() && w.counter == 0
    ensures Get(before, s) == Some(Item(Container(p, 0), None, 0))
    ensures forall e :: Get(w.items, e) == AfterContent(before, [Content(r, p, 0)], 0, e)
    ensures Get(w.items, s) == Get(before, s) && !Listed([Content(r, p, 0)], s)
  {
    w := new World();
    w.ApplySocket(s, Container(p, 0));
    for n := 0 to U32 - 1
      invariant w.Valid() && w.counter == n
      invariant Get(w.items, s) == Some(Item(Container(p, 0), None, 0))
    {
      w.ApplyContent([Content(r, q, 0)]);
      LastOfOne(Content(r, q, 0), s);
    }
    before := w.items;
    w.ApplyContent([Content(r, p, 0)]);
    LastOfOne(Content(r, p, 0), s);
  }

  lemma LastOfOne(e: Content, s: nat)
    ensures LastOf([e], s) == if e.serial == s then Some(e) else None
    ensures Listed([e], s) <==> e.serial == s
  {
    assert [e][..0] == [] && [e][0] == e;
  }

  lemma NoStaleMark(items: Items, counter: nat, s: nat)
    requires DistinctSerials(items) && MarksUpTo(items, counter) && counter + 1 < U32
    ensures Get(items, s).Some? ==> Get(items, s).value.mark != NextMark(counter)
  {
    GetNone(items, s);
    if Get(items, s).Some? {
      var i :| 0 <= i < |items| && items[i].serial == s;
      GetAt(items, i);
      assert items[i] in items;
    }
  }

  lemma FilterKeeps<V>(xs: seq<Entry<V>>, keep: Entry<V> -> bool)
    requires DistinctSerials(xs)
    ensures DistinctSerials(Filter(xs, keep))
  {
    FilterDistinct(xs, keep, 0);
  }

  function WithoutSerial<V>(xs: seq<Entry<V>>, s: nat): seq<Entry<V>> {
    Filter(xs, (e: Entry<V>) => e.serial != s)
  }

  /** Unlinking the entry that was found is filtering by serial. */
  lemma RemoveFound<V>(xs: seq<Entry<V>>, s: nat)
    requires DistinctSerials(xs)
    ensures DistinctSerials(WithoutSerial(xs, s))
    ensures forall e :: e in WithoutSerial(xs, s) ==> e in xs
    ensures Get(xs, s).None? ==> WithoutSerial(xs, s) == xs
    ensures forall i :: 0 <= i < |xs| && xs[i].serial == s ==> WithoutSerial(xs, s) == xs[..i] + xs[i + 1..]
  {
    GetNone(xs, s);
    var keep := (e: Entry<V>) => e.serial != s;
    assert WithoutSerial(xs, s) == Filter(xs, keep);
    FilterKeeps(xs, keep);
    forall e ensures e in WithoutSerial(xs, s) ==> e in xs {
      FilterIn(xs, keep, e);
    }
    if Get(xs, s).None? {
      FilterAll(xs, keep);
    }
    forall i | 0 <= i < |xs| && xs[i].serial == s
      ensures Filter(xs, keep) == xs[..i] + xs[i + 1..]
    {
      FilterAll(xs[..i], keep);
      FilterAll(xs[i + 1..], keep);
      FilterSplit(xs[..i], xs[i], xs[i + 1..], keep);
      assert xs == xs[..i] + [xs[i]] + xs[i + 1..];
    }
  }

  lemma {:induction false} FilterAll<T>(xs: seq<T>, keep: T -> bool)
    requires forall x :: x in xs ==> keep(x)
    ensures Filter(xs, keep) == xs
  {
    if xs != [] {
      FilterAll(xs[1..], keep);
    }
  }

  lemma {:induction false} FilterSplit<T>(a: seq<T>, x: T, b: seq<T>, keep: T -> bool)
    requires !keep(x)
    ensures Filter(a + [x] + b, keep) == Filter(a, keep) + Filter(b, keep)
  {
    var all := a + [x] + b;
    if a == [] {
      assert all[1..] == b;
    } else {
      assert all[1..] == a[1..] + [x] + b;
      FilterSplit(a[1..], x, b, keep);
    }
  }

  lemma MarksRaised(before: Items, after: Items, s: nat, counter: nat)
    requires DistinctSerials(before) && DistinctSerials(after)
    requires forall r :: r != s ==> Get(after, r) == Get(before, r)
    requires Get(after, s).Some? && Get(after, s).value.mark == counter
    ensures MarksUpTo(before, counter) ==> MarksUpTo(after, counter)
  {
    forall e | e in after && MarksUpTo(before, counter) ensures e.data.mark <= counter {
      var i :| 0 <= i < |after| && after[i] == e;
      GetAt(after, i);
      if e.serial != s {
        GetNone(before, e.serial);
        var j :| 0 <= j < |before| && before[j].serial == e.serial;
        GetAt(before, j);
        assert before[j] in before;
      }
    }
  }

  lemma MarksPreserved(before: Items, after: Items, s: nat, counter: nat)
    requires DistinctSerials(before) && DistinctSerials(after)
    requires forall r :: r != s ==> Get(after, r) == Get(before, r)
    requires Get(after, s).Some?
    requires Get(after, s).value.mark == (if Get(before, s).Some? then Get(before, s).value.mark else 0)
    ensures MarksUpTo(before, counter) ==> MarksUpTo(after, counter)
  {
    forall e | e in after && MarksUpTo(before, counter) ensures e.data.mark <= counter {
      var i :| 0 <= i < |after| && after[i] == e;
      GetAt(after, i);
      if Get(before, e.serial).Some? {
        GetNone(before, e.serial);
        var j :| 0 <= j < |before| && before[j].serial == e.serial;
        GetAt(before, j);
        assert before[j] in before;
      }
    }
  }
}
