/** Sending the world's items to a client that attaches (src/Attach.cxx:11-70,
    140-144): every item once, containers before what is in them, and what the
    client then knows. */
module Attach {
  import opened SerialList
  import opened Wrappers
  import opened World

  /** What is sent for an item. The flag says which protocol form is used: the
      v6 form of a container update, the v7 form of a container open. */
  datatype Packet =
    | ContainerUpdate(v6: bool, serial: nat, parent: nat, info: nat)
    | Equip(serial: nat, parent: nat, info: nat)
    | ContainerOpen(v7: bool, serial: nat, gump: nat)

  /** The course of the pass: a container update was sent for an item, or the
      visit of an item was finished. */
  datatype Event = Sent(serial: nat) | Visited(serial: nat)

  ghost predicate Contained(items: Items, s: nat) {
    Get(items, s).Some? && Get(items, s).value.socket.Container?
  }

  ghost function ContainerOf(items: Items, s: nat): nat
    requires Contained(items, s)
  {
    Get(items, s).value.socket.parent
  }

  /** Where an item is. The command of an item on the ground is always WorldItem7,
      for which nothing is sent; the case WorldItem does not occur. */
  function SocketPacket(e: Entry<Item>, v6: bool): seq<Packet> {
    match e.data.socket
    case Ground(_) => []
    case Container(p, info) => [ContainerUpdate(v6, e.serial, p, info)]
    case Worn(p, info) => [Equip(e.serial, p, info)]
    case Nowhere => []
  }

  function OpenPacket(e: Entry<Item>, v7: bool): seq<Packet> {
    if e.data.open.Some? then [ContainerOpen(v7, e.serial, e.data.open.value)] else []
  }

  /** The packets of one item, in the order they are sent. */
  function PacketsOf(e: Entry<Item>, v6: bool, v7: bool): seq<Packet> {
    SocketPacket(e, v6) + OpenPacket(e, v7)
  }

  // ---- Order of the events ----

  /** Every container update comes after the visit of the container, if the
      container is known. */
  ghost predicate ContainersFirst(items: Items, log: seq<Event>) {
    forall k :: 0 <= k < |log| && log[k].Sent? && Contained(items, log[k].serial)
                && Get(items, ContainerOf(items, log[k].serial)).Some?
                ==> Visited(ContainerOf(items, log[k].serial)) in log[..k]
  }

  /** Containment has no cycle: some rank goes down from item to container. */
  ghost predicate Ranked(items: Items, rank: nat -> nat) {
    forall s :: Contained(items, s) && Get(items, ContainerOf(items, s)).Some? ==> rank(ContainerOf(items, s)) < rank(s)
  }

  ghost predicate Acyclic(items: Items) {
    exists rank: nat -> nat :: Ranked(items, rank)
  }

  /** No visit is finished twice, and the visit of a contained item ends right
      after its container update was sent. */
  ghost predicate WellOrdered(items: Items, log: seq<Event>) {
    && (forall j, k :: 0 <= j < k < |log| && log[j].Visited? ==> log[j] != log[k])
    && (forall k :: 0 <= k < |log| && log[k].Visited? && Contained(items, log[k].serial) ==>
          k > 0 && log[k - 1] == Sent(log[k].serial))
  }

  /** The place of a visit in the log. */
  ghost function Place(log: seq<Event>, s: nat): nat {
    if Visited(s) in log then
      var k :| 0 <= k < |log| && log[k] == Visited(s);
      k
    else 0
  }

  /** If the pass did send every container first, then there is no cycle among
      the visited items: the order of the visits is a rank. */
  lemma ContainersFirstRanks(items: Items, log: seq<Event>)
    requires WellOrdered(items, log) && ContainersFirst(items, log)
    requires forall s :: Get(items, s).Some? ==> Visited(s) in log
    ensures Acyclic(items)
  {
    var rank := (s: nat) => Place(log, s);
    forall s | Contained(items, s) && Get(items, ContainerOf(items, s)).Some?
      ensures rank(ContainerOf(items, s)) < rank(s)
    {
      var p := ContainerOf(items, s);
      var k := Place(log, s);
      assert log[k - 1] == Sent(s);
      assert Visited(p) in log[..k - 1];
      var j :| 0 <= j < k - 1 && log[j] == Visited(p);
      var j' := Place(log, p);
      assert j == j';
    }
    assert Ranked(items, rank);
  }

  // ---- The pass ----

  /** The two lists differ only in marks, and a mark that differs is the new one. */
  ghost predicate SameButMarks(before: Items, after: Items, mark: nat) {
    && |before| == |after|
    && forall k :: 0 <= k < |after| ==>
         && after[k].serial == before[k].serial
         && after[k].data == before[k].data.(mark := after[k].data.mark)
         && (after[k].data.mark == before[k].data.mark || after[k].data.mark == mark)
  }

  /** Which items are marked: those whose visit is finished and those whose visit
      is going on. */
  ghost predicate Tracks(first: Items, items: Items, mark: nat, log: seq<Event>, stack: set<nat>) {
    && DistinctSerials(first) && DistinctSerials(items) && SameButMarks(first, items, mark)
    && (forall k :: 0 <= k < |items| && first[k].data.mark != mark ==>
          (items[k].data.mark == mark <==> Visited(items[k].serial) in log || items[k].serial in stack))
    && (forall s :: Visited(s) in log ==>
          s !in stack && exists k :: 0 <= k < |first| && first[k].serial == s && first[k].data.mark != mark)
    && WellOrdered(first, log)
  }

  ghost function Unmarked(items: Items, mark: nat): nat {
    if items == [] then 0 else (if items[0].data.mark != mark then 1 else 0) + Unmarked(items[1..], mark)
  }

  lemma {:induction false} MarkOne(items: Items, i: nat, mark: nat)
    requires i < |items| && items[i].data.mark != mark
    ensures Unmarked(items[i := Entry(items[i].serial, items[i].data.(mark := mark))], mark) == Unmarked(items, mark) - 1
  {
    var after := items[i := Entry(items[i].serial, items[i].data.(mark := mark))];
    if i == 0 {
      assert after[1..] == items[1..];
    } else {
      assert after[1..] == items[1..][i - 1 := Entry(items[i].serial, items[i].data.(mark := mark))];
      MarkOne(items[1..], i - 1, mark);
    }
  }

  lemma StillSame(a: Items, b: Items, c: Items, mark: nat)
    requires SameButMarks(a, b, mark) && SameButMarks(b, c, mark)
    ensures SameButMarks(a, c, mark)
  {
  }

  ghost predicate AllMarked(items: Items, mark: nat, n: nat) {
    n <= |items| && forall k :: 0 <= k < n ==> items[k].data.mark == mark
  }

  lemma MarkedOnto(before: Items, after: Items, mark: nat, n: nat)
    requires AllMarked(before, mark, n) && SameButMarks(before, after, mark) && n < |after| && after[n].data.mark == mark
    ensures AllMarked(after, mark, n + 1)
  {
  }

  lemma {:induction false} SameLookup(before: Items, after: Items, mark: nat, s: nat)
    requires SameButMarks(before, after, mark)
    ensures Get(before, s).Some? <==> Get(after, s).Some?
    ensures Get(before, s).Some? ==> Get(before, s).value.socket == Get(after, s).value.socket
  {
    if before != [] {
      SameLookup(before[1..], after[1..], mark, s);
    }
  }

  lemma Begin(first: Items, items: Items, mark: nat, log: seq<Event>, stack: set<nat>, i: nat)
    requires Tracks(first, items, mark, log, stack) && i < |items| && items[i].data.mark != mark
    ensures var after := items[i := Entry(items[i].serial, items[i].data.(mark := mark))];
            Tracks(first, after, mark, log, stack + {items[i].serial})
    ensures first[i].data.mark != mark && items[i].serial !in stack && Visited(items[i].serial) !in log
  {
    if Visited(items[i].serial) in log {
      assert false;
    }
  }

  lemma SentStep(first: Items, items: Items, mark: nat, log: seq<Event>, stack: set<nat>, s: nat)
    requires Tracks(first, items, mark, log, stack)
    ensures Tracks(first, items, mark, log + [Sent(s)], stack)
  {
    forall x ensures Visited(x) in log + [Sent(s)] <==> Visited(x) in log {
    }
  }

  lemma VisitedStep(first: Items, items: Items, mark: nat, log: seq<Event>, stack: set<nat>, i: nat)
    requires i < |first| && first[i].data.mark != mark && first[i].serial !in stack
    requires Tracks(first, items, mark, log, stack + {first[i].serial})
    requires Contained(first, first[i].serial) ==> log != [] && log[|log| - 1] == Sent(first[i].serial)
    ensures Tracks(first, items, mark, log + [Visited(first[i].serial)], stack)
  {
    var s := first[i].serial;
    var after := log + [Visited(s)];
    forall x ensures Visited(x) in after <==> Visited(x) in log || x == s {
    }
    assert Visited(s) !in log;
    forall k | 0 <= k < |items| && first[k].data.mark != mark
      ensures items[k].data.mark == mark <==> Visited(items[k].serial) in after || items[k].serial in stack
    {
    }
  }

  /** No item carries the new mark already. */
  ghost predicate NoneMarked(items: Items, mark: nat) {
    forall k :: 0 <= k < |items| ==> items[k].data.mark != mark
  }

  /** The packets of the visited items, in the order of the visits. */
  ghost function PacketsOfLog(items: Items, log: seq<Event>, v6: bool, v7: bool): seq<Packet> {
    if log == [] then []
    else
      var e := log[|log| - 1];
      PacketsOfLog(items, log[..|log| - 1], v6, v7)
      + (if e.Visited? && Get(items, e.serial).Some?
         then PacketsOf(Entry(e.serial, Get(items, e.serial).value), v6, v7) else [])
  }

  lemma SentFirst(items: Items, log: seq<Event>, s: nat)
    requires ContainersFirst(items, log)
    requires Contained(items, s) && Get(items, ContainerOf(items, s)).Some? ==> Visited(ContainerOf(items, s)) in log
    ensures ContainersFirst(items, log + [Sent(s)])
  {
    var after := log + [Sent(s)];
    assert after[..|log|] == log;
    forall k | 0 <= k < |log| ensures after[..k] == log[..k] {
    }
  }

  lemma VisitedFirst(items: Items, log: seq<Event>, s: nat)
    requires ContainersFirst(items, log)
    ensures ContainersFirst(items, log + [Visited(s)])
  {
    forall k | 0 <= k < |log| ensures (log + [Visited(s)])[..k] == log[..k] {
    }
  }

  /** A container that is already marked has been visited, unless an item is
      inside itself. */
  lemma MarkedContainer(first: Items, items: Items, mark: nat, log: seq<Event>, stack: set<nat>,
                        rank: nat -> nat, s: nat, j: nat)
    requires Tracks(first, items, mark, log, stack + {s}) && NoneMarked(first, mark) && Ranked(first, rank)
    requires Contained(first, s) && j < |items| && items[j].serial == ContainerOf(first, s)
    requires items[j].data.mark == mark && forall x :: x in stack ==> rank(x) > rank(s)
    ensures Visited(ContainerOf(first, s)) in log
  {
    GetAt(first, j);
  }

  /** Visits one item: its container first, if that is known and not marked yet,
      then the item's own packets. */
  method AttachItem(w: World, i: nat, v6: bool, v7: bool, ghost first: Items, ghost log: seq<Event>,
                    ghost stack: set<nat>, ghost ranked: bool, ghost rank: nat -> nat)
    returns (out: seq<Packet>, ghost log': seq<Event>)
    requires i < |w.items| && w.items[i].data.mark != w.counter
    requires Tracks(first, w.items, w.counter, log, stack)
    requires ranked ==>
               && NoneMarked(first, w.counter) && Ranked(first, rank) && ContainersFirst(first, log)
               && forall x :: x in stack ==> rank(x) > rank(w.items[i].serial)
    modifies w`items
    ensures Tracks(first, w.items, w.counter, log', stack) && SameButMarks(old(w.items), w.items, w.counter)
    ensures log <= log' && Visited(old(w.items)[i].serial) in log'
    ensures PacketsOfLog(first, log', v6, v7) == PacketsOfLog(first, log, v6, v7) + out
    ensures ranked ==> ContainersFirst(first, log')
    decreases Unmarked(w.items, w.counter)
  {
    var e := w.items[i];
    Begin(first, w.items, w.counter, log, stack, i);
    MarkOne(w.items, i, w.counter);
    GetAt(first, i);
    w.items := w.items[i := Entry(e.serial, e.data.(mark := w.counter))];
    ghost var marked := w.items;
    assert SameButMarks(old(w.items), marked, w.counter);
    out, log' := [], log;
    if e.data.socket.Container? {
      ghost var p := e.data.socket.parent;
      SameLookup(first, w.items, w.counter, p);
      assert Contained(first, e.serial) && ContainerOf(first, e.serial) == p;
      var parent := Find(w.items, e.data.socket.parent);
      if parent.Some? {
        assert ranked ==> rank(p) < rank(e.serial);
        if w.items[parent.value].data.mark != w.counter {
          out, log' := AttachItem(w, parent.value, v6, v7, first, log', stack + {e.serial}, ranked, rank);
          StillSame(old(w.items), marked, w.items, w.counter);
        } else if ranked {
          MarkedContainer(first, w.items, w.counter, log', stack, rank, e.serial, parent.value);
        }
      }
    }
    EndVisit(first, w.items, w.counter, log', stack, i, e, v6, v7, ranked);
    Assoc(PacketsOfLog(first, log, v6, v7), out, PacketsOf(e, v6, v7));
    out := out + PacketsOf(e, v6, v7);
    log' := LogVisit(log', e);
  }

  ghost function LogVisit(log: seq<Event>, e: Entry<Item>): seq<Event> {
    (if e.data.socket.Container? then log + [Sent(e.serial)] else log) + [Visited(e.serial)]
  }

  lemma Assoc<T>(a: seq<T>, b: seq<T>, c: seq<T>)
    ensures a + b + c == a + (b + c)
    ensures a + [] == a
  {
  }

  /** The end of a visit: the item's own packets are sent. */
  lemma EndVisit(first: Items, items: Items, mark: nat, log: seq<Event>, stack: set<nat>, i: nat, e: Entry<Item>,
                 v6: bool, v7: bool, ranked: bool)
    requires i < |first| && first[i].serial == e.serial && first[i].data == e.data.(mark := first[i].data.mark)
    requires first[i].data.mark != mark && e.serial !in stack
    requires Tracks(first, items, mark, log, stack + {e.serial})
    requires ranked ==>
               && ContainersFirst(first, log)
               && (e.data.socket.Container? && Get(first, e.data.socket.parent).Some?
                   ==> Visited(e.data.socket.parent) in log)
    ensures var after := LogVisit(log, e);
            && Tracks(first, items, mark, after, stack)
            && log <= after && Visited(e.serial) in after
            && PacketsOfLog(first, after, v6, v7) == PacketsOfLog(first, log, v6, v7) + PacketsOf(e, v6, v7)
            && (ranked ==> ContainersFirst(first, after))
  {
    GetAt(first, i);
    var mid := log;
    if e.data.socket.Container? {
      SentStep(first, items, mark, log, stack + {e.serial}, e.serial);
      SentPackets(first, log, e.serial, v6, v7);
      if ranked {
        SentFirst(first, log, e.serial);
      }
      mid := log + [Sent(e.serial)];
    }
    VisitedStep(first, items, mark, mid, stack, i);
    VisitedPackets(first, mid, i, e, v6, v7);
    if ranked {
      VisitedFirst(first, mid, e.serial);
    }
    assert (mid + [Visited(e.serial)])[|mid|] == Visited(e.serial);
  }

  lemma SentPackets(items: Items, log: seq<Event>, s: nat, v6: bool, v7: bool)
    ensures PacketsOfLog(items, log + [Sent(s)], v6, v7) == PacketsOfLog(items, log, v6, v7)
  {
    assert (log + [Sent(s)])[..|log|] == log;
  }

  lemma SamePackets(e: Entry<Item>, f: Entry<Item>, v6: bool, v7: bool)
    requires e.serial == f.serial && e.data.socket == f.data.socket && e.data.open == f.data.open
    ensures PacketsOf(e, v6, v7) == PacketsOf(f, v6, v7)
  {
  }

  lemma VisitedPackets(items: Items, log: seq<Event>, i: nat, e: Entry<Item>, v6: bool, v7: bool)
    requires DistinctSerials(items) && i < |items| && items[i].serial == e.serial
    requires items[i].data == e.data.(mark := items[i].data.mark)
    ensures PacketsOfLog(items, log + [Visited(e.serial)], v6, v7) == PacketsOfLog(items, log, v6, v7) + PacketsOf(e, v6, v7)
  {
    GetAt(items, i);
    SamePackets(Entry(e.serial, items[i].data), e, v6, v7);
    assert (log + [Visited(e.serial)])[..|log|] == log;
  }

  lemma VisitedIsMarked(first: Items, items: Items, mark: nat, log: seq<Event>, i: nat)
    requires Tracks(first, items, mark, log, {}) && i < |items| && Visited(items[i].serial) in log
    ensures items[i].data.mark == mark
  {
  }

  /** Visits an item unless it is marked. */
  method VisitOnce(w: World, i: nat, v6: bool, v7: bool, ghost first: Items, ghost log: seq<Event>,
                   ghost ranked: bool, ghost rank: nat -> nat)
    returns (out: seq<Packet>, ghost log': seq<Event>)
    requires i < |w.items| && Tracks(first, w.items, w.counter, log, {})
    requires ranked ==> NoneMarked(first, w.counter) && Ranked(first, rank) && ContainersFirst(first, log)
    modifies w`items
    ensures Tracks(first, w.items, w.counter, log', {}) && SameButMarks(old(w.items), w.items, w.counter)
    ensures w.items[i].data.mark == w.counter
    ensures PacketsOfLog(first, log', v6, v7) == PacketsOfLog(first, log, v6, v7) + out
    ensures ranked ==> ContainersFirst(first, log')
  {
    out, log' := [], log;
    if w.items[i].data.mark != w.counter {
      out, log' := AttachItem(w, i, v6, v7, first, log, {}, ranked, rank);
      VisitedIsMarked(first, w.items, w.counter, log', i);
    }
  }

  /** The loop over all items. */
  method VisitAll(w: World, v6: bool, v7: bool, ghost ranked: bool, ghost rank: nat -> nat)
    returns (out: seq<Packet>, ghost log: seq<Event>)
    requires DistinctSerials(w.items)
    requires ranked ==> NoneMarked(w.items, w.counter) && Ranked(w.items, rank)
    modifies w`items
    ensures Tracks(old(w.items), w.items, w.counter, log, {})
    ensures AllMarked(w.items, w.counter, |w.items|)
    ensures out == PacketsOfLog(old(w.items), log, v6, v7)
    ensures ranked ==> ContainersFirst(old(w.items), log)
  {
    ghost var first := w.items;
    out, log := [], [];
    for i := 0 to |w.items|
      invariant |w.items| == |first| && Tracks(first, w.items, w.counter, log, {})
      invariant out == PacketsOfLog(first, log, v6, v7)
      invariant ranked ==> ContainersFirst(first, log)
      invariant AllMarked(w.items, w.counter, i)
    {
      var more;
      ghost var before := w.items;
      more, log := VisitOnce(w, i, v6, v7, first, log, ranked, rank);
      out := out + more;
      MarkedOnto(before, w.items, w.counter, i);
    }
  }

  // ---- What the client knows then ----

  /** An item after a packet has arrived. */
  ghost function Updated(i: Option<Item>, p: Packet): Item {
    var was := OrNew(i);
    match p
    case ContainerUpdate(_, _, parent, info) => was.(socket := Container(parent, info))
    case Equip(_, parent, info) => was.(socket := Worn(parent, info))
    case ContainerOpen(_, _, gump) => was.(open := Some(gump))
  }

  /** An item of a world that was empty before the packets arrived. */
  ghost function Mirror(out: seq<Packet>, s: nat): Option<Item> {
    if out == [] then None
    else
      var last := out[|out| - 1];
      var i := Mirror(out[..|out| - 1], s);
      if last.serial == s then Some(Updated(i, last)) else i
  }

  /** Where an item is, as far as packets tell: the ground is not told. */
  predicate Told(socket: Socket) {
    socket.Container? || socket.Worn?
  }

  /** What a client gets to know about an item. */
  ghost function Shown(i: Option<Item>): Option<Item> {
    if i.None? || (!Told(i.value.socket) && i.value.open.None?) then None
    else Some(Item(if Told(i.value.socket) then i.value.socket else Nowhere, i.value.open, 0))
  }

  /** Not on the ground, and anything is known about it. */
  predicate Tellable(i: Item) {
    !i.socket.Ground? && (i.socket.Nowhere? ==> i.open.Some?)
  }

  /** The client knows all that the proxy knows about an item, but for the mark, if
      and only if the item is not on the ground. */
  lemma ShownInFull(i: Item)
    ensures Shown(Some(i)) == Some(i.(mark := 0)) <==> Tellable(i)
    ensures i.socket.Ground? && i.open.None? ==> Shown(Some(i)) == None
  {
  }

  lemma MirrorSnoc(out: seq<Packet>, p: Packet, s: nat)
    ensures Mirror(out + [p], s) == if p.serial == s then Some(Updated(Mirror(out, s), p)) else Mirror(out, s)
  {
    assert (out + [p])[..|out|] == out;
  }

  ghost function OrNew(i: Option<Item>): Item {
    if i.Some? then i.value else NEW_ITEM
  }

  lemma MirrorSocket(out: seq<Packet>, e: Entry<Item>, v6: bool, v7: bool, s: nat)
    ensures Mirror(out + SocketPacket(e, v6), s) ==
            if e.serial != s || !Told(e.data.socket) then Mirror(out, s)
            else Some(OrNew(Mirror(out, s)).(socket := e.data.socket))
  {
    if !Told(e.data.socket) {
      assert out + [] == out;
    } else {
      MirrorSnoc(out, SocketPacket(e, v6)[0], s);
    }
  }

  lemma MirrorOpen(out: seq<Packet>, e: Entry<Item>, v7: bool, s: nat)
    ensures Mirror(out + OpenPacket(e, v7), s) ==
            if e.serial != s || e.data.open.None? then Mirror(out, s)
            else Some(OrNew(Mirror(out, s)).(open := e.data.open))
  {
    if e.data.open.None? {
      assert out + [] == out;
    } else {
      MirrorSnoc(out, OpenPacket(e, v7)[0], s);
    }
  }

  /** The packets of an item show it, and no other one. */
  lemma MirrorItem(out: seq<Packet>, e: Entry<Item>, v6: bool, v7: bool, s: nat)
    requires e.serial == s ==> Mirror(out, s) == None || Mirror(out, s) == Shown(Some(e.data))
    ensures Mirror(out + PacketsOf(e, v6, v7), s) == if e.serial == s then Shown(Some(e.data)) else Mirror(out, s)
  {
    MirrorSocket(out, e, v6, v7, s);
    MirrorOpen(out + SocketPacket(e, v6), e, v7, s);
    assert out + PacketsOf(e, v6, v7) == out + SocketPacket(e, v6) + OpenPacket(e, v7);
  }

  lemma {:induction false} MirrorOfLog(items: Items, log: seq<Event>, v6: bool, v7: bool, s: nat)
    ensures Mirror(PacketsOfLog(items, log, v6, v7), s) == if Visited(s) in log then Shown(Get(items, s)) else None
  {
    if log != [] {
      var n := |log| - 1;
      MirrorOfLog(items, log[..n], v6, v7, s);
      assert log == log[..n] + [log[n]];
      var before := PacketsOfLog(items, log[..n], v6, v7);
      if log[n].Visited? && Get(items, log[n].serial).Some? {
        MirrorItem(before, Entry(log[n].serial, Get(items, log[n].serial).value), v6, v7, s);
      } else {
        assert before + [] == before;
      }
    }
  }

  /** Every packet has the form that the client's protocol knows. */
  ghost predicate InForm(out: seq<Packet>, v6: bool, v7: bool) {
    forall p :: p in out ==> (p.ContainerUpdate? ==> p.v6 == v6) && (p.ContainerOpen? ==> p.v7 == v7)
  }

  /** No item is opened before it is known where it is. */
  ghost predicate OpenedLast(out: seq<Packet>) {
    forall j, k :: 0 <= j < k < |out| && out[j].ContainerOpen? ==> out[k].ContainerOpen? || out[j].serial != out[k].serial
  }

  /** Nothing about a container comes after the update of something in it. */
  ghost predicate ContainersKnown(out: seq<Packet>) {
    forall j, k :: 0 <= j < k < |out| && out[j].ContainerUpdate? ==> out[k].serial != out[j].parent
  }

  /** The packets of one item are appended. */
  lemma ContainersKnownSnoc(out: seq<Packet>, own: seq<Packet>, s: nat)
    requires ContainersKnown(out) && forall j :: 0 <= j < |out| && out[j].ContainerUpdate? ==> out[j].parent != s
    requires forall p :: p in own ==> p.serial == s && (p.ContainerUpdate? ==> p.parent != s)
    ensures ContainersKnown(out + own)
  {
    var all := out + own;
    forall j, k | 0 <= j < k < |all| && all[j].ContainerUpdate? ensures all[k].serial != all[j].parent {
      assert j >= |out| ==> own[j - |out|] in own;
      assert k >= |out| ==> own[k - |out|] in own;
    }
  }

  /** Every update was sent for an item that is in this container, which, if it is known,
      was visited before. */
  lemma {:induction false} UpdatesOfLog(items: Items, log: seq<Event>, v6: bool, v7: bool, p: Packet)
    requires WellOrdered(items, log) && ContainersFirst(items, log)
    requires p in PacketsOfLog(items, log, v6, v7) && p.ContainerUpdate?
    ensures Get(items, p.parent).Some? ==> Visited(p.parent) in log
  {
    var n := |log| - 1;
    if p in PacketsOfLog(items, log[..n], v6, v7) {
      OrderedPrefix(items, log);
      UpdatesOfLog(items, log[..n], v6, v7, p);
    } else {
      assert Contained(items, log[n].serial) && ContainerOf(items, log[n].serial) == p.parent;
      assert log[n - 1] == Sent(log[n].serial);
    }
  }

  lemma OrderedPrefix(items: Items, log: seq<Event>)
    requires WellOrdered(items, log) && ContainersFirst(items, log) && log != []
    ensures WellOrdered(items, log[..|log| - 1]) && ContainersFirst(items, log[..|log| - 1])
  {
    var front := log[..|log| - 1];
    forall k | 0 <= k < |front| ensures front[..k] == log[..k] {
    }
  }

  /** If the pass sent containers first, then this holds of the packets. */
  lemma {:induction false} ContainersOfLog(items: Items, log: seq<Event>, v6: bool, v7: bool)
    requires WellOrdered(items, log) && ContainersFirst(items, log)
    ensures ContainersKnown(PacketsOfLog(items, log, v6, v7))
  {
    if log != [] {
      var n := |log| - 1;
      OrderedPrefix(items, log);
      ContainersOfLog(items, log[..n], v6, v7);
      var out := PacketsOfLog(items, log[..n], v6, v7);
      if log[n].Visited? && Get(items, log[n].serial).Some? {
        var s := log[n].serial;
        assert Visited(s) !in log[..n];
        forall j | 0 <= j < |out| && out[j].ContainerUpdate? ensures out[j].parent != s {
          UpdatesOfLog(items, log[..n], v6, v7, out[j]);
        }
        if Contained(items, s) {
          assert log[n - 1] == Sent(s);
          assert log[..n - 1] <= log[..n];
        }
        ContainersKnownSnoc(out, PacketsOf(Entry(s, Get(items, s).value), v6, v7), s);
      } else {
        assert PacketsOfLog(items, log, v6, v7) == out;
      }
    }
  }

  lemma FormsOfItem(e: Entry<Item>, v6: bool, v7: bool)
    ensures InForm(PacketsOf(e, v6, v7), v6, v7) && OpenedLast(PacketsOf(e, v6, v7))
    ensures forall p :: p in PacketsOf(e, v6, v7) ==> p.serial == e.serial
  {
  }

  lemma {:induction false} FormsOfLog(items: Items, log: seq<Event>, v6: bool, v7: bool)
    ensures InForm(PacketsOfLog(items, log, v6, v7), v6, v7)
    ensures forall p :: p in PacketsOfLog(items, log, v6, v7) ==> Visited(p.serial) in log
  {
    if log != [] {
      var n := |log| - 1;
      FormsOfLog(items, log[..n], v6, v7);
      assert log == log[..n] + [log[n]];
      if log[n].Visited? && Get(items, log[n].serial).Some? {
        FormsOfItem(Entry(log[n].serial, Get(items, log[n].serial).value), v6, v7);
      } else {
        assert PacketsOfLog(items, log, v6, v7) == PacketsOfLog(items, log[..n], v6, v7);
      }
    }
  }

  lemma OpenedLastSnoc(out: seq<Packet>, own: seq<Packet>, s: nat)
    requires OpenedLast(out) && OpenedLast(own)
    requires (forall p :: p in own ==> p.serial == s) && forall p :: p in out ==> p.serial != s
    ensures OpenedLast(out + own)
  {
    var all := out + own;
    forall j, k | 0 <= j < k < |all| && all[j].ContainerOpen?
      ensures all[k].ContainerOpen? || all[j].serial != all[k].serial
    {
      assert j < |out| ==> out[j] in out;
      assert k >= |out| ==> own[k - |out|] in own;
    }
  }

  lemma {:induction false} OrderOfLog(items: Items, log: seq<Event>, v6: bool, v7: bool)
    requires forall j, k :: 0 <= j < k < |log| && log[j].Visited? ==> log[j] != log[k]
    ensures OpenedLast(PacketsOfLog(items, log, v6, v7))
  {
    if log != [] {
      var n := |log| - 1;
      OrderOfLog(items, log[..n], v6, v7);
      FormsOfLog(items, log[..n], v6, v7);
      if log[n].Visited? && Get(items, log[n].serial).Some? {
        assert Visited(log[n].serial) !in log[..n];
        FormsOfItem(Entry(log[n].serial, Get(items, log[n].serial).value), v6, v7);
        OpenedLastSnoc(PacketsOfLog(items, log[..n], v6, v7),
                       PacketsOf(Entry(log[n].serial, Get(items, log[n].serial).value), v6, v7), log[n].serial);
      } else {
        assert PacketsOfLog(items, log, v6, v7) == PacketsOfLog(items, log[..n], v6, v7);
      }
    }
  }

  lemma PassResult(first: Items, items: Items, mark: nat, log: seq<Event>)
    requires Tracks(first, items, mark, log, {})
    requires AllMarked(items, mark, |items|)
    ensures forall e :: e in first ==> (Visited(e.serial) in log <==> e.data.mark != mark)
    ensures NoneMarked(first, mark) && ContainersFirst(first, log) ==> Acyclic(first)
  {
    forall e | e in first ensures Visited(e.serial) in log <==> e.data.mark != mark {
      var k :| 0 <= k < |first| && first[k] == e;
    }
    if NoneMarked(first, mark) && ContainersFirst(first, log) {
      forall s | Get(first, s).Some? ensures Visited(s) in log {
        GetNone(first, s);
        var k :| 0 <= k < |first| && first[k].serial == s;
      }
      ContainersFirstRanks(first, log);
    }
  }

  lemma FreshMark(items: Items, counter: nat)
    requires MarksUpTo(items, counter)
    ensures NoneMarked(items, counter + 1) && MarksUpTo(items, counter + 1)
  {
    forall k | 0 <= k < |items| ensures items[k].data.mark <= counter {
      assert items[k] in items;
    }
  }

  /** The whole pass under a new mark. */
  method Pass(w: World, v6: bool, v7: bool) returns (out: seq<Packet>, ghost log: seq<Event>)
    requires w.Valid()
    modifies w`items, w`counter
    ensures w.Valid() && w.counter == NextMark(old(w.counter))
    ensures SameButMarks(old(w.items), w.items, w.counter)
    ensures old(w.MarksBelow()) && old(w.counter) + 1 < U32 ==> w.MarksBelow() && NoneMarked(old(w.items), w.counter)
    ensures forall e :: e in old(w.items) ==> (Visited(e.serial) in log <==> e.data.mark != w.counter)
    ensures WellOrdered(old(w.items), log) && out == PacketsOfLog(old(w.items), log, v6, v7)
    ensures NoneMarked(old(w.items), w.counter) ==> (ContainersFirst(old(w.items), log) <==> Acyclic(old(w.items)))
  {
    ghost var first := w.items;
    if w.MarksBelow() {
      FreshMark(w.items, w.counter);
    }
    w.counter := NextMark(w.counter);
    ghost var ranked := Acyclic(first) && NoneMarked(first, w.counter);
    ghost var rank: nat -> nat := s => 0;
    if ranked {
      rank :| Ranked(first, rank);
    }
    out, log := VisitAll(w, v6, v7, ranked, rank);
    PassResult(first, w.items, w.counter, log);
  }

  /** All about what was sent. */
  lemma SentAll(items: Items, log: seq<Event>, v6: bool, v7: bool, out: seq<Packet>)
    requires WellOrdered(items, log) && out == PacketsOfLog(items, log, v6, v7)
    ensures InForm(out, v6, v7) && OpenedLast(out) && (ContainersFirst(items, log) ==> ContainersKnown(out))
    ensures forall s :: Mirror(out, s) == if Visited(s) in log then Shown(Get(items, s)) else None
  {
    if ContainersFirst(items, log) {
      ContainersOfLog(items, log, v6, v7);
    }
    FormsOfLog(items, log, v6, v7);
    OrderOfLog(items, log, v6, v7);
    forall s ensures Mirror(out, s) == if Visited(s) in log then Shown(Get(items, s)) else None {
      MirrorOfLog(items, log, v6, v7, s);
    }
  }

  /** Every item that did not carry the mark yet is visited exactly once and its
      packets are sent once, in the client's form, cycles or not. If no mark was stale,
      containers come before their contents if and only if containment has no cycle. */
  method SendItems(w: World, v6: bool, v7: bool) returns (out: seq<Packet>, ghost log: seq<Event>)
    requires w.Valid()
    modifies w`items, w`counter
    ensures w.Valid() && w.counter == NextMark(old(w.counter))
    ensures SameButMarks(old(w.items), w.items, w.counter)
    ensures old(w.MarksBelow()) && old(w.counter) + 1 < U32 ==> w.MarksBelow() && NoneMarked(old(w.items), w.counter)
    ensures forall e :: e in old(w.items) ==> (Visited(e.serial) in log <==> e.data.mark != w.counter)
    ensures WellOrdered(old(w.items), log) && out == PacketsOfLog(old(w.items), log, v6, v7)
    ensures InForm(out, v6, v7) && OpenedLast(out)
    ensures NoneMarked(old(w.items), w.counter) ==> (ContainersFirst(old(w.items), log) <==> Acyclic(old(w.items)))
    ensures NoneMarked(old(w.items), w.counter) && Acyclic(old(w.items)) ==> ContainersKnown(out)
    ensures forall s :: Mirror(out, s) == if Visited(s) in log then Shown(Get(old(w.items), s)) else None
  {
    ghost var first := w.items;
    out, log := Pass(w, v6, v7);
    SentAll(first, log, v6, v7, out);
  }

  /** Another world receives packets. */
  method Receive(world: World, out: seq<Packet>)
    requires world.Valid() && world.items == []
    modifies world`items
    ensures world.Valid() && forall s :: Get(world.items, s) == Mirror(out, s)
  {
    for k := 0 to |out|
      invariant world.Valid() && forall s :: Get(world.items, s) == Mirror(out[..k], s)
    {
      assert out[..k + 1][..k] == out[..k];
      match out[k]
      case ContainerUpdate(_, s, parent, info) => world.ApplySocket(s, Container(parent, info));
      case Equip(s, parent, info) => world.ApplySocket(s, Worn(parent, info));
      case ContainerOpen(_, s, gump) => world.ApplyOpen(s, gump);
    }
    assert out[..|out|] == out;
  }

  lemma Knowledge(first: Items, mark: nat, log: seq<Event>, items: Items)
    requires DistinctSerials(first) && forall e :: e in first ==> (Visited(e.serial) in log <==> e.data.mark != mark)
    requires forall s :: Get(items, s) == if Visited(s) in log then Shown(Get(first, s)) else None
    ensures forall e :: e in first ==> Get(items, e.serial) == if e.data.mark != mark then Shown(Some(e.data)) else None
    ensures forall e :: e in first ==>
              (Get(items, e.serial) == Some(e.data.(mark := 0)) <==> e.data.mark != mark && Tellable(e.data))
    ensures NoneMarked(first, mark) ==> forall s :: Get(items, s) == Shown(Get(first, s))
  {
    forall e | e in first ensures Get(first, e.serial) == Some(e.data) {
      var k :| 0 <= k < |first| && first[k] == e;
      GetAt(first, k);
    }
    forall s | Get(first, s).Some? ensures exists e :: e in first && e.serial == s {
      GetNone(first, s);
      var k :| 0 <= k < |first| && first[k].serial == s;
      assert first[k] in first;
    }
  }

  /** A client that is attached, and starts with nothing, knows of every item whether
      it is open and, unless it is on the ground, where it is. This needs that no mark
      was stale; an item with a stale mark is missing. */
  method AttachClient(w: World, v6: bool, v7: bool) returns (client: World)
    requires w.Valid()
    modifies w`items, w`counter
    ensures fresh(client) && client.Valid() && w.Valid() && SameButMarks(old(w.items), w.items, w.counter)
    ensures forall e :: e in old(w.items) ==>
              Get(client.items, e.serial) == if e.data.mark != w.counter then Shown(Some(e.data)) else None
    ensures forall e :: e in old(w.items) ==>
              (Get(client.items, e.serial) == Some(e.data.(mark := 0)) <==> e.data.mark != w.counter && Tellable(e.data))
    ensures NoneMarked(old(w.items), w.counter) ==> forall s :: Get(client.items, s) == Shown(Get(old(w.items), s))
    ensures old(w.MarksBelow()) && old(w.counter) + 1 < U32 ==> NoneMarked(old(w.items), w.counter)
  {
    ghost var first := w.items;
    var out;
    ghost var log;
    out, log := SendItems(w, v6, v7);
    client := new World();
    Receive(client, out);
    Knowledge(first, w.counter, log, client.items);
  }

  /** The only item lies on the ground. A client that attaches does not get to know of
      it. */
  method AttachToGround(serial: nat, info: nat, v6: bool, v7: bool) returns (w: World, client: World)
    ensures fresh(w) && fresh(client) && Get(w.items, serial).Some? && Get(w.items, serial).value.socket == Ground(info)
    ensures forall s :: Get(client.items, s) == None
  {
    w := new World();
    w.ApplySocket(serial, Ground(info));
    ghost var first := w.items;
    client := AttachClient(w, v6, v7);
    forall s ensures Shown(Get(first, s)) == None {
      if s == serial {
        ShownInFull(Get(first, s).value);
      }
    }
    SameLookup(first, w.items, w.counter, serial);
  }
}
