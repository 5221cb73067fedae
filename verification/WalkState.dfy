/** The walk queue as the program keeps it (src/uo/WalkState.hxx), and the
    handlers that work on it (src/Walk.cxx); each is proved to perform the
    corresponding step of module Walk. */
module WalkState {
  import opened Bits
  import opened Wrappers
  import opened Walk

  datatype Item = Item(packet: WalkPacket, number: Byte)

  const NO_ITEM: Item := Item(WalkPacket(0, 0, 0), 0)

  /** A fixed array with the number of items in use. */
  class Queue {
    const items: array<Item>
    var size: nat
    var server: Option<nat>
    var seqNext: Byte

    /** Which walks the items stand for. */
    ghost var entries: seq<Entry>

    ghost predicate Valid()
      reads this, items
    {
      && items.Length == MAX_QUEUE && size == |entries| <= MAX_QUEUE
      && (forall i :: 0 <= i < size ==> items[i] == Item(entries[i].walk.packet, entries[i].number))
    }

    constructor ()
      ensures Valid() && entries == [] && server == None && seqNext == 0 && fresh(items)
    {
      items := new Item[MAX_QUEUE](_ => NO_ITEM);
      size, server, seqNext, entries := 0, None, 0, [];
    }

    method Clear()
      requires Valid()
      modifies this
      ensures Valid() && entries == [] && server == None && seqNext == old(seqNext)
    {
      size, server, entries := 0, None, [];
    }

    /** Adds an item at the end. */
    method Append(item: Item, ghost entry: Entry)
      requires Valid() && size < MAX_QUEUE && item == Item(entry.walk.packet, entry.number)
      modifies `size, `entries, items
      ensures Valid() && entries == old(entries) + [entry]
    {
      items[size] := item;
      size, entries := size + 1, entries + [entry];
    }

    /** Removes an item by moving the later ones forward. */
    method Remove(i: nat)
      requires Valid() && i < size
      modifies `size, `server, `entries, items
      ensures Valid() && entries == old(entries)[..i] + old(entries)[i + 1..]
      ensures server == if old(size) == 1 then None else old(server)
    {
      for k := i + 1 to size
        invariant unchanged(this)
        invariant forall j :: 0 <= j < k - 1 ==> items[j] == old(items[if j < i then j else j + 1])
        invariant forall j :: k - 1 <= j < size ==> items[j] == old(items[j])
      {
        items[k - 1] := items[k];
      }
      size, entries := size - 1, entries[..i] + entries[i + 1..];
      if size == 0 {
        server := None;
      }
    }

    method PopFront()
      requires Valid() && size > 0
      modifies `size, `server, `entries, items
      ensures Valid() && entries == old(entries)[1..]
      ensures server == if old(size) == 1 then None else old(server)
    {
      Remove(0);
    }

    method FindSequence(number: Byte) returns (i: nat)
      requires Valid()
      ensures i == Find(entries, number)
    {
      i := 0;
      while i < size && items[i].number != number
        invariant i <= size && forall k :: 0 <= k < i ==> entries[k].number != number
      {
        i := i + 1;
      }
    }

    method OnServerRemoved(client: nat)
      modifies `server
      ensures server == if old(server) == Some(client) then None else old(server)
    {
      if server == Some(client) {
        server := None;
      }
    }
  }

  /** The part of a connection that handles walks. What is sent is recorded. */
  class Connection {
    const walk: Queue
    var place: Place
    var replies: seq<Reply>
    var toServer: seq<ToServer>

    ghost var asked: seq<Asked>
    ghost var answered: seq<nat>
    ghost var lost: nat
    ghost var mark: nat

    ghost predicate Valid()
      reads this, walk, walk.items
    {
      walk.Valid()
    }

    ghost function State(): Walks
      reads this, walk
    {
      Walks(walk.entries, walk.server, walk.seqNext, place, asked, replies, answered, lost, toServer, mark)
    }

    constructor (place: Place)
      ensures Valid() && State() == Initial(place) && fresh(walk) && fresh(walk.items)
    {
      walk := new Queue();
      this.place, replies, toServer := place, [], [];
      asked, answered, lost, mark := [], [], 0, 0;
    }

    method SendToClient(reply: Reply, ghost id: nat)
      modifies `replies, `answered
      ensures replies == old(replies) + [reply] && answered == old(answered) + [id]
    {
      replies, answered := replies + [reply], answered + [id];
    }

    method WalkCancel(client: nat, packet: WalkPacket, ghost id: nat)
      modifies `replies, `answered
      ensures replies == old(replies) + [CancelReply(client, packet.number, place)] && answered == old(answered) + [id]
    {
      SendToClient(CancelReply(client, packet.number, place), id);
    }

    /** A walk packet from a client, which is disconnected if its connection is
        not in the game. */
    method HandleWalk(client: nat, inGame: bool, packet: WalkPacket, reconnecting: bool) returns (disconnect: bool)
      requires Valid()
      modifies this, walk, walk.items
      ensures Valid() && disconnect == !inGame
      ensures State() == if inGame then Request(old(State()), client, packet, reconnecting) else old(State())
    {
      if !inGame {
        return true;
      }
      disconnect := false;
      asked := asked + [Asked(client, packet)];
      if reconnecting {
        WalkCancel(client, packet, |asked| - 1);
      } else {
        OnWalkRequest(client, packet);
      }
    }

    method OnWalkRequest(client: nat, packet: WalkPacket)
      requires Valid() && |asked| > 0 && asked[|asked| - 1] == Asked(client, packet)
      modifies this, walk, walk.items
      ensures Valid()
      ensures State() == (var w := old(State());
                          if Rejects(w, client, false) then
                            Answered(w, CancelReply(client, packet.number, w.place), |old(asked)| - 1)
                          else
                            Forwarded(MadeRoom(w, client), client, packet, |old(asked)| - 1))
    {
      if walk.size > 0 && walk.server != Some(client) {
        WalkCancel(client, packet, |asked| - 1);
        return;
      }
      if walk.size >= MAX_QUEUE {
        WalkCancel(client, walk.items[0].packet, walk.entries[0].id);
        walk.PopFront();
      }
      Enqueue(client, packet);
    }

    method Enqueue(client: nat, packet: WalkPacket)
      requires Valid() && walk.size < MAX_QUEUE && |asked| > 0
      modifies this, walk, walk.items
      ensures Valid() && State() == Forwarded(old(State()), client, packet, |old(asked)| - 1)
    {
      walk.server := Some(client);
      walk.Append(Item(packet, walk.seqNext), Entry(|asked| - 1, Asked(client, packet), walk.seqNext));
      toServer := toServer + [Forward(packet.(number := walk.seqNext))];
      walk.seqNext := (walk.seqNext + 1) % 0x100;
      if walk.seqNext == 0 {
        walk.seqNext := 1;
      }
    }

    method Resynchronize()
      requires Valid()
      modifies this, walk
      ensures Valid() && State() == (var w := old(State()); Cleared(w).(toServer := w.toServer + [Resync]))
    {
      lost := lost + walk.size;
      walk.Clear();
      toServer := toServer + [Resync];
    }

    method OnWalkAck(number: Byte, notoriety: Byte)
      requires Valid()
      modifies this, walk, walk.items
      ensures Valid() && State() == Ack(old(State()), number, notoriety)
    {
      var i := walk.FindSequence(number);
      if i == walk.size {
        Resynchronize();
        return;
      }
      place := Walked(place, walk.items[i].packet.direction);
      if walk.server != None {
        SendToClient(AckReply(walk.server.value, walk.items[i].packet.number, notoriety), walk.entries[i].id);
      } else {
        lost := lost + 1;
      }
      walk.Remove(i);
    }

    method OnWalkCancel(number: Byte, p: Place)
      requires Valid()
      modifies this, walk
      ensures Valid() && State() == Cancel(old(State()), number, p)
    {
      walk.seqNext, mark := 0, |toServer|;
      var i := walk.FindSequence(number);
      place := p.(z := place.z);
      lost := lost + walk.size;
      if i < walk.size && walk.server != None {
        SendToClient(CancelReply(walk.server.value, walk.items[i].packet.number, p), walk.entries[i].id);
        lost := lost - 1;
      }
      walk.Clear();
    }

    /** A client leaves the connection. */
    method Remove(client: nat)
      requires Valid()
      modifies walk
      ensures Valid() && State() == Left(old(State()), client)
    {
      walk.OnServerRemoved(client);
    }

    /** A target packet from a client; cancelling a target changes nothing. */
    method HandleTarget(allowGround: bool, serial: nat)
      requires Valid()
      modifies this, walk
      ensures Valid() && State() == if !allowGround && serial == 0 then old(State()) else Cleared(Restarted(old(State())))
    {
      if allowGround || serial != 0 {
        lost := lost + walk.size;
        walk.seqNext, mark := 0, |toServer|;
        walk.Clear();
      }
    }

    method HandleResynchronize()
      requires Valid()
      modifies this, walk
      ensures Valid() && State() == Restarted(old(State()))
    {
      walk.seqNext, mark := 0, |toServer|;
    }

    method HandleStart(p: Place)
      requires Valid()
      modifies this, walk
      ensures Valid() && State() == Restarted(old(State())).(place := p)
    {
      place := p;
      walk.seqNext, mark := 0, |toServer|;
    }
  }
}
