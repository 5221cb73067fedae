/** The queue of walks in flight between the clients of a connection and the game
    server (src/Walk.cxx, src/uo/WalkState.cxx, src/uo/WalkState.hxx): walks get
    new sequence numbers on their way to the server, and the server's replies are
    relayed to the client that asked. */
module Walk {
  import opened Bits
  import opened Wrappers

  const MAX_QUEUE: nat := 4

  datatype WalkPacket = WalkPacket(direction: Byte, number: Byte, key: nat)

  type Word = n: nat | n < 0x1_0000

  /** Where the player stands. */
  datatype Place = Place(x: Word, y: Word, direction: Byte, z: int)

  datatype Reply =
    | CancelReply(client: nat, number: Byte, place: Place)
    | AckReply(client: nat, number: Byte, notoriety: Byte)

  datatype ToServer = Forward(packet: WalkPacket) | Resync

  /** A walk that a client asked for. */
  datatype Asked = Asked(client: nat, packet: WalkPacket)

  /** A queued walk: which one it is, what was asked by whom, and the number
      under which the server knows it. */
  datatype Entry = Entry(id: nat, walk: Asked, number: Byte)

  // ---- The protocol as steps on a value ----

  /** The state of the walk protocol together with its history: all walks asked
      for, everything sent (to clients, with the walk that each reply answers, and
      to the server), where in that the sequence numbers were last reset, and how
      many walks were forgotten without a reply. */
  datatype Walks = Walks(
    queue: seq<Entry>, server: Option<nat>, seqNext: Byte, place: Place,
    asked: seq<Asked>, replies: seq<Reply>, answered: seq<nat>,
    lost: nat, toServer: seq<ToServer>, mark: nat)

  /** The counter is an unsigned byte and skips zero when it wraps. */
  function NextSeq(number: Byte): Byte {
    if number == 0xff then 1 else number + 1
  }

  function Cleared(w: Walks): Walks {
    w.(queue := [], server := None, lost := w.lost + |w.queue|)
  }

  function Answered(w: Walks, reply: Reply, id: nat): Walks {
    w.(replies := w.replies + [reply], answered := w.answered + [id])
  }

  function RemovedAt(w: Walks, i: nat): Walks
    requires i < |w.queue|
  {
    w.(queue := w.queue[..i] + w.queue[i + 1..], server := if |w.queue| == 1 then None else w.server)
  }

  /** Counting of sequence numbers starts again. */
  function Restarted(w: Walks): Walks {
    w.(seqNext := 0, mark := |w.toServer|)
  }

  predicate Rejects(w: Walks, client: nat, reconnecting: bool) {
    reconnecting || (w.queue != [] && w.server != Some(client))
  }

  /** If the queue is full, its first walk is cancelled. */
  function MadeRoom(w: Walks, client: nat): Walks {
    if |w.queue| < MAX_QUEUE then w
    else RemovedAt(Answered(w, CancelReply(client, w.queue[0].walk.packet.number, w.place), w.queue[0].id), 0)
  }

  function Forwarded(w: Walks, client: nat, packet: WalkPacket, id: nat): Walks {
    w.(queue := w.queue + [Entry(id, Asked(client, packet), w.seqNext)],
       server := Some(client),
       toServer := w.toServer + [Forward(packet.(number := w.seqNext))],
       seqNext := NextSeq(w.seqNext))
  }

  function Request(w: Walks, client: nat, packet: WalkPacket, reconnecting: bool): Walks {
    var w1 := w.(asked := w.asked + [Asked(client, packet)]);
    if Rejects(w, client, reconnecting) then
      Answered(w1, CancelReply(client, packet.number, w.place), |w.asked|)
    else
      Forwarded(MadeRoom(w1, client), client, packet, |w.asked|)
  }

  /** The first entry with this number; the length of the queue if there is none. */
  function Find(queue: seq<Entry>, number: Byte): (i: nat)
    ensures i <= |queue| && (i < |queue| ==> queue[i].number == number)
    ensures forall k :: 0 <= k < i ==> queue[k].number != number
  {
    if queue == [] || queue[0].number == number then 0 else 1 + Find(queue[1..], number)
  }

  function RelayAck(w: Walks, i: nat, notoriety: Byte): Walks
    requires i < |w.queue|
  {
    if w.server == None then w.(lost := w.lost + 1)
    else Answered(w, AckReply(w.server.value, w.queue[i].walk.packet.number, notoriety), w.queue[i].id)
  }

  function Ack(w: Walks, number: Byte, notoriety: Byte): Walks {
    var i := Find(w.queue, number);
    if i == |w.queue| then
      Cleared(w).(toServer := w.toServer + [Resync])
    else
      RemovedAt(RelayAck(w.(place := Walked(w.place, w.queue[i].walk.packet.direction)), i, notoriety), i)
  }

  function RelayCancel(w: Walks, i: nat, place: Place): Walks {
    if i < |w.queue| && w.server != None then
      RemovedAt(Answered(w, CancelReply(w.server.value, w.queue[i].walk.packet.number, place), w.queue[i].id), i)
    else w
  }

  function Cancel(w: Walks, number: Byte, place: Place): Walks {
    Cleared(RelayCancel(Restarted(w).(place := place.(z := w.place.z)), Find(w.queue, number), place))
  }

  function Left(w: Walks, client: nat): Walks {
    if w.server == Some(client) then w.(server := None) else w
  }

  // ---- Directions ----

  /** -1, 0 or 1 is added in 16-bit arithmetic. */
  function Moved(c: Word, d: int): Word
    requires -1 <= d <= 1
  {
    if c + d < 0 then 0xffff else if c + d > 0xffff then 0 else c + d
  }

  function StepX(direction: nat): (d: int)
    ensures -1 <= d <= 1
  {
    if 1 <= direction <= 3 then 1 else if 5 <= direction <= 7 then -1 else 0
  }

  function StepY(direction: nat): (d: int)
    ensures -1 <= d <= 1
  {
    if 3 <= direction <= 5 then 1 else if direction == 7 || direction <= 1 then -1 else 0
  }

  /** A player who already looks into the direction moves by one field; any other
      one only turns. */
  function Walked(p: Place, direction: Byte): Place {
    var d := direction % 8;
    if p.direction % 8 == d then
      p.(x := Moved(p.x, StepX(d)), y := Moved(p.y, StepY(d)), direction := direction)
    else
      p.(direction := direction)
  }

  /** Going north, east, south and west changes one coordinate by one, and a
      diagonal step is one step in each of its two neighbouring directions. */
  lemma Compass(direction: nat)
    requires direction < 8
    ensures StepX(0) == 0 && StepY(0) == -1 && StepX(2) == 1 && StepY(2) == 0
    ensures StepX(4) == 0 && StepY(4) == 1 && StepX(6) == -1 && StepY(6) == 0
    ensures direction % 2 == 1 ==>
              var next := if direction == 7 then 0 else direction + 1;
              && StepX(direction) == StepX(direction - 1) + StepX(next)
              && StepY(direction) == StepY(direction - 1) + StepY(next)
  {
  }

  /** Walking on, turning round, walking back and turning again restores the
      player's place. */
  lemma WalkBack(p: Place, back: Byte)
    requires p.direction < 8 && back == if p.direction < 4 then p.direction + 4 else p.direction - 4
    ensures Walked(Walked(Walked(Walked(p, p.direction), back), back), p.direction) == p
  {
    var q := Walked(p, p.direction);
    assert q == p.(x := Moved(p.x, StepX(p.direction)), y := Moved(p.y, StepY(p.direction)));
    var r := Walked(q, back);
    assert r == q.(direction := back);
    assert Walked(r, back) == p.(direction := back);
  }

  // ---- Runs ----

  datatype Event =
    | Requested(client: nat, packet: WalkPacket, reconnecting: bool)
    | Acked(number: Byte, notoriety: Byte)
    | Cancelled(number: Byte, place: Place)
    | ClientLeft(client: nat)
    | TargetChosen
    | ClientResync
    | Started(place: Place)

  function Step(w: Walks, e: Event): Walks {
    match e
    case Requested(client, packet, reconnecting) => Request(w, client, packet, reconnecting)
    case Acked(number, notoriety) => Ack(w, number, notoriety)
    case Cancelled(number, place) => Cancel(w, number, place)
    case ClientLeft(client) => Left(w, client)
    case TargetChosen => Cleared(Restarted(w))
    case ClientResync => Restarted(w)
    case Started(place) => Restarted(w).(place := place)
  }

  function Run(w: Walks, events: seq<Event>): Walks
    decreases |events|
  {
    if events == [] then w else Run(Step(w, events[0]), events[1..])
  }

  function Initial(place: Place): Walks {
    Walks([], None, 0, place, [], [], [], 0, [], 0)
  }

  // ---- What each event does ----

  /** A coordinate after one step, in 16 bits. */
  ghost predicate Moves(from: Word, d: int, to: Word) {
    (from + d - to) % 0x1_0000 == 0
  }

  /** A walk turns the player, and moves one field if the player looked there. */
  ghost predicate OneStep(p: Place, direction: Byte, q: Place) {
    var ahead := p.direction % 8 == direction % 8;
    && q.direction == direction && q.z == p.z
    && Moves(p.x, if ahead then StepX(direction % 8) else 0, q.x)
    && Moves(p.y, if ahead then StepY(direction % 8) else 0, q.y)
  }

  lemma WalkedTo(p: Place, direction: Byte)
    ensures OneStep(p, direction, Walked(p, direction))
  {
  }

  /** Where the player is: an acknowledgement that finds a walk makes it, a
      cancellation tells the place but not the height, a Start packet tells all. */
  lemma PlaceStep(w: Walks, e: Event)
    ensures var q := Step(w, e).place;
            match e
            case Acked(number, _) =>
              var i := Find(w.queue, number);
              if i < |w.queue| then OneStep(w.place, w.queue[i].walk.packet.direction, q) else q == w.place
            case Cancelled(_, p) => q.x == p.x && q.y == p.y && q.direction == p.direction && q.z == w.place.z
            case Started(p) => q == p
            case _ => q == w.place
  {
    if e.Acked? && Find(w.queue, e.number) < |w.queue| {
      WalkedTo(w.place, w.queue[Find(w.queue, e.number)].walk.packet.direction);
    }
  }

  /** A request is refused while reconnecting, or if another client has walks in
      flight. */
  ghost predicate Refused(w: Walks, e: Event) {
    e.Requested? && (e.reconnecting || (w.queue != [] && w.server != Some(e.client)))
  }

  /** What the server gets: the client's packet under the next number, or a request to
      resynchronize after an acknowledgement of an unknown walk. */
  lemma ServerStep(w: Walks, e: Event)
    ensures var sent := Step(w, e).toServer;
            if e.Requested? && !Refused(w, e) then
              && |sent| == |w.toServer| + 1 && sent[..|w.toServer|] == w.toServer && sent[|w.toServer|].Forward?
              && (var p := sent[|w.toServer|].packet;
                  p.number == w.seqNext && p.direction == e.packet.direction && p.key == e.packet.key)
            else if e.Acked? && Find(w.queue, e.number) == |w.queue| then sent == w.toServer + [Resync]
            else sent == w.toServer
  {
  }

  /** What clients get: a refusal with the place as it is, the same for the oldest walk
      when the queue is full, and the server's reply to the walk with its number, under
      the number that the client gave. */
  lemma ReplyStep(w: Walks, e: Event)
    ensures var replies := Step(w, e).replies;
            match e
            case Requested(client, packet, _) =>
              if Refused(w, e) then replies == w.replies + [CancelReply(client, packet.number, w.place)]
              else if |w.queue| >= MAX_QUEUE then
                replies == w.replies + [CancelReply(client, w.queue[0].walk.packet.number, w.place)]
              else replies == w.replies
            case Acked(number, notoriety) =>
              var i := Find(w.queue, number);
              if i < |w.queue| && w.server != None then
                replies == w.replies + [AckReply(w.server.value, w.queue[i].walk.packet.number, notoriety)]
              else replies == w.replies
            case Cancelled(number, place) =>
              var i := Find(w.queue, number);
              if i < |w.queue| && w.server != None then
                replies == w.replies + [CancelReply(w.server.value, w.queue[i].walk.packet.number, place)]
              else replies == w.replies
            case _ => replies == w.replies
  {
  }

  /** What is in flight after a request, and for whom. */
  lemma QueueRequested(w: Walks, e: Event)
    requires e.Requested?
    ensures var w' := Step(w, e);
            if Refused(w, e) then w'.queue == w.queue && w'.server == w.server
            else
              && w'.server == Some(e.client)
              && w'.queue == (if |w.queue| < MAX_QUEUE then w.queue else w.queue[1..])
                             + [Entry(|w.asked|, Asked(e.client, e.packet), w.seqNext)]
  {
    if |w.queue| >= MAX_QUEUE {
      assert w.queue[..0] + w.queue[1..] == w.queue[1..];
    }
  }

  /** And after an acknowledgement. */
  lemma QueueAcked(w: Walks, e: Event)
    requires e.Acked?
    ensures var w', i := Step(w, e), Find(w.queue, e.number);
            if i < |w.queue| then
              w'.queue == w.queue[..i] + w.queue[i + 1..] && w'.server == if |w.queue| == 1 then None else w.server
            else w'.queue == [] && w'.server == None
  {
  }

  /** A cancellation and a chosen target forget all walks; a client that leaves is no
      longer told about them; other events change nothing. */
  lemma QueueOther(w: Walks, e: Event)
    requires !e.Requested? && !e.Acked?
    ensures var w' := Step(w, e);
            && w'.queue == (if e.Cancelled? || e.TargetChosen? then [] else w.queue)
            && w'.server == if e.Cancelled? || e.TargetChosen? || (e.ClientLeft? && w.server == Some(e.client)) then None else w.server
  {
  }

  /** The number of the next walk: a walk that is forwarded takes one; a cancellation, a
      chosen target, a resynchronization and a Start packet begin again with 0. */
  lemma NumberStep(w: Walks, e: Event)
    ensures Step(w, e).seqNext ==
            match e
            case Requested(_, _, _) => if Refused(w, e) then w.seqNext else if w.seqNext == 0xff then 1 else w.seqNext + 1
            case Acked(_, _) => w.seqNext
            case ClientLeft(_) => w.seqNext
            case _ => 0
  {
  }

  /** A walk that is asked for and acknowledged: the server gets it under the number 0,
      the client is told under its own number, and the player is one field further or
      has turned. */
  lemma AcknowledgedWalk(place: Place, client: nat, packet: WalkPacket, notoriety: Byte)
    ensures var w := Run(Initial(place), [Requested(client, packet, false), Acked(0, notoriety)]);
            && OneStep(place, packet.direction, w.place) && w.queue == [] && w.server == None
            && w.toServer == [Forward(packet.(number := 0))]
            && w.replies == [AckReply(client, packet.number, notoriety)] && w.answered == [0]
  {
    var a, b := Requested(client, packet, false), Acked(0, notoriety);
    var w1 := Step(Initial(place), a);
    assert w1.queue == [Entry(0, Asked(client, packet), 0)];
    assert [a, b][1..] == [b] && [b][1..] == [];
    assert Run(w1, [b]) == Step(w1, b);
    WalkedTo(place, packet.direction);
  }

  /** One that is cancelled: the player is where the server says. */
  lemma CancelledWalk(place: Place, client: nat, packet: WalkPacket, to: Place)
    ensures var w := Run(Initial(place), [Requested(client, packet, false), Cancelled(0, to)]);
            && w.place == to.(z := place.z) && w.queue == [] && w.server == None && w.seqNext == 0
            && w.replies == [CancelReply(client, packet.number, to)] && w.answered == [0]
  {
    var a, b := Requested(client, packet, false), Cancelled(0, to);
    var w1 := Step(Initial(place), a);
    assert w1.queue == [Entry(0, Asked(client, packet), 0)];
    assert [a, b][1..] == [b] && [b][1..] == [];
    assert Run(w1, [b]) == Step(w1, b);
  }

  // ---- One requester ----

  /** The queue is bounded, all its walks come from one client, who is the owner
      if there is an owner, and then there is a walk. */
  ghost predicate OneRequester(w: Walks) {
    && |w.queue| <= MAX_QUEUE
    && (forall i, j :: 0 <= i < |w.queue| && 0 <= j < |w.queue| ==> w.queue[i].walk.client == w.queue[j].walk.client)
    && (w.server != None ==> w.queue != [] && w.server == Some(w.queue[0].walk.client))
  }

  // ---- Replies ----

  /** A reply answers a walk: it goes to the client that asked and carries the
      number that this client gave. */
  ghost predicate Answers(reply: Reply, walk: Asked) {
    reply.client == walk.client && reply.number == walk.packet.number
  }

  ghost predicate Recorded(w: Walks) {
    && (forall i :: 0 <= i < |w.queue| ==> w.queue[i].id < |w.asked| && w.asked[w.queue[i].id] == w.queue[i].walk)
    && |w.replies| == |w.answered|
    && (forall k :: 0 <= k < |w.answered| ==> w.answered[k] < |w.asked| && Answers(w.replies[k], w.asked[w.answered[k]]))
  }

  /** No walk is answered twice, and a queued walk is not answered yet. */
  ghost predicate AnsweredOnce(w: Walks) {
    && (forall i, j :: 0 <= i < j < |w.answered| ==> w.answered[i] != w.answered[j])
    && (forall i, j :: 0 <= i < j < |w.queue| ==> w.queue[i].id != w.queue[j].id)
    && (forall i, k :: 0 <= i < |w.queue| && 0 <= k < |w.answered| ==> w.queue[i].id != w.answered[k])
  }

  /** Every walk is queued, answered or lost, but for the ones at hand. */
  ghost predicate SoundBut(w: Walks, atHand: nat) {
    && OneRequester(w) && Recorded(w) && AnsweredOnce(w)
    && |w.asked| == |w.queue| + |w.answered| + w.lost + atHand
  }

  ghost predicate Sound(w: Walks) {
    SoundBut(w, 0)
  }

  lemma SoundAnswered(w: Walks, reply: Reply, i: nat, atHand: nat)
    requires SoundBut(w, atHand) && i < |w.queue| && Answers(reply, w.queue[i].walk)
    ensures SoundBut(RemovedAt(Answered(w, reply, w.queue[i].id), i), atHand)
  {
    Remaining(w.queue, i);
  }

  lemma Remaining(q: seq<Entry>, i: nat)
    requires i < |q|
    ensures var r := q[..i] + q[i + 1..];
            |r| == |q| - 1 && forall k :: 0 <= k < |r| ==> r[k] == q[if k < i then k else k + 1]
  {
  }

  lemma SoundRemoved(w: Walks, i: nat)
    requires Sound(w) && i < |w.queue|
    ensures Sound(RemovedAt(w.(lost := w.lost + 1), i))
  {
    Remaining(w.queue, i);
  }

  ghost predicate IdsBelow(w: Walks, n: nat) {
    && (forall i :: 0 <= i < |w.queue| ==> w.queue[i].id < n)
    && (forall k :: 0 <= k < |w.answered| ==> w.answered[k] < n)
  }

  lemma SoundForwarded(w: Walks, client: nat, packet: WalkPacket, id: nat)
    requires SoundBut(w, 1) && |w.queue| < MAX_QUEUE && IdsBelow(w, id)
    requires id < |w.asked| && w.asked[id] == Asked(client, packet)
    requires w.queue != [] ==> w.server == Some(client)
    ensures Sound(Forwarded(w, client, packet, id))
  {
    var w' := Forwarded(w, client, packet, id);
    assert forall k :: 0 <= k < |w.queue| ==> w'.queue[k] == w.queue[k];
  }

  lemma SoundAsked(w: Walks, walk: Asked)
    requires Sound(w)
    ensures SoundBut(w.(asked := w.asked + [walk]), 1) && IdsBelow(w, |w.asked|)
  {
  }

  lemma SoundRejected(w: Walks, client: nat, packet: WalkPacket)
    requires SoundBut(w, 1) && w.asked != [] && IdsBelow(w, |w.asked| - 1)
    requires w.asked[|w.asked| - 1] == Asked(client, packet)
    ensures Sound(Answered(w, CancelReply(client, packet.number, w.place), |w.asked| - 1))
  {
  }

  lemma SoundMadeRoom(w: Walks, client: nat, n: nat)
    requires SoundBut(w, 1) && IdsBelow(w, n) && (w.queue != [] ==> w.server == Some(client))
    ensures var r := MadeRoom(w, client);
            && SoundBut(r, 1) && IdsBelow(r, n) && |r.queue| < MAX_QUEUE && r.asked == w.asked
            && (r.queue != [] ==> r.server == Some(client))
  {
    if |w.queue| >= MAX_QUEUE {
      SoundAnswered(w, CancelReply(client, w.queue[0].walk.packet.number, w.place), 0, 1);
    }
  }

  lemma SoundTaken(w: Walks, client: nat, packet: WalkPacket, id: nat)
    requires SoundBut(w, 1) && IdsBelow(w, id) && (w.queue != [] ==> w.server == Some(client))
    requires id < |w.asked| && w.asked[id] == Asked(client, packet)
    ensures Sound(Forwarded(MadeRoom(w, client), client, packet, id))
  {
    SoundMadeRoom(w, client, id);
    SoundForwarded(MadeRoom(w, client), client, packet, id);
  }

  lemma SoundRequest(w: Walks, client: nat, packet: WalkPacket, reconnecting: bool)
    requires Sound(w)
    ensures Sound(Request(w, client, packet, reconnecting))
  {
    var w1 := w.(asked := w.asked + [Asked(client, packet)]);
    SoundAsked(w, Asked(client, packet));
    if Rejects(w, client, reconnecting) {
      SoundRejected(w1, client, packet);
    } else {
      SoundTaken(w1, client, packet, |w.asked|);
    }
    assert Sound(Request(w, client, packet, reconnecting)) == true;
  }

  lemma SoundAck(w: Walks, number: Byte, notoriety: Byte)
    requires Sound(w)
    ensures Sound(Ack(w, number, notoriety))
  {
    var i := Find(w.queue, number);
    if i < |w.queue| {
      var w1 := w.(place := Walked(w.place, w.queue[i].walk.packet.direction));
      SoundRelayed(w1, i, notoriety);
    }
  }

  lemma SoundRelayed(w: Walks, i: nat, notoriety: Byte)
    requires Sound(w) && i < |w.queue|
    ensures Sound(RemovedAt(RelayAck(w, i, notoriety), i))
  {
    if w.server == None {
      SoundRemoved(w, i);
    } else {
      SoundAnswered(w, AckReply(w.server.value, w.queue[i].walk.packet.number, notoriety), i, 0);
    }
  }

  lemma SoundCancel(w: Walks, number: Byte, place: Place)
    requires Sound(w)
    ensures Sound(Cancel(w, number, place))
  {
    var w1 := Restarted(w).(place := place.(z := w.place.z));
    var i := Find(w.queue, number);
    if i < |w.queue| && w.server != None {
      SoundAnswered(w1, CancelReply(w.server.value, w.queue[i].walk.packet.number, place), i, 0);
    }
  }

  lemma SoundStep(w: Walks, e: Event)
    requires Sound(w)
    ensures Sound(Step(w, e))
  {
    match e
    case Requested(client, packet, reconnecting) => SoundRequest(w, client, packet, reconnecting);
    case Acked(number, notoriety) => SoundAck(w, number, notoriety);
    case Cancelled(number, place) => SoundCancel(w, number, place);
    case _ =>
  }

  /** In every run, replies go to the requester only, with its own number, and at
      most one to each walk. */
  lemma {:induction false} SoundRun(w: Walks, events: seq<Event>)
    requires Sound(w)
    ensures Sound(Run(w, events))
    decreases |events|
  {
    if events != [] {
      SoundStep(w, events[0]);
      SoundRun(Step(w, events[0]), events[1..]);
    }
  }

  // ---- Sequence numbers ----

  /** The number of the k-th walk after a reset. */
  function NumberOf(k: nat): Byte {
    if k == 0 then 0 else NextSeq(NumberOf(k - 1))
  }

  lemma Around255(n: nat)
    ensures (n + 1) % 255 == if n % 255 == 254 then 0 else n % 255 + 1
  {
  }

  lemma {:induction false} NumberIs(k: nat)
    ensures NumberOf(k) == if k == 0 then 0 else (k - 1) % 255 + 1
  {
    if k > 1 {
      NumberIs(k - 1);
      Around255(k - 2);
    }
  }

  /** Two walks have the same number exactly if neither is the first and their
      distance is a multiple of 255. */
  lemma SameNumber(j: nat, k: nat)
    requires j < k
    ensures NumberOf(j) == NumberOf(k) <==> j > 0 && (k - j) % 255 == 0
  {
    NumberIs(j);
    NumberIs(k);
  }

  /** Walks that are close to each other have different numbers. */
  lemma CloseNumbers(j: nat, k: nat)
    requires j < k < j + 255
    ensures NumberOf(j) != NumberOf(k)
  {
    SameNumber(j, k);
  }

  /** The numbers of the walks among the packets to the server. */
  function Numbers(sent: seq<ToServer>): seq<Byte> {
    if sent == [] then []
    else if sent[0].Forward? then [sent[0].packet.number] + Numbers(sent[1..])
    else Numbers(sent[1..])
  }

  lemma {:induction false} NumbersSnoc(sent: seq<ToServer>, x: ToServer)
    ensures Numbers(sent + [x]) == Numbers(sent) + if x.Forward? then [x.packet.number] else []
  {
    if sent != [] {
      NumbersSnoc(sent[1..], x);
      assert (sent + [x])[1..] == sent[1..] + [x];
    }
  }

  /** The numbers forwarded since the last reset. */
  function Since(w: Walks): seq<Byte> {
    if w.mark <= |w.toServer| then Numbers(w.toServer[w.mark..]) else []
  }

  /** Since the last reset, numbers were given in order. */
  ghost predicate Numbered(w: Walks) {
    && w.mark <= |w.toServer|
    && (forall k :: 0 <= k < |Since(w)| ==> Since(w)[k] == NumberOf(k))
    && w.seqNext == NumberOf(|Since(w)|)
  }

  lemma SinceSnoc(w: Walks, w': Walks, x: ToServer)
    requires w.mark <= |w.toServer| && w'.mark == w.mark && w'.toServer == w.toServer + [x]
    ensures Since(w') == Since(w) + if x.Forward? then [x.packet.number] else []
  {
    NumbersSnoc(w.toServer[w.mark..], x);
    assert w'.toServer[w.mark..] == w.toServer[w.mark..] + [x];
  }

  lemma NumberedRequest(w: Walks, client: nat, packet: WalkPacket, reconnecting: bool)
    requires Numbered(w)
    ensures Numbered(Request(w, client, packet, reconnecting))
  {
    var w' := Request(w, client, packet, reconnecting);
    if Rejects(w, client, reconnecting) {
      assert Since(w') == Since(w);
    } else {
      SinceSnoc(w, w', Forward(packet.(number := w.seqNext)));
    }
  }

  lemma NumberedAck(w: Walks, number: Byte, notoriety: Byte)
    requires Numbered(w)
    ensures Numbered(Ack(w, number, notoriety))
  {
    var w' := Ack(w, number, notoriety);
    if Find(w.queue, number) == |w.queue| {
      SinceSnoc(w, w', Resync);
    } else {
      assert Since(w') == Since(w);
    }
  }

  lemma NumberedRestart(w: Walks)
    requires w.mark == |w.toServer| && w.seqNext == 0
    ensures Numbered(w)
  {
    assert w.toServer[w.mark..] == [];
  }

  lemma NumberedStep(w: Walks, e: Event)
    requires Numbered(w)
    ensures Numbered(Step(w, e))
  {
    match e
    case Requested(client, packet, reconnecting) => NumberedRequest(w, client, packet, reconnecting);
    case Acked(number, notoriety) => NumberedAck(w, number, notoriety);
    case ClientLeft(client) => assert Since(Left(w, client)) == Since(w);
    case _ => NumberedRestart(Step(w, e));
  }

  /** In every run, the k-th walk that the server got after a reset has the number
      that follows from k. */
  lemma {:induction false} NumberedRun(w: Walks, events: seq<Event>)
    requires Numbered(w)
    ensures Numbered(Run(w, events))
    decreases |events|
  {
    if events != [] {
      NumberedStep(w, events[0]);
      NumberedRun(Step(w, events[0]), events[1..]);
    }
  }

  // ---- Numbers in the queue ----

  ghost predicate NumbersDiffer(queue: seq<Entry>) {
    forall i, j :: 0 <= i < j < |queue| ==> queue[i].number != queue[j].number
  }

  ghost predicate HasNumber(queue: seq<Entry>, number: Byte) {
    exists i :: 0 <= i < |queue| && queue[i].number == number
  }

  lemma DifferRequest(w: Walks, client: nat, packet: WalkPacket, reconnecting: bool)
    requires |w.queue| <= MAX_QUEUE && NumbersDiffer(w.queue)
    ensures NumbersDiffer(Request(w, client, packet, reconnecting).queue)
            <==> Rejects(w, client, reconnecting) || !HasNumber(MadeRoom(w, client).queue, w.seqNext)
  {
    if !Rejects(w, client, reconnecting) {
      var q := MadeRoom(w, client).queue;
      var e := Entry(|w.asked|, Asked(client, packet), w.seqNext);
      assert Request(w, client, packet, reconnecting).queue == q + [e];
      if |w.queue| >= MAX_QUEUE {
        Remaining(w.queue, 0);
      }
      assert NumbersDiffer(q);
      if HasNumber(q, w.seqNext) {
        var i :| 0 <= i < |q| && q[i].number == w.seqNext;
        assert (q + [e])[i].number == (q + [e])[|q|].number;
      }
    }
  }

  /** The exact condition: queued walks keep different numbers unless a request is
      forwarded under a number that is still queued. */
  lemma DifferStep(w: Walks, e: Event)
    requires |w.queue| <= MAX_QUEUE && NumbersDiffer(w.queue)
    ensures NumbersDiffer(Step(w, e).queue)
            <==> !(e.Requested? && !Rejects(w, e.client, e.reconnecting) && HasNumber(MadeRoom(w, e.client).queue, w.seqNext))
  {
    match e
    case Requested(client, packet, reconnecting) => DifferRequest(w, client, packet, reconnecting);
    case Acked(number, _) =>
      if Find(w.queue, number) < |w.queue| {
        Remaining(w.queue, Find(w.queue, number));
      }
    case _ =>
  }

  /** A resynchronization that a client asks for and a Start packet restart the
      numbers but keep the queue, and then that can happen with the next walk. */
  lemma RestartDuplicates(place: Place, client: nat, packet: WalkPacket, restart: Event)
    requires restart.ClientResync? || restart.Started?
    ensures var e := Requested(client, packet, false);
            var w := Run(Initial(place), [e, restart, e]);
            |w.queue| == 2 && w.queue[0].id != w.queue[1].id && w.queue[0].number == w.queue[1].number == 0
  {
    var e := Requested(client, packet, false);
    var w := Step(Initial(place), e);
    assert w.queue == [Entry(0, Asked(client, packet), 0)];
    assert [e, restart, e][1..] == [restart, e] && [restart, e][1..] == [e] && [e][1..] == [];
    assert Run(Step(w, restart), [e]) == Step(Step(w, restart), e);
  }
}
