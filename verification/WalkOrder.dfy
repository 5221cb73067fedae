/** The walk protocol together with a game server that replies in order: which
    walk an acknowledgement is given to. */
module WalkOrder {
  import opened Bits
  import opened Wrappers
  import opened Walk

  /** A forwarded walk, and how many had been forwarded before it since the numbers
      were last restarted. */
  datatype Sent = Sent(entry: Entry, k: nat)

  /** The protocol's state; the walks that the server has still to reply to and the
      ones that it has acknowledged; all forwarded walks, and how many of them since
      the numbers were last restarted; and how many acknowledgements were given to a
      client for another walk than the one that the server has acknowledged. */
  datatype System = System(
    w: Walks, pending: seq<Entry>, acked: set<nat>, sent: map<nat, Sent>, since: nat, wrong: nat)

  datatype Move =
    | Ask(client: nat, packet: WalkPacket, reconnecting: bool)
    | ServerAcks(notoriety: Byte)
    | ServerCancels(place: Place)
    | Leaves(client: nat)
    | ChoosesTarget
    | Resyncs
    | ServerStarts(place: Place)
    | LosesServer
    | ServerForgets(i: nat)

  /** The server replies to the oldest walk that it has still to reply to; when it
      cancels one, it forgets the later ones. It can forget any walk, and a new
      connection to it knows none; either leaves the proxy's queue as it is. */
  function Next(s: System, m: Move): System {
    match m
    case Ask(client, packet, reconnecting) => Asks(s, client, packet, reconnecting)
    case ServerAcks(notoriety) => if s.pending == [] then s else Acks(s, notoriety)
    case ServerCancels(place) =>
      if s.pending == [] then s else s.(w := Cancel(s.w, s.pending[0].number, place), pending := [], since := 0)
    case Leaves(client) => s.(w := Left(s.w, client))
    case ChoosesTarget => s.(w := Cleared(Restarted(s.w)), since := 0)
    case Resyncs => s.(w := Restarted(s.w), since := 0)
    case ServerStarts(place) => s.(w := Restarted(s.w).(place := place), since := 0)
    case LosesServer => s.(pending := [])
    case ServerForgets(i) => if i < |s.pending| then s.(pending := s.pending[..i] + s.pending[i + 1..]) else s
  }

  function Asks(s: System, client: nat, packet: WalkPacket, reconnecting: bool): System {
    var w := Request(s.w, client, packet, reconnecting);
    var e := Entry(|s.w.asked|, Asked(client, packet), s.w.seqNext);
    if Rejects(s.w, client, reconnecting) then s.(w := w)
    else s.(w := w, pending := s.pending + [e], sent := s.sent[e.id := Sent(e, s.since)], since := s.since + 1)
  }

  function Acks(s: System, notoriety: Byte): System
    requires s.pending != []
  {
    var id := s.pending[0].id;
    var w := Ack(s.w, s.pending[0].number, notoriety);
    s.(w := w, pending := s.pending[1..], acked := s.acked + {id}, wrong := s.wrong + GivenToOther(s.w, w, id))
  }

  /** The acknowledgement has just been given for another walk. */
  function GivenToOther(before: Walks, after: Walks, id: nat): nat {
    if |after.answered| == |before.answered| + 1 && after.answered[|before.answered|] != id then 1 else 0
  }

  function Play(s: System, moves: seq<Move>): System
    decreases |moves|
  {
    if moves == [] then s else Play(Next(s, moves[0]), moves[1..])
  }

  function Start(place: Place): System {
    System(Initial(place), [], {}, map[], 0, 0)
  }

  /** What a move is to the proxy, if it notices it at all. */
  function EventOf(s: System, m: Move): Option<Event> {
    match m
    case Ask(client, packet, reconnecting) => Some(Requested(client, packet, reconnecting))
    case ServerAcks(notoriety) => if s.pending == [] then None else Some(Acked(s.pending[0].number, notoriety))
    case ServerCancels(place) => if s.pending == [] then None else Some(Cancelled(s.pending[0].number, place))
    case Leaves(client) => Some(ClientLeft(client))
    case ChoosesTarget => Some(TargetChosen)
    case Resyncs => Some(ClientResync)
    case ServerStarts(place) => Some(Started(place))
    case _ => None
  }

  /** Every move is a step of the proxy or leaves it alone, and the server has to reply
      exactly to what was forwarded to it. */
  lemma NextIsStep(s: System, m: Move)
    ensures Next(s, m).w == if EventOf(s, m).Some? then Step(s.w, EventOf(s, m).value) else s.w
    ensures Next(s, m).acked == if m.ServerAcks? && s.pending != [] then s.acked + {s.pending[0].id} else s.acked
    ensures match m
            case Ask(client, packet, reconnecting) =>
              if Refused(s.w, EventOf(s, m).value) then Next(s, m).pending == s.pending
              else
                && |Next(s, m).w.queue| > 0 && |Next(s, m).w.toServer| == |s.w.toServer| + 1
                && (var e := Next(s, m).w.queue[|Next(s, m).w.queue| - 1];
                    && Next(s, m).pending == s.pending + [e]
                    && Next(s, m).w.toServer[|s.w.toServer|] == Forward(e.walk.packet.(number := e.number)))
            case ServerAcks(_) => s.pending != [] ==> Next(s, m).pending == s.pending[1..]
            case ServerCancels(_) => Next(s, m).pending == []
            case LosesServer => Next(s, m).pending == []
            case ServerForgets(_) => |Next(s, m).pending| <= |s.pending|
            case _ => Next(s, m).pending == s.pending
  {
    if m.Ask? && !Rejects(s.w, m.client, m.reconnecting) {
      QueueRequested(s.w, EventOf(s, m).value);
      ServerStep(s.w, EventOf(s, m).value);
    }
  }

  // ---- What holds in every run ----

  ghost predicate Increasing(entries: seq<Entry>) {
    forall i, j :: 0 <= i < j < |entries| ==> entries[i].id < entries[j].id
  }

  /** This walk was forwarded, with the number of its place. */
  ghost predicate Known(s: System, e: Entry) {
    e.id < |s.w.asked| && e.id in s.sent && s.sent[e.id].entry == e && e.number == NumberOf(s.sent[e.id].k)
  }

  /** Queued walks and those that the server has to reply to are in the order in
      which they were forwarded, and have the numbers of their places. */
  ghost predicate Tracked(s: System) {
    && |s.w.queue| <= MAX_QUEUE && s.w.seqNext == NumberOf(s.since)
    && Increasing(s.pending) && Increasing(s.w.queue)
    && (forall e :: e in s.w.queue ==> Known(s, e))
    && (forall e :: e in s.pending ==> Known(s, e) && e.id !in s.acked)
    && (forall a :: a in s.acked ==> a < |s.w.asked|)
  }

  lemma TrackedRejected(s: System, client: nat, packet: WalkPacket, reconnecting: bool)
    requires Tracked(s) && Rejects(s.w, client, reconnecting)
    ensures Tracked(Asks(s, client, packet, reconnecting))
  {
  }

  lemma RequestQueue(w: Walks, client: nat, packet: WalkPacket)
    requires |w.queue| <= MAX_QUEUE && !Rejects(w, client, false)
    ensures var w' := Request(w, client, packet, false);
            && w'.queue == w.queue[if |w.queue| < MAX_QUEUE then 0 else 1..] + [Entry(|w.asked|, Asked(client, packet), w.seqNext)]
            && w'.asked == w.asked + [Asked(client, packet)] && w'.seqNext == NextSeq(w.seqNext) && w'.server == Some(client)
  {
    assert w.queue[0..] == w.queue;
  }

  lemma IncreasingSnoc(entries: seq<Entry>, k: nat, e: Entry)
    requires Increasing(entries) && k <= |entries| && forall x :: x in entries ==> x.id < e.id
    ensures Increasing(entries[k..] + [e])
  {
    assert forall i :: k <= i < |entries| ==> entries[i] in entries;
  }

  /** Walks remain known when another one is forwarded. */
  lemma StillKnown(s: System, client: nat, packet: WalkPacket, x: Entry)
    requires Tracked(s) && !Rejects(s.w, client, false)
    requires x in Asks(s, client, packet, false).w.queue || x in Asks(s, client, packet, false).pending
    ensures Known(Asks(s, client, packet, false), x)
  {
    RequestQueue(s.w, client, packet);
    assert x in s.w.queue || x in s.pending ==> Known(s, x);
  }

  lemma TrackedForwarded(s: System, client: nat, packet: WalkPacket)
    requires Tracked(s) && !Rejects(s.w, client, false)
    ensures Tracked(Asks(s, client, packet, false))
  {
    var e := Entry(|s.w.asked|, Asked(client, packet), s.w.seqNext);
    var s' := Asks(s, client, packet, false);
    RequestQueue(s.w, client, packet);
    OrderForwarded(s, e, if |s.w.queue| < MAX_QUEUE then 0 else 1);
    forall x | x in s'.w.queue || x in s'.pending ensures Known(s', x) {
      StillKnown(s, client, packet, x);
    }
  }

  lemma OrderForwarded(s: System, e: Entry, k: nat)
    requires Tracked(s) && e.id == |s.w.asked| && k <= |s.w.queue|
    ensures Increasing(s.pending + [e]) && Increasing(s.w.queue[k..] + [e])
  {
    assert s.pending[0..] == s.pending;
    assert forall x :: x in s.pending || x in s.w.queue ==> Known(s, x);
    IncreasingSnoc(s.pending, 0, e);
    IncreasingSnoc(s.w.queue, k, e);
  }

  lemma TrackedAsks(s: System, client: nat, packet: WalkPacket, reconnecting: bool)
    requires Tracked(s)
    ensures Tracked(Asks(s, client, packet, reconnecting))
  {
    if Rejects(s.w, client, reconnecting) {
      TrackedRejected(s, client, packet, reconnecting);
    } else {
      TrackedForwarded(s, client, packet);
    }
  }

  lemma AckFound(w: Walks, number: Byte, notoriety: Byte)
    requires Find(w.queue, number) < |w.queue|
    ensures var i, w' := Find(w.queue, number), Ack(w, number, notoriety);
            && w'.queue == w.queue[..i] + w.queue[i + 1..] && w'.seqNext == w.seqNext
            && w'.asked == w.asked
            && w'.answered == w.answered + (if w.server == None then [] else [w.queue[i].id])
            && w'.replies == w.replies
               + (if w.server == None then [] else [AckReply(w.server.value, w.queue[i].walk.packet.number, notoriety)])
  {
  }

  lemma AckMissed(w: Walks, number: Byte, notoriety: Byte)
    requires Find(w.queue, number) == |w.queue|
    ensures var w' := Ack(w, number, notoriety);
            && w'.queue == [] && w'.asked == w.asked && w'.seqNext == w.seqNext
            && w'.answered == w.answered && w'.replies == w.replies
  {
  }

  lemma IncreasingWithout(entries: seq<Entry>, i: nat)
    requires Increasing(entries) && i < |entries|
    ensures Increasing(entries[..i] + entries[i + 1..])
    ensures forall e :: e in entries[..i] + entries[i + 1..] ==> e in entries && e != entries[i]
  {
    Remaining(entries, i);
  }

  /** What an acknowledgement leaves. */
  lemma AckLeaves(w: Walks, number: Byte, notoriety: Byte)
    requires Increasing(w.queue)
    ensures var w' := Ack(w, number, notoriety);
            && Increasing(w'.queue) && |w'.queue| <= |w.queue| && (forall e :: e in w'.queue ==> e in w.queue)
            && w'.asked == w.asked && w'.seqNext == w.seqNext
  {
    var i := Find(w.queue, number);
    if i < |w.queue| {
      AckFound(w, number, notoriety);
      IncreasingWithout(w.queue, i);
    } else {
      AckMissed(w, number, notoriety);
    }
  }

  /** The server has one walk less to reply to. */
  lemma PendingWithout(s: System, i: nat)
    requires Tracked(s) && i < |s.pending|
    ensures var rest := s.pending[..i] + s.pending[i + 1..];
            Increasing(rest) && forall e :: e in rest ==> e in s.pending && e.id != s.pending[i].id
  {
    IncreasingWithout(s.pending, i);
    Remaining(s.pending, i);
    var rest := s.pending[..i] + s.pending[i + 1..];
    forall e | e in rest ensures e.id != s.pending[i].id {
      var k :| 0 <= k < |rest| && rest[k] == e;
    }
  }

  lemma TrackedAcks(s: System, notoriety: Byte)
    requires Tracked(s) && s.pending != []
    ensures Tracked(Acks(s, notoriety))
  {
    PendingWithout(s, 0);
    assert s.pending[..0] + s.pending[1..] == s.pending[1..];
    AckLeaves(s.w, s.pending[0].number, notoriety);
  }

  lemma TrackedForgets(s: System, i: nat)
    requires Tracked(s)
    ensures Tracked(Next(s, ServerForgets(i)))
  {
    if i < |s.pending| {
      PendingWithout(s, i);
    }
  }

  lemma TrackedStep(s: System, m: Move)
    requires Tracked(s)
    ensures Tracked(Next(s, m))
  {
    match m
    case Ask(client, packet, reconnecting) => TrackedAsks(s, client, packet, reconnecting);
    case ServerAcks(notoriety) =>
      if s.pending != [] {
        TrackedAcks(s, notoriety);
      }
    case ServerForgets(i) => TrackedForgets(s, i);
    case _ =>
  }

  // ---- When an acknowledgement is given to the right walk ----

  /** Numbers repeat after this many walks. */
  ghost predicate Period(d: nat) {
    d % 255 == 0
  }

  /** Walks forwarded at these points have the same number: equally long after a
      restart, or a multiple of 255 apart, where the first walk after a restart
      stands alone. */
  ghost predicate Alike(a: nat, b: nat) {
    a == b || (a > 0 && b > 0 && Period(if a < b then b - a else a - b))
  }

  lemma AlikeMeans(a: nat, b: nat)
    ensures Alike(a, b) <==> NumberOf(a) == NumberOf(b)
  {
    if a < b {
      SameNumber(a, b);
    } else if b < a {
      SameNumber(b, a);
    }
  }

  /** The walk found for the reply is the one that the server replied to. */
  ghost predicate RightWalk(s: System) {
    s.pending != [] ==>
      (var i := Find(s.w.queue, s.pending[0].number);
       i < |s.w.queue| ==> s.w.queue[i] == s.pending[0])
  }

  ghost function PlaceOf(s: System, e: Entry): nat {
    if e.id in s.sent then s.sent[e.id].k else 0
  }

  /** Some queued walk is not the one that the server has to reply to next, and not
      behind it in the queue, and was forwarded at a place with the same number. */
  ghost predicate CollidesAt(s: System, j: nat)
    requires s.pending != [] && j < |s.w.queue|
  {
    && s.w.queue[j] != s.pending[0] && s.pending[0] !in s.w.queue[..j]
    && Alike(PlaceOf(s, s.pending[0]), PlaceOf(s, s.w.queue[j]))
  }

  ghost predicate Collides(s: System) {
    s.pending != [] && exists j :: 0 <= j < |s.w.queue| && CollidesAt(s, j)
  }

  lemma SameNumberAs(s: System, j: nat)
    requires Tracked(s) && s.pending != [] && j < |s.w.queue|
    ensures s.w.queue[j].number == s.pending[0].number <==> Alike(PlaceOf(s, s.pending[0]), PlaceOf(s, s.w.queue[j]))
  {
    assert s.w.queue[j] in s.w.queue && s.pending[0] in s.pending;
    assert Known(s, s.w.queue[j]) && Known(s, s.pending[0]);
    AlikeMeans(PlaceOf(s, s.pending[0]), PlaceOf(s, s.w.queue[j]));
  }

  lemma FoundCollides(s: System)
    requires Tracked(s) && !RightWalk(s)
    ensures Collides(s)
  {
    var i := Find(s.w.queue, s.pending[0].number);
    SameNumberAs(s, i);
    assert CollidesAt(s, i);
  }

  lemma CollidesIsWrong(s: System)
    requires Tracked(s) && Collides(s)
    ensures Find(s.w.queue, s.pending[0].number) < |s.w.queue| && !RightWalk(s)
  {
    var j :| 0 <= j < |s.w.queue| && CollidesAt(s, j);
    SameNumberAs(s, j);
    var i := Find(s.w.queue, s.pending[0].number);
    assert i < j ==> s.w.queue[i] in s.w.queue[..j];
  }

  /** In every state that a run can reach, the right walk is found if and only if
      there is no collision. */
  lemma RightUnlessCollides(s: System)
    requires Tracked(s)
    ensures RightWalk(s) <==> !Collides(s)
  {
    if !RightWalk(s) {
      FoundCollides(s);
    } else if Collides(s) {
      CollidesIsWrong(s);
    }
  }

  /** A client is told wrongly by this move. */
  ghost predicate Misleads(s: System, m: Move) {
    m.ServerAcks? && Collides(s) && s.w.server != None
  }

  /** What is found instead has another id. */
  lemma OtherId(s: System, j: nat)
    requires Tracked(s) && s.pending != [] && j < |s.w.queue| && s.w.queue[j] != s.pending[0]
    ensures s.w.queue[j].id != s.pending[0].id
  {
    assert s.w.queue[j] in s.w.queue && s.pending[0] in s.pending;
    assert Known(s, s.w.queue[j]) && Known(s, s.pending[0]);
  }

  lemma WrongAck(s: System, notoriety: Byte)
    requires Tracked(s) && s.pending != []
    ensures Acks(s, notoriety).wrong == s.wrong + if Collides(s) && s.w.server != None then 1 else 0
  {
    var number := s.pending[0].number;
    var i := Find(s.w.queue, number);
    RightUnlessCollides(s);
    if i < |s.w.queue| {
      AckFound(s.w, number, notoriety);
      if s.w.queue[i] != s.pending[0] {
        OtherId(s, i);
      }
    } else {
      AckMissed(s.w, number, notoriety);
    }
  }

  /** The exact condition, for every move. */
  lemma WrongStep(s: System, m: Move)
    requires Tracked(s)
    ensures Next(s, m).wrong == s.wrong + if Misleads(s, m) then 1 else 0
  {
    if m.ServerAcks? && s.pending != [] {
      WrongAck(s, m.notoriety);
    }
  }

  /** How often a client is told wrongly in a run. */
  ghost function Misleading(s: System, moves: seq<Move>): nat
    decreases |moves|
  {
    if moves == [] then 0
    else (if Misleads(s, moves[0]) then 1 else 0) + Misleading(Next(s, moves[0]), moves[1..])
  }

  /** From every such state on, whatever clients do and whether or not the server
      replies, acknowledgements are given for another walk exactly as often as they
      meet a collision. */
  lemma {:induction false} WrongRun(s: System, moves: seq<Move>)
    requires Tracked(s)
    ensures Tracked(Play(s, moves)) && Play(s, moves).wrong == s.wrong + Misleading(s, moves)
    decreases |moves|
  {
    if moves != [] {
      TrackedStep(s, moves[0]);
      WrongStep(s, moves[0]);
      WrongRun(Next(s, moves[0]), moves[1..]);
    }
  }

  // ---- What clients are told ----

  /** A client is told that it has walked only if the server has acknowledged that
      very walk. */
  ghost predicate Truthful(s: System) {
    && |s.w.answered| == |s.w.replies|
    && (forall k :: 0 <= k < |s.w.replies| && s.w.replies[k].AckReply? ==> s.w.answered[k] in s.acked)
  }

  /** Unless the requester has left, no queued walk was acknowledged. */
  ghost predicate Open(s: System) {
    s.w.server != None ==> forall e :: e in s.w.queue ==> e.id !in s.acked
  }

  lemma TrueAck(s: System, notoriety: Byte)
    requires Tracked(s) && s.pending != [] && Truthful(s) && Open(s) && !(Collides(s) && s.w.server != None)
    ensures Truthful(Acks(s, notoriety)) && Open(Acks(s, notoriety))
  {
    RightUnlessCollides(s);
    var number := s.pending[0].number;
    var i := Find(s.w.queue, number);
    if i < |s.w.queue| {
      AckFound(s.w, number, notoriety);
      OpenWithout(s, i);
    } else {
      AckMissed(s.w, number, notoriety);
    }
  }

  lemma OpenWithout(s: System, i: nat)
    requires Increasing(s.w.queue) && i < |s.w.queue|
    ensures forall e :: e in s.w.queue[..i] + s.w.queue[i + 1..] ==> e in s.w.queue && e.id != s.w.queue[i].id
  {
    Remaining(s.w.queue, i);
    var rest := s.w.queue[..i] + s.w.queue[i + 1..];
    forall e | e in rest ensures e in s.w.queue && e.id != s.w.queue[i].id {
      var k :| 0 <= k < |rest| && rest[k] == e;
    }
  }

  lemma UntrueAck(s: System, notoriety: Byte)
    requires Tracked(s) && Truthful(s) && Open(s) && Collides(s) && s.w.server != None
    ensures !Truthful(Acks(s, notoriety))
  {
    CollidesIsWrong(s);
    var number := s.pending[0].number;
    var i := Find(s.w.queue, number);
    AckFound(s.w, number, notoriety);
    OtherId(s, i);
    var s', k := Acks(s, notoriety), |s.w.replies|;
    assert s.w.queue[i] in s.w.queue;
    assert s'.w.replies[k].AckReply? && s'.w.answered[k] == s.w.queue[i].id;
  }

  lemma TrueAsks(s: System, client: nat, packet: WalkPacket, reconnecting: bool)
    requires Tracked(s) && Truthful(s) && Open(s)
    ensures Truthful(Asks(s, client, packet, reconnecting)) && Open(Asks(s, client, packet, reconnecting))
  {
    if !Rejects(s.w, client, reconnecting) {
      RequestQueue(s.w, client, packet);
    }
  }

  /** The exact condition: what clients are told stays true unless an
      acknowledgement meets a collision. */
  lemma TruthfulStep(s: System, m: Move)
    requires Tracked(s) && Truthful(s) && Open(s)
    ensures Truthful(Next(s, m)) <==> !Misleads(s, m)
    ensures Truthful(Next(s, m)) ==> Open(Next(s, m))
  {
    match m
    case Ask(client, packet, reconnecting) => TrueAsks(s, client, packet, reconnecting);
    case ServerAcks(notoriety) =>
      if Misleads(s, m) {
        UntrueAck(s, notoriety);
      } else if s.pending != [] {
        TrueAck(s, notoriety);
      }
    case _ =>
  }

  /** In all states of a run, clients have been told the truth. */
  ghost predicate AlwaysTruthful(s: System, moves: seq<Move>)
    decreases |moves|
  {
    Truthful(s) && (moves != [] ==> AlwaysTruthful(Next(s, moves[0]), moves[1..]))
  }

  /** So they are in a whole run, if and only if there is no such acknowledgement. */
  lemma {:induction false} TruthfulRun(s: System, moves: seq<Move>)
    requires Tracked(s) && Truthful(s) && Open(s)
    ensures AlwaysTruthful(s, moves) <==> Misleading(s, moves) == 0
    decreases |moves|
  {
    if moves != [] {
      var s' := Next(s, moves[0]);
      TrackedStep(s, moves[0]);
      TruthfulStep(s, moves[0]);
      if Truthful(s') {
        TruthfulRun(s', moves[1..]);
      } else {
        assert !AlwaysTruthful(s', moves[1..]);
      }
    }
  }

  lemma StartIsSound(place: Place)
    ensures Tracked(Start(place)) && Truthful(Start(place)) && Open(Start(place)) && Start(place).wrong == 0
  {
  }

  /** In every run of the protocol, the wrong acknowledgements are counted by the
      collisions, and clients are always told the truth if and only if there are
      none. */
  lemma EveryRun(place: Place, moves: seq<Move>)
    ensures Play(Start(place), moves).wrong == Misleading(Start(place), moves)
    ensures AlwaysTruthful(Start(place), moves) <==> Misleading(Start(place), moves) == 0
  {
    StartIsSound(place);
    WrongRun(Start(place), moves);
    TruthfulRun(Start(place), moves);
  }

  // ---- A server that keeps up ----

  /** All walks that the server has to reply to were forwarded one after the other
      since the last restart, and it has to reply to all that are queued. */
  ghost predicate Contiguous(s: System) {
    && |s.pending| <= s.since
    && (forall i :: 0 <= i < |s.pending| ==> PlaceOf(s, s.pending[i]) == s.since - |s.pending| + i)
    && (forall e :: e in s.w.queue ==> e in s.pending)
  }

  /** The numbers are restarted without the server's knowledge. */
  predicate Restarts(m: Move) {
    m.ChoosesTarget? || m.Resyncs? || m.ServerStarts?
  }

  /** The server never has more than 255 walks to reply to and replies to each; what
      restarts the numbers without its knowledge happens only when it has none, and
      the connection to it is lost only when none is queued. */
  ghost predicate Careful(s: System, moves: seq<Move>)
    decreases |moves|
  {
    && |s.pending| <= 255
    && (moves != [] ==>
          && (Restarts(moves[0]) ==> s.pending == []) && (moves[0].LosesServer? ==> s.w.queue == [])
          && !moves[0].ServerForgets?
          && Careful(Next(s, moves[0]), moves[1..]))
  }

  lemma ContiguousApart(s: System, i: nat, j: nat)
    requires Tracked(s) && Contiguous(s) && i < j < |s.pending| <= 255
    ensures s.pending[i].number != s.pending[j].number && !Alike(PlaceOf(s, s.pending[i]), PlaceOf(s, s.pending[j]))
  {
    var k := s.since - |s.pending|;
    CloseNumbers(k + i, k + j);
    assert Known(s, s.pending[i]) && Known(s, s.pending[j]);
    AlikeMeans(k + i, k + j);
  }

  lemma CarefulIsRight(s: System)
    requires Tracked(s) && Contiguous(s) && |s.pending| <= 255
    ensures !Collides(s)
  {
    if Collides(s) {
      var j :| 0 <= j < |s.w.queue| && CollidesAt(s, j);
      assert s.w.queue[j] in s.w.queue;
      var i :| 0 <= i < |s.pending| && s.pending[i] == s.w.queue[j];
      ContiguousApart(s, 0, i);
      assert false;
    }
  }

  /** Queued walks have different numbers. */
  lemma NumbersDistinct(s: System)
    requires Tracked(s) && Contiguous(s) && |s.pending| <= 255
    ensures forall i, j :: 0 <= i < j < |s.w.queue| ==> s.w.queue[i].number != s.w.queue[j].number
  {
    forall i, j | 0 <= i < j < |s.w.queue| ensures s.w.queue[i].number != s.w.queue[j].number {
      assert s.w.queue[i] in s.w.queue && s.w.queue[j] in s.w.queue;
      var a :| 0 <= a < |s.pending| && s.pending[a] == s.w.queue[i];
      var b :| 0 <= b < |s.pending| && s.pending[b] == s.w.queue[j];
      assert s.w.queue[i].id < s.w.queue[j].id;
      ContiguousApart(s, if a < b then a else b, if a < b then b else a);
    }
  }

  lemma ContiguousAsks(s: System, client: nat, packet: WalkPacket, reconnecting: bool)
    requires Tracked(s) && Contiguous(s)
    ensures Contiguous(Asks(s, client, packet, reconnecting))
  {
    var s' := Asks(s, client, packet, reconnecting);
    if !Rejects(s.w, client, reconnecting) {
      RequestQueue(s.w, client, packet);
      forall i | 0 <= i < |s.pending| ensures PlaceOf(s', s'.pending[i]) == PlaceOf(s, s.pending[i]) {
        assert s.pending[i] in s.pending && Known(s, s.pending[i]);
      }
    }
  }

  /** With the right walk found, the one that the server has replied to is gone. */
  lemma RightIsRemoved(s: System, notoriety: Byte)
    requires Tracked(s) && s.pending != [] && RightWalk(s)
    ensures forall e :: e in Acks(s, notoriety).w.queue ==> e in s.w.queue && e != s.pending[0]
  {
    var number := s.pending[0].number;
    var i := Find(s.w.queue, number);
    if i < |s.w.queue| {
      AckFound(s.w, number, notoriety);
      IncreasingWithout(s.w.queue, i);
    } else {
      AckMissed(s.w, number, notoriety);
    }
  }

  lemma ContiguousAcks(s: System, notoriety: Byte)
    requires Tracked(s) && Contiguous(s) && s.pending != [] && RightWalk(s)
    ensures Contiguous(Acks(s, notoriety))
  {
    var s' := Acks(s, notoriety);
    AckLeaves(s.w, s.pending[0].number, notoriety);
    RightIsRemoved(s, notoriety);
    assert forall i :: 0 <= i < |s'.pending| ==> PlaceOf(s', s'.pending[i]) == PlaceOf(s, s.pending[i + 1]);
    forall e | e in s'.w.queue ensures e in s'.pending {
      var j :| 0 <= j < |s.pending| && s.pending[j] == e;
      assert s'.pending[j - 1] == e;
    }
  }

  lemma NothingQueued(s: System)
    requires Contiguous(s) && s.pending == []
    ensures s.w.queue == []
  {
    SomeMember(s.w.queue);
  }

  lemma SomeMember(queue: seq<Entry>)
    ensures queue == [] || exists e :: e in queue
  {
    if queue != [] {
      assert queue[0] in queue;
    }
  }

  lemma ContiguousStep(s: System, m: Move)
    requires Tracked(s) && Contiguous(s) && |s.pending| <= 255 && !m.ServerForgets?
    requires (Restarts(m) ==> s.pending == []) && (m.LosesServer? ==> s.w.queue == [])
    ensures Contiguous(Next(s, m))
  {
    match m
    case Ask(client, packet, reconnecting) => ContiguousAsks(s, client, packet, reconnecting);
    case ServerAcks(notoriety) =>
      if s.pending != [] {
        CarefulIsRight(s);
        RightUnlessCollides(s);
        ContiguousAcks(s, notoriety);
      }
    case _ =>
  }

  /** With a server that replies to all walks in order and keeps up, and no restart
      or new connection behind its back, all acknowledgements are true, and queued
      walks can be told apart by their numbers. */
  lemma {:induction false} CarefulRun(s: System, moves: seq<Move>)
    requires Tracked(s) && Contiguous(s) && Careful(s, moves)
    ensures var s' := Play(s, moves);
            && Misleading(s, moves) == 0 && Contiguous(s')
            && (forall i, j :: 0 <= i < j < |s'.w.queue| ==> s'.w.queue[i].number != s'.w.queue[j].number)
    decreases |moves|
  {
    if moves == [] {
      NumbersDistinct(s);
    } else {
      CarefulIsRight(s);
      TrackedStep(s, moves[0]);
      ContiguousStep(s, moves[0]);
      CarefulRun(Next(s, moves[0]), moves[1..]);
    }
  }

  // ---- Runs in which a client is told wrongly ----

  lemma PlayCons(s: System, m: Move, moves: seq<Move>)
    ensures Play(s, [m] + moves) == Play(Next(s, m), moves)
  {
    assert ([m] + moves)[1..] == moves;
  }

  /** The only walk so far, or one of the first two, is numbered zero. */
  ghost function Zero(id: nat, client: nat, packet: WalkPacket): Entry {
    Entry(id, Asked(client, packet), 0)
  }

  lemma FirstWalk(place: Place, client: nat, packet: WalkPacket)
    ensures var s := Next(Start(place), Ask(client, packet, false));
            var e := Zero(0, client, packet);
            && s.pending == [e] && s.w.queue == [e] && s.w.server == Some(client) && s.sent == map[0 := Sent(e, 0)]
            && |s.w.asked| == 1 && s.acked == {} && s.w.answered == [] && s.w.replies == []
  {
  }

  /** The second walk after a restart that is the first one's. */
  lemma SecondWalk(s: System, client: nat, packet: WalkPacket)
    requires |s.w.asked| == 1 && s.sent == map[0 := Sent(Zero(0, client, packet), 0)]
    requires s.w.seqNext == 0 && s.since == 0
    requires |s.w.queue| <= 1 && (s.w.queue == [] || s.w.server == Some(client))
    ensures var s' := Next(s, Ask(client, packet, false));
            var e, f := Zero(0, client, packet), Zero(1, client, packet);
            && s'.pending == s.pending + [f] && s'.w.queue == s.w.queue + [f] && s'.w.server == Some(client)
            && PlaceOf(s', e) == PlaceOf(s', f) == 0
            && s'.acked == s.acked && s'.w.answered == s.w.answered && s'.w.replies == s.w.replies
  {
  }

  /** An acknowledgement that finds another walk first in the queue. */
  lemma MisledFirst(s: System, notoriety: Byte)
    requires s.pending != [] && s.w.queue != [] && s.w.server != None
    requires s.w.queue[0].id != s.pending[0].id && s.w.queue[0].number == s.pending[0].number
    requires s.acked == {} && s.w.answered == [] && s.w.replies == []
    requires PlaceOf(s, s.pending[0]) == PlaceOf(s, s.w.queue[0])
    ensures Misleads(s, ServerAcks(notoriety)) && !Truthful(Next(s, ServerAcks(notoriety)))
  {
    assert CollidesAt(s, 0);
    AckFound(s.w, s.pending[0].number, notoriety);
    var s' := Next(s, ServerAcks(notoriety));
    assert s'.w.answered == [s.w.queue[0].id] && s'.acked == {s.pending[0].id} && s'.w.replies[0].AckReply?;
  }

  lemma PlayThree(s: System, a: Move, b: Move, c: Move)
    ensures Play(s, [a, b, c]) == Next(Next(Next(s, a), b), c)
  {
    assert [a, b, c] == [a] + ([b] + ([c] + []));
    PlayCons(s, a, [b] + ([c] + []));
    PlayCons(Next(s, a), b, [c] + []);
    PlayCons(Next(Next(s, a), b), c, []);
  }

  lemma PlayFour(s: System, a: Move, b: Move, c: Move, d: Move)
    ensures Play(s, [a, b, c, d]) == Next(Next(Next(Next(s, a), b), c), d)
  {
    assert [a, b, c, d] == [a] + [b, c, d];
    PlayCons(s, a, [b, c, d]);
    PlayThree(Next(s, a), b, c, d);
  }

  /** Two walks are enough when a target is chosen between them: the
      acknowledgement of the first one is given to the client for the second. */
  lemma TargetTooSoon(place: Place, client: nat, packet: WalkPacket, notoriety: Byte)
    ensures var ask := Ask(client, packet, false);
            var s := Play(Start(place), [ask, ChoosesTarget, ask]);
            |s.pending| == 2 && Misleads(s, ServerAcks(notoriety)) && !Truthful(Next(s, ServerAcks(notoriety)))
  {
    var ask := Ask(client, packet, false);
    var s1 := Next(Start(place), ask);
    FirstWalk(place, client, packet);
    var s2 := Next(s1, ChoosesTarget);
    SecondWalk(s2, client, packet);
    PlayThree(Start(place), ask, ChoosesTarget, ask);
    MisledFirst(Next(s2, ask), notoriety);
  }

  /** So are two walks with a new connection to the server between them: the
      acknowledgement of the second one is given to the client for the first, which
      the new server has never seen, although there is never more than one walk to
      reply to. */
  lemma NewServer(place: Place, client: nat, packet: WalkPacket, notoriety: Byte)
    ensures var ask := Ask(client, packet, false);
            var s := Play(Start(place), [ask, LosesServer, ServerStarts(place), ask]);
            && |s.pending| == 1 && s.pending[0] in s.w.queue
            && Misleads(s, ServerAcks(notoriety)) && !Truthful(Next(s, ServerAcks(notoriety)))
  {
    var ask := Ask(client, packet, false);
    var s1 := Next(Start(place), ask);
    FirstWalk(place, client, packet);
    var s3 := Next(Next(s1, LosesServer), ServerStarts(place));
    SecondWalk(s3, client, packet);
    PlayFour(Start(place), ask, LosesServer, ServerStarts(place), ask);
    MisledFirst(Next(s3, ask), notoriety);
  }

  /** The queue holds the last of the walks that wait for the server. */
  ghost predicate Suffix(s: System) {
    |s.w.queue| <= |s.pending| && s.w.queue == s.pending[|s.pending| - |s.w.queue|..]
  }

  lemma SuffixSnoc(a: seq<Entry>, b: seq<Entry>, x: Entry, k: nat)
    requires |a| <= |b| && a == b[|b| - |a|..] && k <= |a|
    ensures var a', b' := a[k..] + [x], b + [x]; a' == b'[|b'| - |a'|..]
  {
  }

  lemma AskOne(s: System, client: nat, packet: WalkPacket)
    requires Tracked(s) && Contiguous(s) && Suffix(s) && (s.w.queue == [] || s.w.server == Some(client))
    ensures var s' := Next(s, Ask(client, packet, false));
            && Tracked(s') && Contiguous(s') && Suffix(s') && |s'.pending| == |s.pending| + 1
            && s'.since == s.since + 1 && s'.w.queue != [] && s'.w.server == Some(client)
  {
    TrackedForwarded(s, client, packet);
    ContiguousAsks(s, client, packet, false);
    RequestQueue(s.w, client, packet);
    SuffixAsks(s, client, packet);
  }

  lemma SuffixAsks(s: System, client: nat, packet: WalkPacket)
    requires Suffix(s) && |s.w.queue| <= MAX_QUEUE && !Rejects(s.w, client, false)
    ensures Suffix(Next(s, Ask(client, packet, false)))
  {
    RequestQueue(s.w, client, packet);
    SuffixSnoc(s.w.queue, s.pending, Entry(|s.w.asked|, Asked(client, packet), s.w.seqNext), if |s.w.queue| < MAX_QUEUE then 0 else 1);
  }

  datatype Tally = Tally(waiting: nat, since: nat)

  /** If a client asks and the server is silent: how many walks wait for a reply, and
      how many were forwarded since the last restart. */
  ghost function Silence(s: System, client: nat): Option<Tally> {
    if && Tracked(s) && Contiguous(s) && Suffix(s) && (s.w.queue == [] || s.w.server == Some(client))
       && (s.pending != [] ==> s.w.queue != [])
    then Some(Tally(|s.pending|, s.since)) else None
  }

  lemma AskSilent(s: System, client: nat, packet: WalkPacket, waiting: nat, since: nat)
    requires Silence(s, client) == Some(Tally(waiting, since))
    ensures Silence(Next(s, Ask(client, packet, false)), client) == Some(Tally(waiting + 1, since + 1))
  {
    AskOne(s, client, packet);
  }

  lemma AckSilent(s: System, client: nat, notoriety: Byte, since: nat)
    requires Silence(s, client) == Some(Tally(1, since))
    ensures Silence(Next(s, ServerAcks(notoriety)), client) == Some(Tally(0, since))
  {
    FirstAck(s, notoriety);
  }

  lemma {:induction false} PlaySnoc(s: System, moves: seq<Move>, m: Move)
    ensures Play(s, moves + [m]) == Next(Play(s, moves), m)
    decreases |moves|
  {
    if moves != [] {
      assert (moves + [m])[1..] == moves[1..] + [m];
      PlaySnoc(Next(s, moves[0]), moves[1..], m);
    }
  }

  lemma AskOnce(start: System, moves: seq<Move>, client: nat, packet: WalkPacket, waiting: nat, since: nat) returns (moves': seq<Move>)
    requires Silence(Play(start, moves), client) == Some(Tally(waiting, since))
    ensures |moves'| == |moves| + 1 && Silence(Play(start, moves'), client) == Some(Tally(waiting + 1, since + 1))
  {
    AskSilent(Play(start, moves), client, packet, waiting, since);
    PlaySnoc(start, moves, Ask(client, packet, false));
    moves' := moves + [Ask(client, packet, false)];
  }

  lemma AckOnce(start: System, moves: seq<Move>, client: nat, notoriety: Byte, since: nat) returns (moves': seq<Move>)
    requires Silence(Play(start, moves), client) == Some(Tally(1, since))
    ensures |moves'| == |moves| + 1 && Silence(Play(start, moves'), client) == Some(Tally(0, since))
  {
    AckSilent(Play(start, moves), client, notoriety, since);
    PlaySnoc(start, moves, ServerAcks(notoriety));
    moves' := moves + [ServerAcks(notoriety)];
  }

  /** One walk is acknowledged, and n are not. */
  lemma Unanswered(start: System, client: nat, packet: WalkPacket, notoriety: Byte, n: nat) returns (moves: seq<Move>)
    requires Silence(start, client) == Some(Tally(0, 0))
    ensures |moves| == n + 2 && Silence(Play(start, moves), client) == Some(Tally(n, n + 1))
  {
    moves := AskOnce(start, [], client, packet, 0, 0);
    moves := AckOnce(start, moves, client, notoriety, 1);
    for k := 0 to n
      invariant |moves| == k + 2 && Silence(Play(start, moves), client) == Some(Tally(k, k + 1))
    {
      moves := AskOnce(start, moves, client, packet, k, k + 1);
    }
  }

  lemma StartSilent(place: Place, client: nat)
    ensures Silence(Start(place), client) == Some(Tally(0, 0))
  {
  }

  /** So are 256 walks without a reply, once one was acknowledged. */
  lemma LateServer(place: Place, client: nat, packet: WalkPacket, notoriety: Byte)
    ensures exists moves ::
              && |moves| == 258 && |Play(Start(place), moves).pending| == 256
              && Misleads(Play(Start(place), moves), ServerAcks(notoriety))
  {
    StartSilent(place, client);
    var moves := Unanswered(Start(place), client, packet, notoriety, 256);
    LateAck(Play(Start(place), moves), client, notoriety);
  }

  lemma FirstAck(s: System, notoriety: Byte)
    requires Tracked(s) && Contiguous(s) && |s.pending| == 1
    ensures var s' := Next(s, ServerAcks(notoriety));
            Tracked(s') && Contiguous(s') && s'.pending == [] && s'.w.queue == [] && s'.since == s.since
  {
    TrackedAcks(s, notoriety);
    ContiguousStep(s, ServerAcks(notoriety));
    AckLeaves(s.w, s.pending[0].number, notoriety);
    NothingQueued(Acks(s, notoriety));
  }

  lemma LateAck(s: System, client: nat, notoriety: Byte)
    requires Silence(s, client) == Some(Tally(256, 257))
    ensures |s.pending| == 256 && Misleads(s, ServerAcks(notoriety))
  {
    LateCollides(s);
  }

  lemma LateCollides(s: System)
    requires Tracked(s) && Contiguous(s) && Suffix(s)
    requires |s.pending| == 256 && s.since == 257 && s.w.queue != []
    ensures Collides(s)
  {
    var last := |s.w.queue| - 1;
    assert s.w.queue[last] == s.pending[255];
    assert PlaceOf(s, s.pending[0]) == 1 && PlaceOf(s, s.pending[255]) == 256;
    assert Period(255);
    assert forall j :: 0 <= j < |s.w.queue| ==> s.w.queue[j] == s.pending[256 - |s.w.queue| + j];
    assert forall j :: 1 <= j < 256 ==> s.pending[0].id < s.pending[j].id;
    assert CollidesAt(s, last);
  }
}
