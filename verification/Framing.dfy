/** Packet lengths and the framing loop (src/uo/Length.cxx,
    src/ParsePackets.cxx). The framing properties hold for every length table,
    so they do not depend on the protocol version. */
module Framing {
  import opened Bits
  import opened Seqs

  // ---- Length tables ----

  datatype ProtocolVersion = UNKNOWN | V5 | V6 | V6_0_5 | V6_0_14 | V7

  /** 0 marks a packet that carries its length, 0xffff an unknown command. */
  type Lengths = l: seq<nat> | |l| == 0x100 witness seq(0x100, _ => 0)

  /** The lengths of the commands 8 r to 8 r + 7. */
  function LengthRow(r: nat): (row: seq<nat>)
    ensures |row| == 8
  {
    match r
    case 0 => [0x68, 0x5, 0x7, 0x0, 0x2, 0x5, 0x5, 0x7]
    case 1 => [0xe, 0x5, 0x7, 0x7, 0x0, 0x3, 0x0, 0x3d]
    case 2 => [0xd7, 0x0, 0x0, 0xa, 0x6, 0x9, 0x1, 0x0]
    case 3 => [0x0, 0x0, 0x0, 0x25, 0x0, 0x5, 0x4, 0x8]
    case 4 => [0x13, 0x8, 0x3, 0x1a, 0x7, 0x14, 0x5, 0x2]
    case 5 => [0x5, 0x1, 0x5, 0x2, 0x2, 0x11, 0xf, 0xa]
    case 6 => [0x5, 0x1, 0x2, 0x2, 0xa, 0x28d, 0x0, 0x8]
    case 7 => [0x7, 0x9, 0x0, 0x0, 0x0, 0x2, 0x25, 0x0]
    case 8 => [0xc9, 0x0, 0x0, 0x229, 0x2c9, 0x5, 0x0, 0xb]
    case 9 => [0x49, 0x5d, 0x5, 0x9, 0x0, 0x0, 0x6, 0x2]
    case 10 => [0x0, 0x0, 0x0, 0x2, 0xc, 0x1, 0xb, 0x6e]
    case 11 => [0x6a, 0x0, 0x0, 0x4, 0x2, 0x49, 0x0, 0x31]
    case 12 => [0x5, 0x9, 0xf, 0xd, 0x1, 0x4, 0x0, 0x15]
    case 13 => [0x0, 0x0, 0x3, 0x9, 0x13, 0x3, 0xe, 0x0]
    case 14 => [0x1c, 0x0, 0x5, 0x2, 0x0, 0x23, 0x10, 0x11]
    case 15 => [0x0, 0x9, 0x0, 0x2, 0x0, 0xd, 0x2, 0x0]
    case 16 => [0x3e, 0x0, 0x2, 0x27, 0x45, 0x2, 0x0, 0x0]
    case 17 => [0x42, 0x0, 0x0, 0x0, 0xb, 0x0, 0x0, 0x0]
    case 18 => [0x13, 0x41, 0x0, 0x63, 0x0, 0x9, 0x0, 0x2]
    case 19 => [0x0, 0x1a, 0x0, 0x102, 0x135, 0x33, 0x0, 0x0]
    case 20 => [0x3, 0x9, 0x9, 0x9, 0x95, 0x0, 0x0, 0x4]
    case 21 => [0x0, 0x0, 0x5, 0x0, 0x0, 0x0, 0x0, 0xd]
    case 22 => [0x0, 0x0, 0x0, 0x0, 0x0, 0x40, 0x9, 0x0]
    case 23 => [0x0, 0x3, 0x6, 0x9, 0x3, 0x0, 0x0, 0x0]
    case 24 => [0x24, 0x0, 0x0, 0x0, 0x6, 0xcb, 0x1, 0x31]
    case 25 => [0x2, 0x6, 0x6, 0x7, 0x0, 0x1, 0x0, 0x4e]
    case 26 => [0x0, 0x2, 0x19, 0x0, 0x0, 0x0, 0x0, 0x0]
    case 27 => [0x0, 0x10c, 0xffff, 0xffff, 0x9, 0x0, 0xffff, 0x0]
    case 28 => [0x0, 0x9, 0xa, 0x4d, 0xffff, 0xffff, 0xffff, 0xffff]
    case 29 => [0xffff, 0xffff, 0xffff, 0xffff, 0x0, 0x0, 0xffff, 0x15]
    case 30 => [0x0, 0x9, 0xffff, 0x1a, 0xffff, 0x15, 0xffff, 0xffff]
    case _ => [0x6a, 0xffff, 0x1, 0x2, 0xffff, 0xffff, 0xffff, 0xffff]
  }

  function PacketLengths(version: ProtocolVersion): Lengths {
    var base := seq(0x100, i requires 0 <= i => LengthRow(i / 8)[i % 8]);
    var v6 := base[0x08 := 15][0x25 := 21];
    var v6014 := v6[0xb9 := 5];
    match version
    case UNKNOWN => base
    case V5 => base
    case V6 => v6
    case V6_0_5 => v6
    case V6_0_14 => v6014
    case V7 => v6014[0x24 := 9]
  }

  datatype PacketLength = Incomplete | Invalid | Known(n: nat)

  function GetPacketLength(lengths: Lengths, src: seq<Byte>): (r: PacketLength)
    ensures r.Known? ==> r.n >= 1
    ensures r.Incomplete? ==> |src| < 3
  {
    if src == [] then Incomplete
    else
      var length := lengths[src[0]];
      if length == 0xffff then Invalid
      else if length > 0 then Known(length)
      else if |src| < 3 then Incomplete
      else
        var own := (src[1] as int) * 0x100 + src[2];
        if own < 3 || own >= 0x8000 then Invalid else Known(own)
  }

  /** A command that carries its length has it in big-endian behind the command; it
      must be that of a packet with this header, and not negative in 16 bits. */
  lemma OwnLength(lengths: Lengths, cmd: Byte, n: nat, payload: seq<Byte>)
    requires lengths[cmd] == 0 && n < 0x1_0000
    ensures GetPacketLength(lengths, [cmd, n / 0x100, n % 0x100] + payload) == if 3 <= n < 0x8000 then Known(n) else Invalid
  {
  }

  /** Any other command has the length of the table, or none, and before that two
      bytes have to arrive. */
  lemma TableLength(lengths: Lengths, cmd: Byte, rest: seq<Byte>)
    ensures lengths[cmd] == 0xffff ==> GetPacketLength(lengths, [cmd] + rest) == Invalid
    ensures lengths[cmd] != 0xffff && lengths[cmd] != 0 ==> GetPacketLength(lengths, [cmd] + rest) == Known(lengths[cmd])
    ensures lengths[cmd] == 0 && |rest| < 2 ==> GetPacketLength(lengths, [cmd] + rest) == Incomplete
    ensures GetPacketLength(lengths, []) == Incomplete
  {
  }

  /** The versions differ in four commands: dropping an item and updating a container
      since version 6, the supported features since 6.0.14, opening a container since
      version 7. */
  lemma VersionLengths(version: ProtocolVersion, cmd: Byte)
    ensures var l := PacketLengths(version);
            && l[0x08] == (if version.UNKNOWN? || version.V5? then 14 else 15)
            && l[0x25] == (if version.UNKNOWN? || version.V5? then 20 else 21)
            && l[0xb9] == (if version.V6_0_14? || version.V7? then 5 else 3)
            && l[0x24] == (if version.V7? then 9 else 7)
            && (cmd != 0x08 && cmd != 0x25 && cmd != 0xb9 && cmd != 0x24 ==> l[cmd] == PacketLengths(UNKNOWN)[cmd])
  {
  }

  lemma BaseLength(version: ProtocolVersion, r: nat, i: nat)
    requires r < 32 && i < 8
    ensures var cmd := 8 * r + i;
            cmd != 0x08 && cmd != 0x25 && cmd != 0xb9 && cmd != 0x24 ==> PacketLengths(version)[cmd] == LengthRow(r)[i]
  {
    assert (8 * r + i) / 8 == r && (8 * r + i) % 8 == i;
  }

  /** The table agrees with the sizes of the packets that walk. */
  lemma WalkLengths(version: ProtocolVersion)
    ensures var l := PacketLengths(version); l[0x02] == 7 && l[0x21] == 8 && l[0x22] == 3
  {
    BaseLength(version, 0, 2);
    BaseLength(version, 4, 1);
    BaseLength(version, 4, 2);
  }

  /** And with those that log a client in. */
  lemma LoginLengths(version: ProtocolVersion)
    ensures var l := PacketLengths(version); l[0x80] == 62 && l[0x91] == 65 && l[0xa0] == 3 && l[0x8c] == 11
  {
    BaseLength(version, 16, 0);
    BaseLength(version, 18, 1);
    BaseLength(version, 20, 0);
    BaseLength(version, 17, 4);
  }

  /** Once determined, the length does not change when more bytes arrive. */
  lemma LengthIsStable(lengths: Lengths, a: seq<Byte>, b: seq<Byte>)
    requires !GetPacketLength(lengths, a).Incomplete?
    ensures GetPacketLength(lengths, a + b) == GetPacketLength(lengths, a)
  {
    assert (a + b)[0] == a[0];
  }

  // ---- The framing loop ----

  /** What the packet handler answers. */
  datatype Answer = Accepted | Blocking | Closed

  datatype Status = Ok | More | Destroyed | Malformed

  /** The packets that the handler took, the one it was offered but blocked or
      closed on, the bytes not consumed. */
  datatype Parsed = Parsed(taken: seq<seq<Byte>>, refused: seq<seq<Byte>>, rest: seq<Byte>, status: Status)

  /** The k-th packet gets answers[k]; after that everything is accepted. */
  ghost function Parse(lengths: Lengths, buf: seq<Byte>, answers: seq<Answer>): (r: Parsed)
    decreases |buf|
  {
    if buf == [] then Parsed([], [], [], Ok)
    else
      match GetPacketLength(lengths, buf)
      case Invalid => Parsed([], [], buf, Malformed)
      case Incomplete => Parsed([], [], buf, More)
      case Known(n) =>
        if n > |buf| then Parsed([], [], buf, More)
        else
          match FirstAnswer(answers)
          case Blocking => Parsed([], [buf[..n]], buf, Ok)
          case Closed => Parsed([], [buf[..n]], buf, Destroyed)
          case Accepted => TakeFirst(buf[..n], Parse(lengths, buf[n..], LaterAnswers(answers)))
  }

  function FirstAnswer(answers: seq<Answer>): Answer {
    if answers == [] then Accepted else answers[0]
  }

  function LaterAnswers(answers: seq<Answer>): seq<Answer> {
    if answers == [] then [] else answers[1..]
  }

  ghost function TakeFirst(packet: seq<Byte>, p: Parsed): Parsed {
    p.(taken := [packet] + p.taken)
  }

  /** Parsing with a handler that accepts everything. */
  ghost function Frames(lengths: Lengths, buf: seq<Byte>): Parsed {
    Parse(lengths, buf, [])
  }

  /** Nothing is lost, reordered or made up: what was taken plus what is left is
      the input, whatever the handler answers. */
  lemma {:induction false} ParseConserves(lengths: Lengths, buf: seq<Byte>, answers: seq<Answer>)
    ensures var p := Parse(lengths, buf, answers); Concat(p.taken) + p.rest == buf
    decreases |buf|
  {
    var len := GetPacketLength(lengths, buf);
    if buf != [] && len.Known? && len.n <= |buf| && FirstAnswer(answers).Accepted? {
      var packet, later := buf[..len.n], buf[len.n..];
      ParseConserves(lengths, later, LaterAnswers(answers));
      TakenConserves(packet, Parse(lengths, later, LaterAnswers(answers)), later, buf);
      assert Parse(lengths, buf, answers) == TakeFirst(packet, Parse(lengths, later, LaterAnswers(answers)));
    } else {
      assert Parse(lengths, buf, answers).taken == [] && Parse(lengths, buf, answers).rest == buf;
    }
  }

  lemma TakenConserves(packet: seq<Byte>, p: Parsed, later: seq<Byte>, buf: seq<Byte>)
    requires Concat(p.taken) + p.rest == later && buf == packet + later
    ensures Concat(TakeFirst(packet, p).taken) + TakeFirst(packet, p).rest == buf
  {
    ConcatFront(packet, p.taken, p.rest, later, buf);
  }

  /** How the loop ends: every packet that was taken is a whole one and was accepted;
      after them the handler has blocked or closed on the packet that is in front, or
      there is no whole packet in front: nothing, an invalid one, or a part of one. */
  lemma {:induction false} ParseMeans(lengths: Lengths, buf: seq<Byte>, answers: seq<Answer>)
    ensures var p := Parse(lengths, buf, answers);
            var len := GetPacketLength(lengths, p.rest);
            && WellFramed(lengths, p.taken)
            && (forall k :: 0 <= k < |p.taken| && k < |answers| ==> answers[k].Accepted?)
            && (p.refused == [] <==> p.rest == [] || !len.Known? || len.n > |p.rest|)
            && (p.refused != [] ==>
                  && |p.taken| < |answers| && len.n <= |p.rest| && p.refused == [p.rest[..len.n]]
                  && (answers[|p.taken|].Blocking? || answers[|p.taken|].Closed?)
                  && p.status == if answers[|p.taken|].Blocking? then Ok else Destroyed)
            && (p.refused == [] ==> p.status == if p.rest == [] then Ok else if len.Invalid? then Malformed else More)
    decreases |buf|
  {
    var len := GetPacketLength(lengths, buf);
    if buf != [] && len.Known? && len.n <= |buf| && FirstAnswer(answers).Accepted? {
      var packet, later := buf[..len.n], LaterAnswers(answers);
      ParseMeans(lengths, buf[len.n..], later);
      assert buf == packet + buf[len.n..];
      WholePacket(lengths, buf, len.n);
      assert Parse(lengths, buf, answers) == TakeFirst(packet, Parse(lengths, buf[len.n..], later));
    }
  }

  /** A packet's length can be told from the packet. */
  lemma WholePacket(lengths: Lengths, buf: seq<Byte>, n: nat)
    requires GetPacketLength(lengths, buf) == Known(n) && n <= |buf|
    ensures GetPacketLength(lengths, buf[..n]) == Known(n)
  {
  }

  /** A packet that was refused is still at the front of the buffer. */
  lemma {:induction false} RefusedStays(lengths: Lengths, buf: seq<Byte>, answers: seq<Answer>)
    ensures var p := Parse(lengths, buf, answers); |p.refused| <= 1 && Concat(p.refused) <= p.rest
    decreases |buf|
  {
    var len := GetPacketLength(lengths, buf);
    if buf != [] && len.Known? && len.n <= |buf| {
      if FirstAnswer(answers).Accepted? {
        RefusedStays(lengths, buf[len.n..], LaterAnswers(answers));
      } else {
        ConcatCons(buf[..len.n], []);
      }
    }
  }

  /** Framing does not depend on how the bytes arrive: what is found in a part
      stays found, and the rest is parsed together with what follows. */
  lemma {:induction false} FramesConcat(lengths: Lengths, a: seq<Byte>, b: seq<Byte>)
    ensures var p, q := Frames(lengths, a), Frames(lengths, a + b);
            if p.status.Malformed? then q == p.(rest := p.rest + b)
            else
              var r := Frames(lengths, p.rest + b);
              q == r.(taken := p.taken + r.taken)
    decreases |a|
  {
    var len := GetPacketLength(lengths, a);
    if a == [] {
      assert a + b == b;
    } else if !len.Incomplete? {
      LengthIsStable(lengths, a, b);
      if len.Known? && len.n <= |a| {
        var all := a + b;
        assert all[..len.n] == a[..len.n] && all[len.n..] == a[len.n..] + b;
        FramesConcat(lengths, a[len.n..], b);
        FramesTake(lengths, a, len.n);
        FramesTake(lengths, all, len.n);
        TakeFirstThen(a[..len.n], Frames(lengths, a[len.n..]), Frames(lengths, Frames(lengths, a[len.n..]).rest + b));
      }
    }
  }

  lemma FramesTake(lengths: Lengths, buf: seq<Byte>, n: nat)
    requires GetPacketLength(lengths, buf) == Known(n) && n <= |buf| && buf != []
    ensures Frames(lengths, buf) == TakeFirst(buf[..n], Frames(lengths, buf[n..]))
  {
  }

  lemma TakeFirstThen(packet: seq<Byte>, p: Parsed, r: Parsed)
    ensures TakeFirst(packet, r.(taken := p.taken + r.taken)) == r.(taken := TakeFirst(packet, p).taken + r.taken)
  {
    assert [packet] + (p.taken + r.taken) == [packet] + p.taken + r.taken;
  }

  /** What is left after framing contains no whole packet. */
  lemma {:induction false} FramesOfRest(lengths: Lengths, buf: seq<Byte>)
    requires !Frames(lengths, buf).status.Malformed?
    ensures var p := Frames(lengths, buf); Frames(lengths, p.rest) == Parsed([], [], p.rest, p.status)
    decreases |buf|
  {
    var len := GetPacketLength(lengths, buf);
    if buf != [] && len.Known? && len.n <= |buf| {
      FramesOfRest(lengths, buf[len.n..]);
    }
  }

  /** Every packet's own length is what the table or its header says. */
  ghost predicate WellFramed(lengths: Lengths, packets: seq<seq<Byte>>) {
    forall k :: 0 <= k < |packets| ==> GetPacketLength(lengths, packets[k]) == Known(|packets[k]|)
  }

  lemma {:induction false} FramesOfPackets(lengths: Lengths, packets: seq<seq<Byte>>)
    requires WellFramed(lengths, packets)
    ensures Frames(lengths, Concat(packets)) == Parsed(packets, [], [], Ok)
  {
    if packets != [] {
      var p, rest := packets[0], Concat(packets[1..]);
      LengthIsStable(lengths, p, rest);
      assert (p + rest)[..|p|] == p && (p + rest)[|p|..] == rest;
      FramesOfPackets(lengths, packets[1..]);
    }
  }
}
