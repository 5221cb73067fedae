/** The receiving side put together (src/Client.cxx:55-90): decompress into a
    buffer, then frame what is in it. The sender compresses every packet on its
    own (src/Server.cxx:112-133). */
module Pipeline {
  import opened Bits
  import opened Seqs
  import opened Huffman
  import opened Codec
  import opened Framing
  import opened Fifo

  datatype Fed = Fed(delivered: seq<seq<Byte>>, pos: nat, residue: seq<Byte>, malformed: bool)

  /** One chunk from the socket, with an accepting handler. */
  ghost function Feed(t: seq<Node>, lengths: Lengths, pos: nat, residue: seq<Byte>, chunk: seq<Byte>): (f: Fed)
    requires Shape(t) && pos < NODES
    ensures f.pos < NODES
  {
    var d := Decode(t, pos, BytesBits(chunk));
    var p := Frames(lengths, residue + d.out);
    Fed(p.taken, d.pos, p.rest, p.status.Malformed?)
  }

  ghost function Then(f: Fed, g: Fed): Fed {
    g.(delivered := f.delivered + g.delivered)
  }

  ghost function FeedAll(t: seq<Node>, lengths: Lengths, pos: nat, residue: seq<Byte>, chunks: seq<seq<Byte>>): Fed
    requires Shape(t) && pos < NODES
    decreases |chunks|
  {
    if chunks == [] then Fed([], pos, residue, false)
    else
      var f := Feed(t, lengths, pos, residue, chunks[0]);
      if f.malformed then f
      else Then(f, FeedAll(t, lengths, f.pos, f.residue, chunks[1..]))
  }

  /** A residue that is still waiting for bytes. */
  ghost predicate Waiting(lengths: Lengths, residue: seq<Byte>) {
    var p := Frames(lengths, residue);
    p == Parsed([], [], residue, p.status) && !p.status.Malformed?
  }

  lemma SplitFrames(lengths: Lengths, a: seq<Byte>, b: seq<Byte>, c: seq<Byte>)
    requires !Frames(lengths, a + (b + c)).status.Malformed?
    ensures var p := Frames(lengths, a + b);
            && !p.status.Malformed? && Waiting(lengths, p.rest)
            && Frames(lengths, a + (b + c))
               == Frames(lengths, p.rest + c).(taken := p.taken + Frames(lengths, p.rest + c).taken)
  {
    assert a + (b + c) == (a + b) + c;
    FramesConcat(lengths, a + b, c);
    FramesOfRest(lengths, a + b);
  }

  /** Cutting the compressed stream into chunks changes nothing: together they
      deliver the frames of everything that decodes from them. */
  lemma {:induction false} FeedAllFrames(t: seq<Node>, lengths: Lengths, pos: nat, residue: seq<Byte>, chunks: seq<seq<Byte>>)
    requires Shape(t) && pos < NODES && Waiting(lengths, residue)
    requires !Frames(lengths, residue + DecodeChunks(t, pos, chunks).out).status.Malformed?
    ensures var d := DecodeChunks(t, pos, chunks);
            var p := Frames(lengths, residue + d.out);
            FeedAll(t, lengths, pos, residue, chunks) == Fed(p.taken, d.pos, p.rest, false)
    decreases |chunks|
  {
    if chunks == [] {
      assert residue + [] == residue;
    } else {
      var d := Decode(t, pos, BytesBits(chunks[0]));
      var later := DecodeChunks(t, d.pos, chunks[1..]);
      SplitFrames(lengths, residue, d.out, later.out);
      FeedAllFrames(t, lengths, d.pos, Frames(lengths, residue + d.out).rest, chunks[1..]);
    }
  }

  /** End to end: packets that are compressed one by one, joined and cut at any
      places come out as they went in, in order, with nothing left over. */
  lemma EndToEnd(t: seq<Node>, p: Parents, lengths: Lengths, packets: seq<seq<Byte>>, chunks: seq<seq<Byte>>)
    requires WellFormed(t, p) && WellFramed(lengths, packets)
    requires Concat(chunks) == CompressedAll(t, p, packets)
    ensures Shape(t) && FeedAll(t, lengths, 0, [], chunks) == Fed(packets, 0, [], false)
  {
    ShapeOf(t, p);
    RoundTrip(t, p, packets, chunks);
    FramesOfPackets(lengths, packets);
    assert [] + Concat(packets) == Concat(packets);
    FeedAllFrames(t, lengths, 0, [], chunks);
  }

  // ---- Runs that end with nothing left over ----

  ghost function Todo(t: seq<Node>, pos: nat, chunks: seq<seq<Byte>>): seq<Byte>
    requires Shape(t) && pos < NODES
  {
    DecodeChunks(t, pos, chunks).out
  }

  /** The remaining chunks complete the residue to whole packets. */
  ghost predicate Completes(t: seq<Node>, lengths: Lengths, pos: nat, residue: seq<Byte>, chunks: seq<seq<Byte>>)
    requires Shape(t) && pos < NODES
  {
    var p := Frames(lengths, residue + Todo(t, pos, chunks));
    Waiting(lengths, residue) && p.rest == [] && !p.status.Malformed?
  }

  /** What was delivered, with what the remaining chunks will deliver, is the
      goal, and nothing will be left over. */
  ghost predicate OnTrack(t: seq<Node>, lengths: Lengths, goal: Fed, delivered: seq<seq<Byte>>,
                          pos: nat, residue: seq<Byte>, chunks: seq<seq<Byte>>)
    requires Shape(t) && pos < NODES
  {
    && Completes(t, lengths, pos, residue, chunks)
    && Then(Fed(delivered, 0, [], false), FeedAll(t, lengths, pos, residue, chunks)) == goal
  }

  lemma StillCompletes(t: seq<Node>, lengths: Lengths, pos: nat, residue: seq<Byte>, chunks: seq<seq<Byte>>)
    requires Shape(t) && pos < NODES && chunks != []
    requires Completes(t, lengths, pos, residue, chunks)
    ensures var f := Feed(t, lengths, pos, residue, chunks[0]);
            && !f.malformed
            && Completes(t, lengths, f.pos, f.residue, chunks[1..])
            && Todo(t, pos, chunks)
               == Decode(t, pos, BytesBits(chunks[0])).out + Todo(t, f.pos, chunks[1..])
    ensures residue == [] || Todo(t, pos, chunks) != []
  {
    var d := Decode(t, pos, BytesBits(chunks[0]));
    SplitFrames(lengths, residue, d.out, Todo(t, d.pos, chunks[1..]));
    if Todo(t, pos, chunks) == [] {
      assert residue + [] == residue;
    }
  }

  lemma StayOnTrack(t: seq<Node>, lengths: Lengths, goal: Fed, delivered: seq<seq<Byte>>,
                    pos: nat, residue: seq<Byte>, chunks: seq<seq<Byte>>)
    requires Shape(t) && pos < NODES && chunks != []
    requires OnTrack(t, lengths, goal, delivered, pos, residue, chunks)
    ensures var f := Feed(t, lengths, pos, residue, chunks[0]);
            && !f.malformed
            && OnTrack(t, lengths, goal, delivered + f.delivered, f.pos, f.residue, chunks[1..])
  {
    StillCompletes(t, lengths, pos, residue, chunks);
    var f := Feed(t, lengths, pos, residue, chunks[0]);
    var g := FeedAll(t, lengths, f.pos, f.residue, chunks[1..]);
    assert delivered + (f.delivered + g.delivered) == delivered + f.delivered + g.delivered;
  }

  // ---- Room in the buffer ----

  /** Where Write() lets the next bytes go: behind the tail, which moves to the
      front only when the buffer is empty or the tail is at the end. */
  ghost function StartOf(capacity: nat, residue: seq<Byte>, tail: nat): nat {
    if residue == [] then 0 else if tail == capacity then |residue| else tail
  }

  ghost predicate HasRoom(capacity: nat, start: nat, n: nat) {
    start < capacity && start + n <= capacity
  }

  /** Every chunk finds room when its turn comes. */
  ghost predicate Roomy(t: seq<Node>, lengths: Lengths, capacity: nat,
                        pos: nat, residue: seq<Byte>, tail: nat, chunks: seq<seq<Byte>>)
    requires Shape(t) && pos < NODES
    decreases |chunks|
  {
    chunks == [] ||
    var start := StartOf(capacity, residue, tail);
    var n := |Decode(t, pos, BytesBits(chunks[0])).out|;
    var f := Feed(t, lengths, pos, residue, chunks[0]);
    && HasRoom(capacity, start, n)
    && Roomy(t, lengths, capacity, f.pos, f.residue, if f.residue == [] then 0 else start + n, chunks[1..])
  }

  /** There is room if everything that is still to come fits behind the tail. */
  lemma {:induction false} FittingIsRoomy(t: seq<Node>, lengths: Lengths, capacity: nat,
                                          pos: nat, residue: seq<Byte>, tail: nat, chunks: seq<seq<Byte>>)
    requires Shape(t) && pos < NODES && 0 < capacity && |residue| <= tail
    requires Completes(t, lengths, pos, residue, chunks)
    requires tail + |Todo(t, pos, chunks)| <= capacity
    ensures Roomy(t, lengths, capacity, pos, residue, tail, chunks)
    decreases |chunks|
  {
    if chunks != [] {
      StillCompletes(t, lengths, pos, residue, chunks);
      var f := Feed(t, lengths, pos, residue, chunks[0]);
      var n := |Decode(t, pos, BytesBits(chunks[0])).out|;
      var start := StartOf(capacity, residue, tail);
      ResidueBehind(lengths, residue, Decode(t, pos, BytesBits(chunks[0])).out);
      FittingIsRoomy(t, lengths, capacity, f.pos, f.residue, if f.residue == [] then 0 else start + n, chunks[1..]);
    }
  }

  lemma ResidueBehind(lengths: Lengths, residue: seq<Byte>, out: seq<Byte>)
    ensures |Frames(lengths, residue + out).rest| <= |residue| + |out|
  {
    ParseConserves(lengths, residue + out, []);
  }

  lemma DecodesTo(t: seq<Node>, p: Parents, src: seq<Byte>)
    requires WellFormed(t, p)
    ensures Shape(t) && Decode(t, 0, BytesBits(Compressed(t, p, src))) == Decoded(src, 0)
  {
    ShapeOf(t, p);
    DecodeCompressed(t, p, src, []);
    assert Compressed(t, p, src) + [] == Compressed(t, p, src) && src + [] == src;
  }

  lemma TwoChunks(t: seq<Node>, lengths: Lengths, capacity: nat, c: seq<Byte>, d: seq<Byte>, first: seq<Byte>, second: seq<Byte>)
    requires Shape(t) && Decode(t, 0, BytesBits(c)) == Decoded(first, 0) && Decode(t, 0, BytesBits(d)) == Decoded(second, 0)
    ensures Todo(t, 0, [c, d]) == first + second
    ensures var p := Frames(lengths, first);
            && Feed(t, lengths, 0, [], c) == Fed(p.taken, 0, p.rest, p.status.Malformed?)
            && (p.rest != [] && |first| < capacity < |first| + |second| ==> !Roomy(t, lengths, capacity, 0, [], 0, [c, d]))
  {
    assert [c, d][1..] == [d];
    assert DecodeChunks(t, 0, [d]) == Decoded(second + [], 0);
    assert [] + first == first && second + [] == second;
  }

  lemma FramesAfter(lengths: Lengths, packet: seq<Byte>, rest: seq<Byte>)
    requires GetPacketLength(lengths, packet) == Known(|packet|)
    ensures Frames(lengths, packet + rest) == TakeFirst(packet, Frames(lengths, rest))
  {
    LengthIsStable(lengths, packet, rest);
    FramesTake(lengths, packet + rest, |packet|);
    assert (packet + rest)[..|packet|] == packet && (packet + rest)[|packet|..] == rest;
  }

  /** A packet of one byte, n times, as bytes and as packets. */
  ghost function Ones(a: Byte, n: nat): (r: seq<Byte>)
    ensures |r| == n
  {
    if n == 0 then [] else [a] + Ones(a, n - 1)
  }

  ghost function OnePackets(a: Byte, n: nat): seq<seq<Byte>> {
    if n == 0 then [] else [[a]] + OnePackets(a, n - 1)
  }

  lemma {:induction false} FramesOfOnes(lengths: Lengths, a: Byte, n: nat, rest: seq<Byte>)
    requires lengths[a] == 1
    ensures var p := Frames(lengths, rest); Frames(lengths, Ones(a, n) + rest) == p.(taken := OnePackets(a, n) + p.taken)
  {
    var p := Frames(lengths, rest);
    if n == 0 {
      assert Ones(a, n) + rest == rest && OnePackets(a, n) + p.taken == p.taken;
    } else {
      FramesOfOnes(lengths, a, n - 1, rest);
      FramesAfter(lengths, [a], Ones(a, n - 1) + rest);
      assert Ones(a, n) + rest == [a] + (Ones(a, n - 1) + rest);
      TakeOne([a], OnePackets(a, n - 1), p);
    }
  }

  lemma TakeOne(packet: seq<Byte>, packets: seq<seq<Byte>>, p: Parsed)
    ensures TakeFirst(packet, p.(taken := packets + p.taken)) == p.(taken := [packet] + packets + p.taken)
  {
    assert [packet] + (packets + p.taken) == [packet] + packets + p.taken;
  }

  lemma FramesOfThree(lengths: Lengths, b: Byte, x: Byte, y: Byte)
    requires lengths[b] == 3
    ensures Frames(lengths, [b]) == Parsed([], [], [b], More)
    ensures Frames(lengths, [b, x, y]) == Parsed([[b, x, y]], [], [], Ok)
  {
    FramesAfter(lengths, [b, x, y], []);
    assert [b, x, y] + [] == [b, x, y];
  }

  lemma WasteFrames(lengths: Lengths, n: nat, a: Byte, b: Byte, x: Byte, y: Byte)
    requires lengths[a] == 1 && lengths[b] == 3
    ensures Frames(lengths, Ones(a, n) + [b]) == Parsed(OnePackets(a, n), [], [b], More)
    ensures var p := Frames(lengths, [] + (Ones(a, n) + [b] + [x, y])); p.rest == [] && !p.status.Malformed?
  {
    FramesOfThree(lengths, b, x, y);
    FramesOfOnes(lengths, a, n, [b]);
    FramesOfOnes(lengths, a, n, [b, x, y]);
    assert OnePackets(a, n) + [] == OnePackets(a, n);
    assert [] + (Ones(a, n) + [b] + [x, y]) == Ones(a, n) + [b, x, y];
  }

  /** In a buffer of any size from three bytes on, packets of one byte and the first
      byte of a packet of three, then its other two: the second chunk fits beside the
      residue, but does not find room behind the tail. (0x16 and 0x0d are such
      commands in every version.) */
  lemma RoomIsWasted(t: seq<Node>, p: Parents, lengths: Lengths, capacity: nat, a: Byte, b: Byte, x: Byte, y: Byte)
    requires WellFormed(t, p) && lengths[a] == 1 && lengths[b] == 3 && capacity >= 3
    ensures Shape(t)
    ensures var chunks := [Compressed(t, p, Ones(a, capacity - 2) + [b]), Compressed(t, p, [x, y])];
            && Completes(t, lengths, 0, [], chunks)
            && Feed(t, lengths, 0, [], chunks[0]) == Fed(OnePackets(a, capacity - 2), 0, [b], false)
            && |[b]| + |Decode(t, 0, BytesBits(chunks[1])).out| <= capacity
            && !Roomy(t, lengths, capacity, 0, [], 0, chunks)
  {
    var first, second := Ones(a, capacity - 2) + [b], [x, y];
    DecodesTo(t, p, first);
    DecodesTo(t, p, second);
    WasteFrames(lengths, capacity - 2, a, b, x, y);
    TwoChunks(t, lengths, capacity, Compressed(t, p, first), Compressed(t, p, second), first, second);
  }

  // ---- The objects ----

  lemma WrittenBehind(before: seq<Byte>, after: seq<Byte>, head: nat, tail: nat, out: seq<Byte>)
    requires head <= tail <= tail + |out| <= |after| && tail <= |before|
    requires after[..tail + |out|] == before[..tail] + out
    ensures after[head..tail] == before[head..tail] && after[tail..tail + |out|] == out
  {
    var whole := after[..tail + |out|];
    assert whole[head..tail] == after[head..tail] && whole[tail..] == after[tail..tail + |out|];
  }

  datatype Received = Packets(delivered: seq<seq<Byte>>, malformed: bool) | Threw

  class Client {
    const decompression: Decompression
    const buffer: FifoBuffer
    const lengths: Lengths

    ghost predicate Valid()
      reads this, decompression, buffer
    {
      && decompression.AtRest()
      && buffer.Valid()
      && (buffer.head == buffer.tail ==> buffer.tail == 0)
    }

    constructor (tree: seq<Node>, lengths: Lengths, capacity: nat)
      requires Shape(tree)
      ensures Valid() && fresh(decompression) && fresh(buffer) && fresh(buffer.buffer)
      ensures decompression.tree == tree && decompression.treepos == 0
      ensures buffer.Contents() == [] && buffer.buffer.Length == capacity && this.lengths == lengths
    {
      decompression := new Decompression(tree);
      buffer := new FifoBuffer(capacity);
      this.lengths := lengths;
    }

    /** Where the next chunk goes. */
    ghost function Start(): nat
      requires Valid()
      reads this, decompression, buffer, buffer.buffer
    {
      StartOf(buffer.buffer.Length, buffer.Contents(), buffer.tail)
    }

    /** Every one of the chunks will find room. */
    ghost predicate HasRoomFor(chunks: seq<seq<Byte>>)
      requires Valid()
      reads this, decompression, buffer, buffer.buffer
    {
      Roomy(decompression.tree, lengths, buffer.buffer.Length, decompression.treepos, buffer.Contents(), buffer.tail, chunks)
    }

    /** What the bytes of a chunk decode to. */
    ghost function Incoming(chunk: seq<Byte>): Decoded
      requires decompression.AtRest()
      reads this, decompression
    {
      Decode(decompression.tree, decompression.treepos, BytesBits(chunk))
    }

    /** Decompresses a chunk into the buffer, or throws if and only if it does
        not fit behind the tail. */
    method Decompress(chunk: seq<Byte>) returns (r: Outcome)
      requires Valid()
      modifies decompression, buffer, buffer.buffer
      ensures r.Done? <==> HasRoom(buffer.buffer.Length, old(Start()), |old(Incoming(chunk)).out|)
      ensures r.Done? ==>
                && decompression.AtRest() && buffer.Valid()
                && decompression.treepos == old(Incoming(chunk)).pos
                && buffer.Contents() == old(buffer.Contents()) + old(Incoming(chunk)).out
                && buffer.tail == old(Start()) + |old(Incoming(chunk)).out|
    {
      buffer.Write();
      if buffer.tail == buffer.buffer.Length {
        return BufferFull;
      }
      ghost var before, out := buffer.buffer[..], Incoming(chunk).out;
      r := decompression.Decompress(buffer.buffer, buffer.tail, chunk);
      if r.Done? {
        WrittenBehind(before, buffer.buffer[..], buffer.head, buffer.tail, out);
        buffer.Append(r.count);
      }
    }

    /** One chunk is decompressed and framed, or the buffer is too small and the
        call throws; the condition is exact. */
    method OnSocketData(chunk: seq<Byte>) returns (r: Received)
      requires Valid()
      modifies decompression, buffer, buffer.buffer
      ensures r.Packets? <==> HasRoom(buffer.buffer.Length, old(Start()), |old(Incoming(chunk)).out|)
      ensures r.Packets? ==>
                && Valid()
                && Fed(r.delivered, decompression.treepos, buffer.Contents(), r.malformed)
                   == Feed(decompression.tree, lengths, old(decompression.treepos), old(buffer.Contents()), chunk)
                && buffer.tail == if buffer.Contents() == [] then 0 else old(Start()) + |old(Incoming(chunk)).out|
    {
      var outcome := Decompress(chunk);
      if outcome.BufferFull? {
        return Threw;
      }
      var status, taken, refused := ParsePackets(buffer, lengths, []);
      r := Packets(taken, status.Malformed?);
    }
  }

  lemma StartOnTrack(t: seq<Node>, p: Parents, lengths: Lengths, packets: seq<seq<Byte>>, chunks: seq<seq<Byte>>)
    requires WellFormed(t, p) && WellFramed(lengths, packets)
    requires Concat(chunks) == CompressedAll(t, p, packets)
    ensures Shape(t) && OnTrack(t, lengths, Fed(packets, 0, [], false), [], 0, [], chunks)
    ensures Todo(t, 0, chunks) == Concat(packets)
  {
    EndToEnd(t, p, lengths, packets, chunks);
    RoundTrip(t, p, packets, chunks);
    FramesOfPackets(lengths, packets);
    assert [] + Concat(packets) == Concat(packets);
    assert [] + packets == packets;
  }

  /** One chunk of a run. */
  method Advance(client: Client, chunks: seq<seq<Byte>>, ghost goal: Fed, ghost delivered: seq<seq<Byte>>)
    returns (r: Received)
    requires client.Valid() && chunks != []
    requires OnTrack(client.decompression.tree, client.lengths, goal, delivered,
                     client.decompression.treepos, client.buffer.Contents(), chunks)
    modifies client.decompression, client.buffer, client.buffer.buffer
    ensures r.Threw? ==> !old(client.HasRoomFor(chunks))
    ensures r.Packets? ==>
              && client.Valid() && client.HasRoomFor(chunks[1..]) == old(client.HasRoomFor(chunks))
              && OnTrack(client.decompression.tree, client.lengths, goal, delivered + r.delivered,
                         client.decompression.treepos, client.buffer.Contents(), chunks[1..])
  {
    StayOnTrack(client.decompression.tree, client.lengths, goal, delivered,
                client.decompression.treepos, client.buffer.Contents(), chunks);
    r := client.OnSocketData(chunks[0]);
  }

  /** Feeds the chunks one by one. The run throws if and only if some chunk does
      not find room. */
  method Drain(client: Client, chunks: seq<seq<Byte>>, ghost packets: seq<seq<Byte>>)
    returns (r: Received)
    requires client.Valid() && client.buffer.Contents() == []
    requires OnTrack(client.decompression.tree, client.lengths, Fed(packets, 0, [], false), [],
                     client.decompression.treepos, client.buffer.Contents(), chunks)
    modifies client.decompression, client.buffer, client.buffer.buffer
    ensures r.Packets? ==>
              && r == Packets(packets, false)
              && client.Valid() && client.decompression.treepos == 0 && client.buffer.Contents() == []
    ensures r.Packets? <==> old(client.HasRoomFor(chunks))
  {
    var delivered := [];
    ghost var t, lengths, goal := client.decompression.tree, client.lengths, Fed(packets, 0, [], false);
    assert chunks[0..] == chunks;
    for i := 0 to |chunks|
      invariant client.Valid() && client.HasRoomFor(chunks[i..]) == old(client.HasRoomFor(chunks))
      invariant OnTrack(t, lengths, goal, delivered, client.decompression.treepos, client.buffer.Contents(), chunks[i..])
    {
      assert chunks[i..][1..] == chunks[i + 1..];
      var step := Advance(client, chunks[i..], goal, delivered);
      if step.Threw? {
        return Threw;
      }
      delivered := delivered + step.delivered;
    }
    r := Packets(delivered, false);
  }

  /** A client that is fed a compressed packet stream in any chunks delivers the
      packets, or throws if and only if a chunk does not find room, which cannot
      happen when the buffer holds the whole stream. */
  method ReceiveAll(client: Client, chunks: seq<seq<Byte>>,
                    ghost p: Parents, ghost packets: seq<seq<Byte>>)
    returns (r: Received)
    requires client.Valid() && client.decompression.treepos == 0 && client.buffer.Contents() == []
    requires WellFormed(client.decompression.tree, p) && WellFramed(client.lengths, packets)
    requires Concat(chunks) == CompressedAll(client.decompression.tree, p, packets)
    modifies client.decompression, client.buffer, client.buffer.buffer
    ensures r.Packets? ==>
              && r == Packets(packets, false)
              && client.Valid() && client.decompression.treepos == 0 && client.buffer.Contents() == []
    ensures r.Packets? <==> old(client.HasRoomFor(chunks))
    ensures 0 < client.buffer.buffer.Length && |Concat(packets)| <= client.buffer.buffer.Length ==> r.Packets?
  {
    StartOnTrack(client.decompression.tree, p, client.lengths, packets, chunks);
    if 0 < client.buffer.buffer.Length && |Concat(packets)| <= client.buffer.buffer.Length {
      FittingIsRoomy(client.decompression.tree, client.lengths, client.buffer.buffer.Length, 0, [], 0, chunks);
    }
    r := Drain(client, chunks, packets);
  }
}
