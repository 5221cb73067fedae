/** What the codec and the framing give for the program's own tree and length
    tables. */
module Protocol {
  import opened Bits
  import opened Seqs
  import opened Huffman
  import opened HuffmanTable
  import opened Codec
  import opened Framing
  import opened Pipeline

  /** For every protocol version, any list of packets that fit its length table
      arrives as it was sent, however the stream is cut. */
  lemma ProtocolEndToEnd(version: ProtocolVersion, packets: seq<seq<Byte>>, chunks: seq<seq<Byte>>)
    requires WellFramed(PacketLengths(version), packets)
    ensures Parented(TREE, PARENTS) && Shape(TREE)
    ensures Concat(chunks) == CompressedAll(TREE, PARENTS, packets) ==>
              FeedAll(TREE, PacketLengths(version), 0, [], chunks) == Fed(packets, 0, [], false)
  {
    TreeWellFormed();
    ShapeOf(TREE, PARENTS);
    if Concat(chunks) == CompressedAll(TREE, PARENTS, packets) {
      EndToEnd(TREE, PARENTS, PacketLengths(version), packets, chunks);
    }
  }

  lemma {:induction false} CodeBitsSize(t: seq<Node>, p: Parents, src: seq<Byte>)
    requires WellFormed(t, p)
    ensures 2 * |src| <= |CodeBits(t, p, src)| <= 11 * |src|
  {
    if src != [] {
      CodeBitsSize(t, p, src[..|src| - 1]);
      CodeLength(t, p, src[|src| - 1]);
    }
  }

  /** The flush symbol costs four bits, and the last byte is filled up. */
  lemma WireSize(packet: seq<Byte>)
    ensures Parented(TREE, PARENTS)
    ensures |Compressed(TREE, PARENTS, packet)| == (|CodeBits(TREE, PARENTS, packet)| + 4 + 7) / 8
    ensures 2 * |packet| <= |CodeBits(TREE, PARENTS, packet)| <= 11 * |packet|
  {
    TreeWellFormed();
    FlushCode();
    CompressedSize(TREE, PARENTS, packet);
    CodeBitsSize(TREE, PARENTS, packet);
  }
}
