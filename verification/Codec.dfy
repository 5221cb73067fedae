/** Compression and resumable decompression (src/Compression.cxx,
    src/Compression.hxx) for an arbitrary well-formed tree. */
module Codec {
  import opened Bits
  import opened Huffman
  import opened Seqs
  import opened Wrappers

  /** A count of bytes written, or the thrown SocketBufferFullError. */
  datatype Outcome = Done(count: nat) | BufferFull

  // ---- What a compressed message is ----

  ghost function CodeBits(t: seq<Node>, p: Parents, src: seq<Byte>): seq<bool>
    requires Parented(t, p)
  {
    if src == [] then []
    else CodeBits(t, p, src[..|src| - 1]) + Code(t, p, src[|src| - 1])
  }

  /** All symbol codes, then the code of the flush symbol. */
  ghost function MessageBits(t: seq<Node>, p: Parents, src: seq<Byte>): seq<bool>
    requires Parented(t, p)
  {
    CodeBits(t, p, src) + Code(t, p, FLUSH)
  }

  /** The message, padded with zeros to whole bytes. */
  ghost function PaddedBits(t: seq<Node>, p: Parents, src: seq<Byte>): (r: seq<bool>)
    requires Parented(t, p)
    ensures Aligned(|r|)
  {
    var bits := MessageBits(t, p, src);
    PadAligns(|bits|);
    bits + Zeros(PadLength(|bits|))
  }

  /** The bytes that Compress must produce. */
  ghost function Compressed(t: seq<Node>, p: Parents, src: seq<Byte>): seq<Byte>
    requires Parented(t, p)
  {
    Pack(PaddedBits(t, p, src))
  }

  lemma CompressedSize(t: seq<Node>, p: Parents, src: seq<Byte>)
    requires Parented(t, p)
    ensures |Compressed(t, p, src)| == (|CodeBits(t, p, src)| + |Code(t, p, FLUSH)| + 7) / 8
  {
  }

  // ---- What decompressing bits yields ----

  datatype Decoded = Decoded(out: seq<Byte>, pos: nat)

  /** The whole bytes at the end of a bit string. */
  ghost function WholeBytes(bits: seq<bool>): (r: seq<bool>)
    ensures |r| <= |bits|
  {
    if Aligned(|bits|) then bits else WholeBytes(bits[1..])
  }

  lemma {:induction false} WholeBytesAfter(part: seq<bool>, rest: seq<bool>)
    requires |part| < 8 && Aligned(|rest|)
    ensures WholeBytes(part + rest) == rest
  {
    AlignedSum(|part|, |rest|);
    if part == [] {
      assert part + rest == rest;
    } else {
      WholeBytesAfter(part[1..], rest);
      assert (part + rest)[1..] == part[1..] + rest;
    }
  }

  lemma {:induction false} WholeBytesConcat(a: seq<bool>, b: seq<bool>)
    requires Aligned(|b|)
    ensures WholeBytes(a + b) == WholeBytes(a) + b
  {
    AlignedSum(|a|, |b|);
    if !Aligned(|a|) {
      WholeBytesConcat(a[1..], b);
      assert (a + b)[1..] == a[1..] + b;
    }
  }

  /** Decodes bits that end at a byte boundary, starting at tree node pos: the
      number of bits left tells how far the current byte has been read, so the
      flush symbol drops bits until whole bytes are left. */
  ghost function Decode(t: seq<Node>, pos: nat, bits: seq<bool>): (d: Decoded)
    requires Shape(t) && pos < NODES
    ensures d.pos < NODES
    decreases |bits|
  {
    if bits == [] then Decoded([], pos)
    else
      var c := Child(t[pos], bits[0]);
      var rest := bits[1..];
      if c > 0 then Decode(t, c, rest)
      else if -c == FLUSH then Decode(t, 0, WholeBytes(rest))
      else After([-c], Decode(t, 0, rest))
  }

  ghost function After(out: seq<Byte>, d: Decoded): Decoded {
    Decoded(out + d.out, d.pos)
  }

  /** Decoding can stop at any byte boundary and go on later. */
  lemma {:induction false} DecodeConcat(t: seq<Node>, pos: nat, a: seq<bool>, b: seq<bool>)
    requires Shape(t) && pos < NODES && Aligned(|b|)
    ensures var d := Decode(t, pos, a);
            Decode(t, pos, a + b) == After(d.out, Decode(t, d.pos, b))
    decreases |a|
  {
    if a == [] {
      assert a + b == b;
    } else {
      var c := Child(t[pos], a[0]);
      var rest := a[1..];
      assert (a + b)[1..] == rest + b;
      if c > 0 {
        DecodeConcat(t, c, rest, b);
      } else if -c == FLUSH {
        WholeBytesConcat(rest, b);
        DecodeConcat(t, 0, WholeBytes(rest), b);
      } else {
        DecodeConcat(t, 0, rest, b);
        var d := Decode(t, 0, rest);
        assert [-c] + (d.out + Decode(t, d.pos, b).out) == [-c] + d.out + Decode(t, d.pos, b).out;
      }
    }
  }

  lemma {:induction false} DecodeSymbol(t: seq<Node>, pos: nat, code: seq<bool>, s: nat, rest: seq<bool>)
    requires Shape(t) && pos < NODES && s < SYMBOLS && Spells(t, pos, code, s)
    ensures Decode(t, pos, code + rest)
         == if s == FLUSH then Decode(t, 0, WholeBytes(rest)) else After([s], Decode(t, 0, rest))
    decreases |code|
  {
    assert (code + rest)[0] == code[0];
    assert (code + rest)[1..] == code[1..] + rest;
    if |code| == 1 {
      assert code[1..] + rest == rest;
    } else {
      DecodeSymbol(t, Child(t[pos], code[0]), code[1..], s, rest);
    }
  }

  lemma {:induction false} DecodeCodes(t: seq<Node>, p: Parents, src: seq<Byte>, rest: seq<bool>)
    requires Parented(t, p) && Shape(t)
    ensures Decode(t, 0, CodeBits(t, p, src) + rest) == After(src, Decode(t, 0, rest))
  {
    if src == [] {
      assert CodeBits(t, p, src) + rest == rest;
    } else {
      var n := |src| - 1;
      var code := Code(t, p, src[n]);
      assert CodeBits(t, p, src) + rest == CodeBits(t, p, src[..n]) + (code + rest);
      DecodeCodes(t, p, src[..n], code + rest);
      CodeSpells(t, p, src[n]);
      DecodeSymbol(t, 0, code, src[n], rest);
      var d := Decode(t, 0, rest);
      assert src[..n] + ([src[n]] + d.out) == src + d.out;
    }
  }

  lemma CompressedBits(t: seq<Node>, p: Parents, src: seq<Byte>, rest: seq<Byte>)
    requires Parented(t, p)
    ensures BytesBits(Compressed(t, p, src) + rest)
         == MessageBits(t, p, src) + (Zeros(PadLength(|MessageBits(t, p, src)|)) + BytesBits(rest))
  {
    BytesBitsConcat(Compressed(t, p, src), rest);
    BytesBitsPack(PaddedBits(t, p, src));
  }

  /** The flush symbol drops exactly the padding. */
  lemma DecodeMessage(t: seq<Node>, p: Parents, src: seq<Byte>, pad: seq<bool>, rest: seq<bool>)
    requires Parented(t, p) && Shape(t) && |pad| < 8 && Aligned(|rest|)
    ensures Decode(t, 0, MessageBits(t, p, src) + (pad + rest)) == After(src, Decode(t, 0, rest))
  {
    var tail := pad + rest;
    var flush := Code(t, p, FLUSH);
    assert MessageBits(t, p, src) + tail == CodeBits(t, p, src) + (flush + tail);
    DecodeCodes(t, p, src, flush + tail);
    CodeSpells(t, p, FLUSH);
    DecodeSymbol(t, 0, flush, FLUSH, tail);
    WholeBytesAfter(pad, rest);
  }

  /** One compressed message decodes to its source and ends at the root. */
  lemma DecodeCompressed(t: seq<Node>, p: Parents, src: seq<Byte>, rest: seq<Byte>)
    requires Parented(t, p) && Shape(t)
    ensures Decode(t, 0, BytesBits(Compressed(t, p, src) + rest))
         == After(src, Decode(t, 0, BytesBits(rest)))
  {
    CompressedBits(t, p, src, rest);
    AlignedBytes(|rest|);
    DecodeMessage(t, p, src, Zeros(PadLength(|MessageBits(t, p, src)|)), BytesBits(rest));
  }

  ghost function CompressedAll(t: seq<Node>, p: Parents, messages: seq<seq<Byte>>): seq<Byte>
    requires Parented(t, p)
  {
    if messages == [] then []
    else Compressed(t, p, messages[0]) + CompressedAll(t, p, messages[1..])
  }

  lemma {:induction false} DecodeCompressedAll(t: seq<Node>, p: Parents, messages: seq<seq<Byte>>)
    requires Parented(t, p) && Shape(t)
    ensures Decode(t, 0, BytesBits(CompressedAll(t, p, messages))) == Decoded(Concat(messages), 0)
  {
    if messages != [] {
      DecodeCompressed(t, p, messages[0], CompressedAll(t, p, messages[1..]));
      DecodeCompressedAll(t, p, messages[1..]);
    }
  }

  /** One call of the resumable decoder for each chunk. */
  ghost function DecodeChunks(t: seq<Node>, pos: nat, chunks: seq<seq<Byte>>): (d: Decoded)
    requires Shape(t) && pos < NODES
    ensures d.pos < NODES
    decreases |chunks|
  {
    if chunks == [] then Decoded([], pos)
    else
      var d := Decode(t, pos, BytesBits(chunks[0]));
      After(d.out, DecodeChunks(t, d.pos, chunks[1..]))
  }

  lemma {:induction false} ChunksDecode(t: seq<Node>, pos: nat, chunks: seq<seq<Byte>>)
    requires Shape(t) && pos < NODES
    ensures DecodeChunks(t, pos, chunks) == Decode(t, pos, BytesBits(Concat(chunks)))
    decreases |chunks|
  {
    if chunks != [] {
      var d := Decode(t, pos, BytesBits(chunks[0]));
      ChunksDecode(t, d.pos, chunks[1..]);
      BytesBitsConcat(chunks[0], Concat(chunks[1..]));
      AlignedBytes(|Concat(chunks[1..])|);
      DecodeConcat(t, pos, BytesBits(chunks[0]), BytesBits(Concat(chunks[1..])));
    }
  }

  /** However the compressed messages are cut into chunks, the decoder yields
      the messages and comes to rest at the root. */
  lemma RoundTrip(t: seq<Node>, p: Parents, messages: seq<seq<Byte>>, chunks: seq<seq<Byte>>)
    requires WellFormed(t, p) && Concat(chunks) == CompressedAll(t, p, messages)
    ensures Shape(t) && DecodeChunks(t, 0, chunks) == Decoded(Concat(messages), 0)
  {
    ShapeOf(t, p);
    ChunksDecode(t, 0, chunks);
    DecodeCompressedAll(t, p, messages);
  }

  /** Every emitted byte costs at least two bits, of which those on the way to
      the starting node have been paid for already. */
  lemma {:induction false} DecodedSize(t: seq<Node>, p: Parents, pos: nat, bits: seq<bool>)
    requires WellFormed(t, p) && pos < NODES
    ensures Shape(t) && 2 * |Decode(t, pos, bits).out| <= |Path(t, p, pos)| + |bits|
    decreases |bits|
  {
    ShapeOf(t, p);
    if bits != [] {
      var x := Slot(pos, bits[0]);
      var c := Child(t[pos], x.bit);
      var rest := bits[1..];
      FieldsAreParents(t, p, x);
      if c > 0 {
        DecodedSize(t, p, c, rest);
      } else if -c == FLUSH {
        DecodedSize(t, p, 0, WholeBytes(rest));
      } else {
        CodeLength(t, p, -c);
        DecodedSize(t, p, 0, rest);
      }
    }
  }

  lemma {:induction false} CodeBitsPrefix(t: seq<Node>, p: Parents, src: seq<Byte>, k: nat)
    requires Parented(t, p) && k <= |src|
    ensures |CodeBits(t, p, src[..k])| <= |CodeBits(t, p, src)|
  {
    if k < |src| {
      CodeBitsPrefix(t, p, src[..|src| - 1], k);
      assert src[..|src| - 1][..k] == src[..k];
    } else {
      assert src[..k] == src;
    }
  }

  lemma CodeBitsSnoc(t: seq<Node>, p: Parents, src: seq<Byte>, i: nat, sent: seq<bool>, pending: seq<bool>)
    requires Parented(t, p) && i < |src|
    requires sent + pending == CodeBits(t, p, src[..i])
    ensures sent + (pending + Code(t, p, src[i])) == CodeBits(t, p, src[..i + 1])
  {
    assert src[..i + 1][..i] == src[..i];
    assert sent + (pending + Code(t, p, src[i])) == sent + pending + Code(t, p, src[i]);
  }

  // ---- The shift register ----

  const WORD := 0x1_0000_0000

  lemma InsertCode(x: nat, word: nat, pending: seq<bool>, code: seq<bool>)
    requires NatBits(word, |pending|) == pending && x == ShiftLeft(word, |code|) + Val(code)
    ensures NatBits(x, |pending| + |code|) == pending + code
  {
    ValBound(code);
    NatBitsAppend(word, |pending|, Val(code), |code|);
    NatBitsVal(code);
  }

  lemma CutWord(x: nat, n: nat, bits: seq<bool>)
    requires n < 32 && NatBits(x, n) == bits
    ensures NatBits(x % WORD, n) == bits
  {
    NatBitsCut32(x, n);
  }

  /** Shifting the register left in 32 bits and inserting a code keeps the
      pending bits, because there are fewer than 32 of them. */
  lemma ShiftIn(word: nat, pending: seq<bool>, code: seq<bool>)
    requires |pending| + |code| < 32 && NatBits(word, |pending|) == pending
    ensures NatBits((ShiftLeft(word, |code|) + Val(code)) % WORD, |pending| + |code|) == pending + code
  {
    var x := ShiftLeft(word, |code|) + Val(code);
    InsertCode(x, word, pending, code);
    CutWord(x, |pending| + |code|, pending + code);
  }

  /** The top eight pending bits, as the byte that is sent. */
  lemma ShiftOut(word: nat, pending: seq<bool>)
    requires |pending| >= 8 && NatBits(word, |pending|) == pending
    ensures var n := |pending| - 8;
            ShiftRight(word, n) % 0x100 == Val(pending[..8]) && NatBits(word, n) == pending[8..]
  {
    var n := |pending| - 8;
    NatBitsDrop(word, 8, n);
    LowByte(ShiftRight(word, n));
    NatBitsLow(word, 8, n);
  }

  lemma LastByteValue(word: nat, pending: seq<bool>, pad: seq<bool>)
    requires 0 < |pending| < 8 && NatBits(word, |pending|) == pending && pad == Zeros(8 - |pending|)
    ensures ShiftLeft(word, 8 - |pending|) % WORD % 0x100 == Val(pending + pad)
  {
    ShiftIn(word, pending, pad);
    ValZeros(8 - |pending|);
    LowByte(ShiftLeft(word, 8 - |pending|) % WORD);
  }

  lemma SendWhole(sent: seq<Byte>, last: seq<bool>, b: Byte)
    requires |last| == 8 && b == Val(last)
    ensures BytesBits(sent + [b]) == BytesBits(sent) + last
  {
    NatBitsVal(last);
    BytesBitsConcat(sent, [b]);
    assert BytesBits([b]) == NatBits(b, 8) + BytesBits([b][1..]);
  }

  lemma SendLast(sent: seq<Byte>, pending: seq<bool>, pad: seq<bool>, b: Byte)
    requires |pending| + |pad| == 8 && b == Val(pending + pad)
    ensures BytesBits(sent + [b]) == BytesBits(sent) + pending + pad
  {
    SendWhole(sent, pending + pad, b);
    assert BytesBits(sent) + (pending + pad) == BytesBits(sent) + pending + pad;
  }

  lemma LastByte(word: nat, pending: seq<bool>, sent: seq<Byte>)
    requires 0 < |pending| < 8 && NatBits(word, |pending|) == pending
    ensures BytesBits(sent + [ShiftLeft(word, 8 - |pending|) % WORD % 0x100])
         == BytesBits(sent) + pending + Zeros(PadLength(|pending|))
  {
    var pad := Zeros(8 - |pending|);
    LastByteValue(word, pending, pad);
    SendLast(sent, pending, pad, ShiftLeft(word, 8 - |pending|) % WORD % 0x100);
  }

  class Compression {
    var outData: nat
    var bit: nat

    /** The register holds these bits and they are all that is left to send. */
    ghost predicate Pending(bits: seq<bool>)
      reads this
    {
      bit == |bits| && outData < WORD && NatBits(outData, bit) == bits
    }

    constructor ()
      ensures Pending([])
    {
      outData, bit := 0, 0;
    }

    /** The code's low bits are zero after the shift, so the bitwise "or" that
        inserts the code is an addition. */
    method FeedChar(table: seq<Encoded>, ch: nat, ghost t: seq<Node>, ghost p: Parents, ghost pending: seq<bool>)
      requires WellFormed(t, p) && IsBitTable(t, p, table) && ch < SYMBOLS
      requires Pending(pending) && |pending| <= 7
      modifies this
      ensures Pending(pending + Code(t, p, ch)) && bit < 31
    {
      var code := table[ch];
      CodeLength(t, p, ch);
      ShiftIn(outData, pending, Code(t, p, ch));
      bit := bit + code.nBits;
      outData := (ShiftLeft(outData, code.nBits) + code.value) % WORD;
    }

    /** Sends all whole bytes, or throws if and only if they do not fit. */
    method OutputBits(dest: array<Byte>, index: nat, ghost pending: seq<bool>)
      returns (r: Outcome, ghost left: seq<bool>)
      requires Pending(pending) && index <= dest.Length
      modifies this, dest
      ensures r.BufferFull? <==> index + |pending| / 8 > dest.Length
      ensures r.Done? ==>
                && r.count == index + |pending| / 8
                && Pending(left) && |left| < 8
                && BytesBits(dest[..r.count]) + left == BytesBits(old(dest[..index])) + pending
                && dest[r.count..] == old(dest[r.count..])
    {
      left := pending;
      ghost var all := BytesBits(dest[..index]) + pending;
      var i := index;
      while bit >= 8
        invariant index <= i <= dest.Length
        invariant Pending(left)
        invariant BytesBits(dest[..i]) + left == all
        invariant dest[i..] == old(dest[i..])
        decreases bit
      {
        if i >= dest.Length {
          return BufferFull, left;
        }
        ShiftOut(outData, left);
        bit := bit - 8;
        var b := ShiftRight(outData, bit) % 0x100;
        SendByte(dest[..i], left, b);
        ghost var before, behind := dest[..i], dest[i..];
        dest[i] := b;
        assert dest[..i + 1] == before + [b];
        assert dest[i + 1..] == behind[1..] && old(dest[i..])[1..] == old(dest[i + 1..]);
        i := i + 1;
        left := left[8..];
      }
      r := Done(i);
    }

    /** Sends the last few bits, padded with zeros to a byte. */
    method FlushOutput(dest: array<Byte>, index: nat, ghost pending: seq<bool>)
      returns (r: Outcome)
      requires Pending(pending) && |pending| < 8 && index <= dest.Length
      modifies this, dest
      ensures r.BufferFull? <==> |pending| > 0 && index == dest.Length
      ensures r.Done? ==>
                && r.count == index + (if |pending| > 0 then 1 else 0)
                && BytesBits(dest[..r.count]) == BytesBits(old(dest[..index])) + pending + Zeros(PadLength(|pending|))
                && dest[r.count..] == old(dest[r.count..])
    {
      if bit <= 0 {
        return Done(index);
      }
      if index >= dest.Length {
        return BufferFull;
      }
      LastByte(outData, pending, dest[..index]);
      outData := ShiftLeft(outData, 8 - bit) % WORD;
      ghost var before := dest[..index];
      dest[index] := outData % 0x100;
      assert dest[..index + 1] == before + [outData % 0x100];
      r := Done(index + 1);
    }
  }

  lemma PadIs(bits: seq<bool>, head: seq<bool>, left: seq<bool>, a: nat)
    requires bits == head + left && |head| == 8 * a
    ensures PadLength(|bits|) == PadLength(|left|)
  {
    PadAfter(a, |left|);
  }

  lemma CompressedUnique(t: seq<Node>, p: Parents, src: seq<Byte>, sent: seq<Byte>, left: seq<bool>, out: seq<Byte>)
    requires Parented(t, p)
    requires BytesBits(sent) + left == MessageBits(t, p, src)
    requires BytesBits(out) == BytesBits(sent) + left + Zeros(PadLength(|left|))
    ensures out == Compressed(t, p, src)
  {
    PadIs(MessageBits(t, p, src), BytesBits(sent), left, |sent|);
    BytesBitsPack(PaddedBits(t, p, src));
    BytesBitsInjective(out, Compressed(t, p, src));
  }

  /** Feeds one symbol and sends the whole bytes. */
  method PutChar(co: Compression, dest: array<Byte>, index: nat, ch: nat, table: seq<Encoded>,
                 ghost t: seq<Node>, ghost p: Parents, ghost pending: seq<bool>)
    returns (r: Outcome, ghost left: seq<bool>)
    requires WellFormed(t, p) && IsBitTable(t, p, table) && ch < SYMBOLS
    requires co.Pending(pending) && |pending| < 8 && index <= dest.Length
    modifies co, dest
    ensures r.BufferFull? <==> index + |pending + Code(t, p, ch)| / 8 > dest.Length
    ensures r.Done? ==>
              && r.count == index + |pending + Code(t, p, ch)| / 8
              && co.Pending(left) && |left| < 8
              && BytesBits(dest[..r.count]) + left == BytesBits(old(dest[..index])) + (pending + Code(t, p, ch))
              && dest[r.count..] == old(dest[r.count..])
  {
    co.FeedChar(table, ch, t, p, pending);
    r, left := co.OutputBits(dest, index, pending + Code(t, p, ch));
  }

  lemma TailOfTail(a: seq<Byte>, b: seq<Byte>, i: nat, j: nat)
    requires i <= j <= |a| == |b| && a[i..] == b[i..]
    ensures a[j..] == b[j..]
  {
    assert a[j..] == a[i..][j - i..] && b[j..] == b[i..][j - i..];
  }

  /** Writes exactly the compressed message, or throws if and only if the
      buffer is shorter than that. */
  method Compress(dest: array<Byte>, src: seq<Byte>, table: seq<Encoded>, ghost t: seq<Node>, ghost p: Parents)
    returns (r: Outcome)
    requires WellFormed(t, p) && IsBitTable(t, p, table)
    modifies dest
    ensures r.BufferFull? <==> |Compressed(t, p, src)| > dest.Length
    ensures r.Done? ==>
              && r.count == |Compressed(t, p, src)|
              && dest[..r.count] == Compressed(t, p, src)
              && dest[r.count..] == old(dest[r.count..])
  {
    CompressedSize(t, p, src);
    var co := new Compression();
    var index: nat := 0;
    ghost var pending: seq<bool>, was := [], dest[..];
    for i := 0 to |src|
      invariant fresh(co) && co.Pending(pending) && |pending| < 8
      invariant index <= dest.Length
      invariant BytesBits(dest[..index]) + pending == CodeBits(t, p, src[..i])
      invariant dest[index..] == was[index..]
    {
      ghost var before := dest[..];
      CodeBitsSnoc(t, p, src, i, BytesBits(dest[..index]), pending);
      var step;
      step, pending := PutChar(co, dest, index, src[i], table, t, p, pending);
      if step.BufferFull? {
        CodeBitsPrefix(t, p, src, i + 1);
        return BufferFull;
      }
      TailOfTail(before, was, index, step.count);
      index := step.count;
    }
    assert src[..|src|] == src;
    r := FinishMessage(co, dest, index, pending, src, table, t, p);
  }

  /** The end of Compress: the flush symbol and the last bits. */
  method FinishMessage(co: Compression, dest: array<Byte>, index: nat, ghost pending: seq<bool>,
                       ghost src: seq<Byte>, table: seq<Encoded>, ghost t: seq<Node>, ghost p: Parents)
    returns (r: Outcome)
    requires WellFormed(t, p) && IsBitTable(t, p, table)
    requires co.Pending(pending) && |pending| < 8 && index <= dest.Length
    requires BytesBits(dest[..index]) + pending == CodeBits(t, p, src)
    modifies co, dest
    ensures r.BufferFull? <==> |Compressed(t, p, src)| > dest.Length
    ensures r.Done? ==>
              && r.count == |Compressed(t, p, src)|
              && dest[..r.count] == Compressed(t, p, src)
              && dest[r.count..] == old(dest[r.count..])
  {
    CompressedSize(t, p, src);
    assert BytesBits(dest[..index]) + (pending + Code(t, p, FLUSH)) == MessageBits(t, p, src);
    var step;
    ghost var left;
    step, left := PutChar(co, dest, index, FLUSH, table, t, p, pending);
    if step.BufferFull? {
      return BufferFull;
    }
    ghost var sent := dest[..step.count];
    r := co.FlushOutput(dest, step.count, left);
    if r.Done? {
      CompressedUnique(t, p, src, sent, left, dest[..r.count]);
    }
  }

  // ---- The decoder object ----

  /** One bit of the current byte, with whole bytes behind it. */
  lemma DecodeStep(t: seq<Node>, pos: nat, all: seq<bool>, bits: seq<bool>, tail: seq<bool>, rest: seq<bool>)
    requires Shape(t) && pos < NODES && 0 < |bits| <= 8 && Aligned(|tail|)
    requires all == bits + tail && rest == bits[1..] + tail
    ensures var c := Child(t[pos], bits[0]);
            Decode(t, pos, all)
            == (if c > 0 then Decode(t, c, rest)
                else if -c == FLUSH then Decode(t, 0, tail)
                else After([-c], Decode(t, 0, rest)))
  {
    assert all[0] == bits[0];
    assert all[1..] == rest;
    WholeBytesAfter(bits[1..], tail);
  }

  lemma BitDecoded(t: seq<Node>, pos: nat, bits: seq<bool>, done: seq<Byte>, goal: Decoded)
    requires Shape(t) && pos < NODES && 0 < |bits| <= 8 && goal == After(done, Decode(t, pos, bits))
    ensures var c := Child(t[pos], bits[0]);
            if c > 0 then goal == After(done, Decode(t, c, bits[1..]))
            else if -c == FLUSH then goal == After(done, Decode(t, 0, []))
            else goal == After(done + [-c], Decode(t, 0, bits[1..]))
  {
    DecodeStep(t, pos, bits, bits, [], bits[1..]);
    var c := Child(t[pos], bits[0]);
    if c <= 0 && -c != FLUSH {
      AfterAfter(done, [-c], Decode(t, 0, bits[1..]));
    }
  }

  /** One byte of the source is decoded. */
  lemma DecodeNext(t: seq<Node>, pos: nat, src: seq<Byte>, i: nat, done: seq<Byte>, goal: Decoded)
    requires Shape(t) && pos < NODES && i < |src|
    requires goal == After(done, Decode(t, pos, BytesBits(src[i..])))
    ensures var d := Decode(t, pos, NatBits(src[i], 8));
            d.pos < NODES && goal == After(done + d.out, Decode(t, d.pos, BytesBits(src[i + 1..])))
  {
    assert src[i..][1..] == src[i + 1..];
    AlignedBytes(|src| - i - 1);
    DecodeConcat(t, pos, NatBits(src[i], 8), BytesBits(src[i + 1..]));
    var d := Decode(t, pos, NatBits(src[i], 8));
    AfterAfter(done, d.out, Decode(t, d.pos, BytesBits(src[i + 1..])));
  }

  lemma AfterAfter(a: seq<Byte>, b: seq<Byte>, d: Decoded)
    ensures After(a, After(b, d)) == After(a + b, d)
  {
    assert a + (b + d.out) == a + b + d.out;
  }

  /** What has been written is in place, and the rest is as it was. */
  ghost predicate Filled(dest: array<Byte>, base: nat, done: seq<Byte>, was: seq<Byte>)
    reads dest
  {
    && base + |done| <= dest.Length == |was|
    && dest[..base + |done|] == was[..base] + done && dest[base + |done|..] == was[base + |done|..]
  }

  method Put(dest: array<Byte>, base: nat, b: Byte, ghost done: seq<Byte>, ghost was: seq<Byte>, at: nat)
    requires Filled(dest, base, done, was) && at == base + |done| < dest.Length
    modifies dest
    ensures Filled(dest, base, done + [b], was)
  {
    assert dest[at + 1..] == dest[at..][1..] && was[at + 1..] == was[at..][1..];
    dest[at] := b;
  }

  class Decompression {
    const tree: seq<Node>
    var treepos: int
    var bit: nat
    var mask: nat
    var value: Byte

    /** Between calls: at some inner node, with no bit of the last byte left. */
    ghost predicate AtRest()
      reads this
    {
      Shape(tree) && 0 <= treepos < NODES && bit == 8
    }

    constructor (tree: seq<Node>)
      requires Shape(tree)
      ensures AtRest() && treepos == 0 && this.tree == tree
    {
      this.tree := tree;
      treepos, bit, mask, value := 0, 8, 0, 0;
    }

    /** The current byte has these bits, and the mask selects the next one. */
    ghost predicate HasBits(byte: seq<bool>)
      reads this
    {
      && |byte| == 8 && bit <= 8
      && byte == NatBits(value, 8)
      && (bit < 8 ==> mask == Pow2(7 - bit))
    }

    method LoadByte(b: Byte, ghost byte: seq<bool>)
      requires byte == NatBits(b, 8)
      modifies `value, `mask, `bit
      ensures HasBits(byte) && bit == 0
    {
      value, bit, mask := b, 0, 0x80;
      Pow2Values();
    }

    /** Follows one bit of the current byte. At a leaf, goes back to the root
        and yields its symbol; the flush symbol skips the rest of the byte. */
    method FollowBit(ghost byte: seq<bool>) returns (symbol: Option<Byte>)
      requires Shape(tree) && 0 <= treepos < NODES && HasBits(byte) && bit < 8
      modifies `treepos, `mask, `bit
      ensures 0 <= treepos < NODES && HasBits(byte)
      ensures var c := Child(tree[old(treepos)], byte[old(bit)]);
              if c > 0 then symbol == None && treepos == c && bit == old(bit) + 1
              else if -c == FLUSH then symbol == None && treepos == 0 && bit == 8
              else symbol == Some(-c) && treepos == 0 && bit == old(bit) + 1
    {
      NatBitsAt(value, 8, bit);
      if TestBit(value, mask) {
        treepos := tree[treepos].left;
      } else {
        treepos := tree[treepos].right;
      }
      mask := mask / 2;
      bit := bit + 1;
      symbol := None;
      if treepos <= 0 {
        if treepos == -256 {
          bit := 8;
        } else {
          symbol := Some(-treepos);
        }
        treepos := 0;
      }
    }

    /** Decodes one byte into dest[at..], behind what was written before. */
    method DecodeByte(dest: array<Byte>, base: nat, at: nat, b: Byte, ghost byte: seq<bool>, ghost before: seq<Byte>, ghost was: seq<Byte>)
      returns (r: Outcome)
      requires AtRest() && Filled(dest, base, before, was) && at == base + |before| && byte == NatBits(b, 8)
      modifies this, dest
      ensures var d := Decode(tree, old(treepos), byte);
              if at + |d.out| > dest.Length then r == BufferFull
              else && r == Done(|d.out|)
                   && Filled(dest, base, before + d.out, was)
                   && AtRest() && treepos == d.pos
    {
      ghost var goal := After(before, Decode(tree, treepos, byte));
      ghost var done, bits := before, byte;
      LoadByte(b, byte);
      var n: nat := 0;
      while bit < 8
        invariant Shape(tree) && 0 <= treepos < NODES && HasBits(byte)
        invariant bits == (if bit < 8 then byte[bit..] else [])
        invariant |done| == |before| + n && Filled(dest, base, done, was)
        invariant goal == After(done, Decode(tree, treepos, bits))
        decreases 8 - bit
      {
        BitDecoded(tree, treepos, bits, done, goal);
        ghost var rest := bits[1..];
        assert bit == 7 ==> rest == [];
        var symbol := FollowBit(byte);
        bits := if bit < 8 then rest else [];
        if symbol.Some? {
          if at + n >= dest.Length {
            return BufferFull;
          }
          Put(dest, base, symbol.value, done, was, at + n);
          done := done + [symbol.value];
          n := n + 1;
        }
      }
      assert goal == Decoded(done + [], treepos);
      assert done + [] == done;
      r := Done(n);
    }

    /** Decodes into dest[base..]. Throws if and only if that is too small for
        what the bytes decode to. */
    method Decompress(dest: array<Byte>, base: nat, src: seq<Byte>) returns (r: Outcome)
      requires AtRest() && base <= dest.Length
      modifies this, dest
      ensures var d := Decode(tree, old(treepos), BytesBits(src));
              if base + |d.out| > dest.Length then r == BufferFull
              else && r == Done(|d.out|)
                   && dest[..base + |d.out|] == old(dest[..base]) + d.out
                   && dest[base + |d.out|..] == old(dest[base + |d.out|..])
                   && AtRest() && treepos == d.pos
    {
      ghost var goal := Decode(tree, treepos, BytesBits(src));
      ghost var done: seq<Byte>, was := [], dest[..];
      var n: nat := 0;
      assert src[0..] == src;
      for i := 0 to |src|
        invariant AtRest() && |done| == n && Filled(dest, base, done, was)
        invariant goal == After(done, Decode(tree, treepos, BytesBits(src[i..])))
      {
        ghost var d := Decode(tree, treepos, NatBits(src[i], 8));
        DecodeNext(tree, treepos, src, i, done, goal);
        var step := DecodeByte(dest, base, base + n, src[i], NatBits(src[i], 8), done, was);
        if step.BufferFull? {
          return BufferFull;
        }
        done := done + d.out;
        n := n + step.count;
      }
      assert goal == Decoded(done + [], treepos);
      assert done + [] == done;
      r := Done(n);
    }
  }
}
