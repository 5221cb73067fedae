/** The buffer that received bytes wait in (src/util/ForeignFifoBuffer.hxx) and
    the framing loop that reads it. */
module Fifo {
  import opened Bits
  import opened Framing

  class FifoBuffer {
    const buffer: array<Byte>
    var head: nat
    var tail: nat

    ghost predicate Valid()
      reads this
    {
      head <= tail <= buffer.Length
    }

    /** The queue that the buffer stands for. */
    ghost function Contents(): seq<Byte>
      requires Valid()
      reads this, buffer
    {
      buffer[head..tail]
    }

    constructor (capacity: nat)
      ensures Valid() && Contents() == [] && fresh(buffer) && buffer.Length == capacity
      ensures head == tail == 0
    {
      buffer := new Byte[capacity](_ => 0);
      head, tail := 0, 0;
    }

    method Clear()
      modifies this
      ensures Valid() && Contents() == [] && head == tail == 0
    {
      head, tail := 0, 0;
    }

    /** Moves the contents to the beginning of the buffer. */
    method Shift()
      requires Valid()
      modifies this, buffer
      ensures Valid() && Contents() == old(Contents()) && head == 0
    {
      if head == 0 {
        return;
      }
      var n := tail - head;
      for i := 0 to n
        invariant head == old(head) && tail == old(tail)
        invariant forall k :: 0 <= k < i ==> buffer[k] == old(buffer[head + k])
        invariant forall k :: head + i <= k < tail ==> buffer[k] == old(buffer[k])
      {
        buffer[i] := buffer[head + i];
      }
      tail := n;
      head := 0;
    }

    /** Prepares writing at the tail. The buffer is shifted only when its tail
        has reached the end. */
    method Write()
      requires Valid()
      modifies this, buffer
      ensures Valid() && Contents() == old(Contents())
      ensures tail == if old(head == tail) then 0
                      else if old(tail) == buffer.Length then |Contents()|
                      else old(tail)
      ensures tail <= old(tail)
    {
      if head == tail {
        Clear();
      } else if tail == buffer.Length {
        Shift();
      }
    }

    /** Makes room for n more bytes if and only if they fit at all. */
    method WantWrite(n: nat) returns (ok: bool)
      requires Valid()
      modifies this, buffer
      ensures Valid() && Contents() == old(Contents())
      ensures ok <==> |Contents()| + n <= buffer.Length
      ensures ok ==> tail + n <= buffer.Length
    {
      if tail + n <= buffer.Length {
        return true;
      }
      if tail - head + n > buffer.Length {
        return false;
      }
      Shift();
      return true;
    }

    /** Adds the n bytes that were written behind the tail. */
    method Append(n: nat)
      requires Valid() && tail + n <= buffer.Length
      modifies `tail
      ensures Valid() && tail == old(tail) + n
      ensures Contents() == old(Contents()) + buffer[old(tail)..tail]
    {
      tail := tail + n;
    }

    method Consume(n: nat)
      requires Valid() && n <= |Contents()|
      modifies `head
      ensures Valid() && head == old(head) + n && Contents() == old(Contents())[n..]
    {
      head := head + n;
    }

    /** Takes as much of src as the free space allows, after shifting. */
    method MoveFrom(src: seq<Byte>) returns (n: nat)
      requires Valid()
      modifies this, buffer
      ensures Valid() && n <= |src|
      ensures n == if |src| <= buffer.Length - |old(Contents())| then |src| else buffer.Length - |old(Contents())|
      ensures Contents() == old(Contents()) + src[..n]
    {
      Write();
      if |src| > buffer.Length - tail && head > 0 {
        Shift();
        Write();
      }
      n := if |src| > buffer.Length - tail then buffer.Length - tail else |src|;
      CopyIn(src[..n]);
      Append(n);
    }

    method CopyIn(src: seq<Byte>)
      requires Valid() && tail + |src| <= buffer.Length
      modifies buffer
      ensures buffer[tail..tail + |src|] == src
      ensures Contents() == old(Contents())
    {
      for i := 0 to |src|
        invariant forall k :: 0 <= k < i ==> buffer[tail + k] == src[k]
        invariant forall k :: 0 <= k < tail ==> buffer[k] == old(buffer[k])
      {
        buffer[tail + i] := src[i];
      }
    }

    /** Moving between two buffers conserves the bytes and their order. */
    method MoveFromBuffer(src: FifoBuffer) returns (n: nat)
      requires Valid() && src.Valid() && src != this && src.buffer != buffer
      modifies this, buffer, src`head
      ensures Valid() && src.Valid()
      ensures Contents() + src.Contents() == old(Contents() + src.Contents())
      ensures src.Contents() == [] || |Contents()| == buffer.Length
    {
      n := MoveFrom(src.buffer[src.head..src.tail]);
      src.Consume(n);
    }
  }

  /** Hands every whole packet to the handler, which answers as listed. */
  method ParsePackets(fifo: FifoBuffer, lengths: Lengths, answers: seq<Answer>)
    returns (status: Status, taken: seq<seq<Byte>>, refused: seq<seq<Byte>>)
    requires fifo.Valid()
    modifies fifo
    ensures fifo.Valid()
    ensures Parsed(taken, refused, fifo.Contents(), status) == Parse(lengths, old(fifo.Contents()), answers)
    ensures if fifo.Contents() == [] then fifo.head == fifo.tail == 0 else fifo.tail == old(fifo.tail)
  {
    taken, refused := [], [];
    ghost var goal := Parse(lengths, fifo.Contents(), answers);
    var left := answers;
    while true
      invariant fifo.Valid() && fifo.tail == old(fifo.tail)
      invariant var p := Parse(lengths, fifo.Contents(), left);
                goal == p.(taken := taken + p.taken)
      decreases |fifo.Contents()|
    {
      var src := fifo.buffer[fifo.head..fifo.tail];
      if src == [] {
        fifo.Clear();
        return Ok, taken, [];
      }
      var length := GetPacketLength(lengths, src);
      if length.Invalid? {
        return Malformed, taken, [];
      }
      if length.Incomplete? || length.n > |src| {
        return More, taken, [];
      }
      var packet := src[..length.n];
      var answer := FirstAnswer(left);
      if answer.Blocking? {
        return Ok, taken, [packet];
      }
      if answer.Closed? {
        return Destroyed, taken, [packet];
      }
      taken := taken + [packet];
      fifo.Consume(length.n);
      left := LaterAnswers(left);
    }
  }
}
