/**
 The growing byte buffer of the HTTP server.  Seen from outside it is a queue of bytes: `Contents` is
 what was appended and not yet retrieved, whatever was moved or reallocated in between.
 */
module ByteBuffer {

  datatype byte = Byte(value: bv8)

  /** The kernel's side of a transfer: an error, or the bytes that came. */
  datatype Incoming = Failed | Bytes(data: seq<byte>)

  /** Size of the second buffer a read scatters into. */
  const SCRATCH: nat := 65535

  lemma TwoPieces(c: seq<byte>, d: seq<byte>, n: nat)
    requires n <= |d|
    ensures c + d[..n] + d[n..] == c + d
  {}

  class Buffer {
    var buffer: array<byte>
    var readPos: nat
    var writePos: nat

    predicate Valid()
      reads this
    {
      readPos <= writePos <= buffer.Length
    }

    /** The bytes in the queue. */
    function Contents(): seq<byte>
      requires Valid()
      reads this, buffer
    {
      buffer[readPos..writePos]
    }

    constructor (initBuffSize: nat)
      ensures Valid() && fresh(buffer) && buffer.Length == initBuffSize && Contents() == []
    {
      buffer := new byte[initBuffSize](_ => Byte(0));
      readPos, writePos := 0, 0;
    }

    function ReadableBytes(): nat
      requires Valid()
      reads this
      ensures ReadableBytes() == writePos - readPos
    {
      writePos - readPos
    }

    function WritableBytes(): nat
      requires Valid()
      reads this
    {
      buffer.Length - writePos
    }

    function PrependableBytes(): nat
      reads this
    {
      readPos
    }

    method Retrieve(len: nat)
      requires Valid() && len <= ReadableBytes()
      modifies this`readPos
      ensures Valid() && Contents() == old(Contents())[len..]
      ensures readPos == old(readPos) + len
    {
      readPos := readPos + len;
    }

    method RetrieveAll()
      requires Valid()
      modifies this`readPos, this`writePos, buffer
      ensures Valid() && Contents() == [] && readPos == writePos == 0
      ensures forall i :: 0 <= i < buffer.Length ==> buffer[i] == Byte(0)
    {
      var i := 0;
      while i < buffer.Length
        invariant 0 <= i <= buffer.Length
        invariant forall j :: 0 <= j < i ==> buffer[j] == Byte(0)
        modifies buffer
      {
        buffer[i] := Byte(0);
        i := i + 1;
      }
      readPos, writePos := 0, 0;
    }

    method RetrieveAllToStr() returns (str: seq<byte>)
      requires Valid()
      modifies this`readPos, this`writePos, buffer
      ensures Valid() && str == old(Contents()) && Contents() == []
    {
      str := buffer[readPos..writePos];
      RetrieveAll();
    }

    /** Makes room for `len` bytes behind the queue: by growing, or by moving the queue to the front. */
    method MakeSpace(len: nat)
      requires Valid()
      modifies this, buffer
      ensures Valid() && Contents() == old(Contents()) && WritableBytes() >= len
      ensures buffer == old(buffer) || fresh(buffer)
      ensures if old(WritableBytes() + PrependableBytes()) >= len then buffer == old(buffer) && readPos == 0
        else buffer.Length == old(writePos) + len + 1
    {
      if WritableBytes() + PrependableBytes() < len {
        Resize(writePos + len + 1);
      } else {
        MoveToFront();
      }
    }

    /** `vector::resize` to more than what is written. */
    method Resize(size: nat)
      requires Valid() && size >= writePos
      modifies this`buffer
      ensures Valid() && fresh(buffer) && buffer.Length == size && Contents() == old(Contents())
    {
      var bigger := new byte[size](i requires 0 <= i reads this, buffer =>
        if i < buffer.Length then buffer[i] else Byte(0));
      forall i | readPos <= i < writePos
        ensures bigger[i] == buffer[i]
      {
      }
      assert bigger[readPos..writePos] == buffer[readPos..writePos];
      buffer := bigger;
    }

    /** `std::copy` of the queue to the front of the buffer. */
    method MoveToFront()
      requires Valid()
      modifies this`readPos, this`writePos, buffer
      ensures Valid() && readPos == 0 && Contents() == old(Contents())
      ensures writePos == old(writePos - readPos)
    {
      ghost var was := Contents();
      var readable := ReadableBytes();
      var i := 0;
      while i < readable
        invariant 0 <= i <= readable
        invariant buffer[..i] == was[..i]
        invariant buffer[readPos + i..writePos] == was[i..]
        modifies buffer
      {
        assert buffer[readPos + i] == was[i] by {
          assert buffer[readPos + i..writePos][0] == was[i..][0];
        }
        buffer[i] := buffer[readPos + i];
        i := i + 1;
      }
      assert buffer[..readable] == was;
      readPos := 0;
      writePos := readPos + readable;
    }

    method EnsureWriteable(len: nat)
      requires Valid()
      modifies this, buffer
      ensures Valid() && Contents() == old(Contents()) && WritableBytes() >= len
      ensures buffer == old(buffer) || fresh(buffer)
    {
      if WritableBytes() < len {
        MakeSpace(len);
      }
    }

    method Append(str: seq<byte>)
      requires Valid()
      modifies this, buffer
      ensures Valid() && Contents() == old(Contents()) + str
      ensures buffer == old(buffer) || fresh(buffer)
    {
      EnsureWriteable(|str|);
      Fill(str);
    }

    /** Bytes that fit are put behind the queue. */
    method Fill(str: seq<byte>)
      requires Valid() && |str| <= WritableBytes()
      modifies this`writePos, buffer
      ensures Valid() && Contents() == old(Contents()) + str && writePos == old(writePos) + |str|
    {
      ghost var was := buffer[..writePos];
      assert Contents() == was[readPos..];
      CopyIn(str);
      assert buffer[readPos..writePos + |str|] == buffer[..writePos][readPos..] + str;
      writePos := writePos + |str|;
    }

    /** `std::copy` to the write position. */
    method CopyIn(str: seq<byte>)
      requires Valid() && |str| <= WritableBytes()
      modifies buffer
      ensures buffer[..writePos] == old(buffer[..writePos])
      ensures buffer[writePos..writePos + |str|] == str
    {
      var i := 0;
      while i < |str|
        invariant 0 <= i <= |str|
        invariant buffer[..writePos] == old(buffer[..writePos])
        invariant buffer[writePos..writePos + i] == str[..i]
      {
        buffer[writePos + i] := str[i];
        i := i + 1;
      }
    }

    /** A scattered read: what does not fit behind the queue comes by way of the scratch buffer. */
    method ReadFd(input: Incoming) returns (len: int)
      requires Valid()
      requires input.Bytes? ==> |input.data| <= WritableBytes() + SCRATCH
      modifies this, buffer
      ensures Valid()
      ensures len == (if input.Failed? then -1 else |input.data|)
      ensures Contents() == old(Contents()) + if input.Failed? then [] else input.data
      ensures buffer == old(buffer) || fresh(buffer)
    {
      var writable := WritableBytes();
      if input.Failed? {
        return -1;
      }
      var data := input.data;
      len := |data|;
      if len <= writable {
        Fill(data);
      } else {
        TwoPieces(Contents(), data, writable);
        Fill(data[..writable]);
        Append(data[writable..]);
      }
    }

    /** The kernel takes the first `taken` bytes, or fails. */
    method WriteFd(taken: int) returns (len: int, ghost sent: seq<byte>)
      requires Valid() && -1 <= taken <= ReadableBytes()
      modifies this`readPos
      ensures Valid() && len == taken
      ensures sent + Contents() == old(Contents()) && |sent| == if taken < 0 then 0 else taken
    {
      len := taken;
      sent := [];
      if len < 0 {
        return;
      }
      sent := Contents()[..len];
      readPos := readPos + len;
    }
  }
}
