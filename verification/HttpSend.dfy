/**
 Sending a response with vectored writes: the header from the write buffer, then the mapped file, in
 whatever pieces the kernel accepts (`HttpConn::process` and `HttpConn::write`).
 */
module HttpSend {
  import opened ByteBuffer
  import opened MachineInts

  /** An iovec: a position in the memory it points into, and a length. */
  datatype IoVec = IoVec(base: nat, len: nat)

  /** Dropping `n` from the front of two pieces. */
  lemma DropFromTwo(a: seq<byte>, b: seq<byte>, n: nat)
    requires n <= |a| + |b|
    ensures n > |a| ==> (a + b)[n..] == b[n - |a|..]
    ensures n <= |a| ==> (a + b)[n..] == a[n..] + b
    ensures (a + b)[..n] + (a + b)[n..] == a + b
  {}

  lemma SliceOfSlice(s: seq<byte>, a: nat, b: nat, k: nat)
    requires a + k <= b <= |s|
    ensures s[a..b][k..] == s[a + k..b]
  {}

  class HttpConn {
    const writeBuff: Buffer
    var file: seq<byte>          // the mapped file
    var iov0: IoVec              // into writeBuff
    var iov1: IoVec              // into the file
    var iovCnt: nat
    ghost var response: seq<byte>  // everything to be sent since the last process()
    ghost var accepted: seq<byte>  // everything the kernel took since then

    /** The bytes the iovecs still point to, those that the kernel is shown. */
    ghost function Pending(): seq<byte>
      requires Shape()
      reads this`iov0, this`iov1, this`iovCnt, this`file, writeBuff, writeBuff.buffer
    {
      Header() + Rest()
    }

    ghost function Header(): seq<byte>
      requires Shape()
      reads this`iov0, this`iov1, this`iovCnt, this`file, writeBuff, writeBuff.buffer
    {
      writeBuff.buffer[iov0.base..iov0.base + iov0.len]
    }

    ghost function Rest(): seq<byte>
      requires Shape()
      reads this`iov0, this`iov1, this`iovCnt, this`file, writeBuff
    {
      if iovCnt == 2 then file[iov1.base..iov1.base + iov1.len] else []
    }

    ghost predicate Shape()
      reads this`iov0, this`iov1, this`iovCnt, this`file, writeBuff
    {
      && writeBuff.Valid()
      && iov0.base + iov0.len <= writeBuff.buffer.Length
      && (iovCnt == 1 || iovCnt == 2)
      && (iovCnt == 2 ==> iov1.base + iov1.len <= |file|)
    }

    /** What was accepted is a prefix of the response, and what is pending is the rest. */
    ghost predicate Valid()
      reads this, writeBuff, writeBuff.buffer
    {
      && Shape()
      && (iov0.len > 0 ==> iov0.base == writeBuff.readPos)
      && iov0.len == writeBuff.ReadableBytes()
      && accepted + Pending() == response
    }

    /** The constructor sets neither the iovecs nor their number; they are whatever is in memory. */
    constructor (initBuffSize: nat, junk0: IoVec, junk1: IoVec, junkCnt: nat)
      ensures fresh(writeBuff) && fresh(writeBuff.buffer)
      ensures writeBuff.Valid() && writeBuff.Contents() == []
      ensures iov0 == junk0 && iov1 == junk1 && iovCnt == junkCnt
    {
      writeBuff := new Buffer(initBuffSize);
      file := [];
      iov0, iov1, iovCnt := junk0, junk1, junkCnt;
      response, accepted := [], [];
    }

    /** A new client on the same connection object: the buffer is emptied, the iovecs stay as they are. */
    method Init()
      requires writeBuff.Valid()
      modifies writeBuff, writeBuff.buffer
      ensures writeBuff.Valid() && writeBuff.Contents() == []
      ensures writeBuff.buffer == old(writeBuff.buffer)
    {
      writeBuff.RetrieveAll();
    }

    /** The sum of the two lengths, which is a `size_t`, as an `int`. */
    function ToWriteBytes(): int
      reads this
    {
      Int32(U64(iov0.len + iov1.len))
    }

    /** The sum of the two lengths wraps around to 0: `write` takes it for the end of the response. */
    predicate LooksEmpty()
      reads this
    {
      U64(iov0.len + iov1.len) == 0
    }

    /** The response header goes into the write buffer, and a file, if there is one, after it.  The
        second iovec is left alone when there is none. */
    method Process(header: seq<byte>, mapped: seq<byte>)
      requires writeBuff.Valid()
      modifies this, writeBuff, writeBuff.buffer
      ensures Valid() && accepted == [] && Pending() == response
      ensures response == old(writeBuff.Contents()) + header + mapped
      ensures writeBuff.buffer == old(writeBuff.buffer) || fresh(writeBuff.buffer)
      ensures iovCnt == if mapped == [] then 1 else 2
      ensures mapped == [] ==> iov1 == old(iov1)
    {
      writeBuff.Append(header);
      SetIov(mapped);
    }

    /** The iovecs point to what is in the write buffer, and to the file. */
    method SetIov(mapped: seq<byte>)
      requires writeBuff.Valid()
      modifies this
      ensures Valid() && accepted == [] && Pending() == response == writeBuff.Contents() + mapped
      ensures iovCnt == if mapped == [] then 1 else 2
      ensures mapped == [] ==> iov1 == old(iov1)
    {
      iov0 := IoVec(writeBuff.readPos, writeBuff.ReadableBytes());
      iovCnt := 1;
      file := mapped;
      if |mapped| > 0 {
        iov1 := IoVec(0, |mapped|);
        iovCnt := 2;
      }
      accepted := [];
      response := writeBuff.Contents() + mapped;
      assert Header() == writeBuff.Contents() && Rest() == mapped;
      assert accepted + Pending() == Pending();
    }

    /** One `writev`; `len` bytes are taken, or it fails when `len` is not positive.  The iovecs move on by
        what was taken, unless the sum of their lengths wraps around to 0: then what was taken will be
        sent once more. */
    method Write(taken: int) returns (len: int)
      requires Valid() && -1 <= taken <= |Pending()|
      modifies this`iov0, this`iov1, this`accepted, writeBuff, writeBuff.buffer
      ensures Shape() && len == taken
      ensures Valid() <==> taken <= 0 || !old(LooksEmpty())
      ensures accepted == old(accepted) + if taken > 0 then old(Pending())[..taken] else []
      ensures Pending() == if taken > 0 && !old(LooksEmpty()) then old(Pending())[taken..] else old(Pending())
      ensures iovCnt == 1 ==> iov1 == old(iov1)
    {
      len := taken;
      if len <= 0 {
        return;
      }
      ghost var p := Pending();
      TwoPieces(accepted, p, len);
      if U64(iov0.len + iov1.len) == 0 {
        accepted := accepted + p[..len];
        TooMuch(accepted, p, response, len);
        return;
      }
      Advance(len);
      accepted := accepted + p[..len];
    }

    /** The kernel took the first `len` bytes of what is pending. */
    method Advance(len: nat)
      requires Shape() && iov0.len == writeBuff.ReadableBytes() && len <= |Pending()|
      requires iov0.len > 0 ==> iov0.base == writeBuff.readPos
      modifies this`iov0, this`iov1, writeBuff, writeBuff.buffer
      ensures Shape() && iov0.len == writeBuff.ReadableBytes()
      ensures iov0.len > 0 ==> iov0.base == writeBuff.readPos
      ensures Pending() == old(Pending())[len..]
      ensures iovCnt == 1 ==> iov1 == old(iov1)
    {
      if len > iov0.len {
        PastHeader(len);
      } else {
        InsideHeader(len);
      }
    }

    /** The kernel took all of the header and some of the file. */
    method PastHeader(len: nat)
      requires Shape() && iov0.len == writeBuff.ReadableBytes() && iov0.len < len <= |Pending()|
      modifies this`iov0, this`iov1, writeBuff, writeBuff.buffer
      ensures Shape() && iov0.len == writeBuff.ReadableBytes() == 0
      ensures Pending() == old(Pending())[len..]
      ensures iovCnt == 1 ==> iov1 == old(iov1)
    {
      ghost var head, rest := Header(), Rest();
      DropFromTwo(head, rest, len);
      SliceOfSlice(file, iov1.base, iov1.base + iov1.len, len - iov0.len);
      iov1 := IoVec(iov1.base + (len - iov0.len), iov1.len - (len - iov0.len));
      if iov0.len > 0 {
        writeBuff.RetrieveAll();
        iov0 := iov0.(len := 0);
      }
      assert Header() == [] && Rest() == rest[len - |head|..];
      assert Pending() == Rest();
    }

    /** The kernel took no more than the header. */
    method InsideHeader(len: nat)
      requires Shape() && iov0.len == writeBuff.ReadableBytes() && len <= iov0.len
      requires iov0.len > 0 ==> iov0.base == writeBuff.readPos
      modifies this`iov0, writeBuff`readPos
      ensures Shape() && iov0.len == writeBuff.ReadableBytes()
      ensures iov0.len > 0 ==> iov0.base == writeBuff.readPos
      ensures Pending() == old(Pending())[len..]
    {
      ghost var head, rest := Header(), Rest();
      DropFromTwo(head, rest, len);
      iov0 := IoVec(iov0.base + len, iov0.len - len);
      writeBuff.Retrieve(len);
      assert Header() == head[len..] && Rest() == rest;
    }

    /** What the iovecs count beyond what is pending: the second one, when it is not in use. */
    ghost function Surplus(): nat
      requires Shape()
      reads this`iov1, this`iovCnt, this`iov0, this`file, writeBuff
    {
      if iovCnt == 2 then 0 else iov1.len
    }

    /** The count depends on what is pending and on the surplus, modulo 2^32. */
    lemma CountIsModulo()
      requires Valid()
      ensures iov0.len + iov1.len == |Pending()| + Surplus()
      ensures ToWriteBytes() == Int32(|Pending()| + Surplus())
      ensures (|Pending()| + Surplus()) % TWO32 == |Pending()| % TWO32 <==> Surplus() % TWO32 == 0
    {
      Int32OfU64(iov0.len + iov1.len);
      SameRemainder(|Pending()|, Surplus(), 0, TWO32);
    }

    /** Two lengths that are not both 0 and fit in 64 bits together do not look empty. */
    lemma ShowsUp()
      requires Valid() && 0 < |Pending()| + Surplus() < TWO64
      ensures !LooksEmpty()
    {
      CountIsModulo();
      SmallRemainder(iov0.len + iov1.len, TWO64);
    }

    /** `ToWriteBytes()` is what is pending exactly when that fits in an `int`, and the second iovec is in
        use or its length does not show in one: process() does not reset it for a response without a
        file. */
    lemma ToWriteBytesCounts()
      requires Valid()
      ensures ToWriteBytes() == |Pending()| <==>
              |Pending()| < TWO31 && (iovCnt == 2 || iov1.len % TWO32 == 0)
    {
      CountIsModulo();
      if |Pending()| < TWO31 {
        SmallRemainder(|Pending()|, TWO32);
      }
    }

    /** When `ToWriteBytes()` says that nothing is left, the kernel has the whole response exactly when less
        than 4 GiB are pending and the second iovec is in use or does not show. */
    lemma AllIsSent()
      requires Valid() && ToWriteBytes() == 0
      ensures accepted == response <==> |Pending()| < TWO32 && (iovCnt == 2 || iov1.len % TWO32 == 0)
    {
      CountIsModulo();
      assert accepted == response <==> Pending() == [] by {
        assert accepted + [] == accepted;
      }
      if |Pending()| < TWO32 {
        SmallRemainder(|Pending()|, TWO32);
      }
    }
  }

  lemma TooMuch(accepted: seq<byte>, pending: seq<byte>, response: seq<byte>, len: nat)
    requires |accepted| + |pending| == |response| + len && len > 0
    ensures accepted + pending != response
  {}

  /** A first response without a file, on a connection whose second iovec came with a length: the kernel
      has taken all of it, and `ToWriteBytes()` still asks for more. */
  method CountsWhatIsNotThere(initBuffSize: nat, junk: IoVec, header: seq<byte>) returns (conn: HttpConn)
    requires 0 < junk.len < TWO31 && |header| < TWO63
    ensures fresh(conn) && conn.Valid()
    ensures conn.accepted == conn.response == header && conn.Pending() == []
    ensures conn.ToWriteBytes() == junk.len > 0
  {
    conn := new HttpConn(initBuffSize, IoVec(0, 0), junk, 0);
    conn.Process(header, []);
    conn.ShowsUp();
    var len := conn.Write(|header|);
    assert conn.accepted + [] == conn.accepted;
    conn.CountIsModulo();
    SmallRemainder(junk.len, TWO32);
  }

  /** The header of a first response with a file, sent in one go. */
  method SendHeader(initBuffSize: nat, junk: IoVec, header: seq<byte>, mapped: seq<byte>)
    returns (conn: HttpConn)
    requires 0 < |header| < TWO63 && 0 < |mapped| < TWO63
    ensures fresh(conn) && conn.Valid() && conn.iovCnt == 2
    ensures conn.accepted == header && conn.Pending() == mapped && conn.response == header + mapped
  {
    conn := new HttpConn(initBuffSize, IoVec(0, 0), junk, 0);
    conn.Process(header, mapped);
    ghost var p := conn.Pending();
    Halves(header, mapped, p);
    conn.ShowsUp();
    var len := conn.Write(|header|);
  }

  lemma Halves(a: seq<byte>, b: seq<byte>, p: seq<byte>)
    requires p == [] + a + b
    ensures p == a + b && p[..|a|] == a && p[|a|..] == b && [] + a == a
  {}

  /** A file of a multiple of 4 GiB, when the kernel has just taken the header: `ToWriteBytes()` says that
      nothing is left, and the whole file is. */
  method FileLooksSent(initBuffSize: nat, junk: IoVec, header: seq<byte>, mapped: seq<byte>)
    returns (conn: HttpConn)
    requires 0 < |header| < TWO63 && 0 < |mapped| < TWO63 && |mapped| % TWO32 == 0
    ensures fresh(conn) && conn.Valid()
    ensures conn.accepted == header && conn.Pending() == mapped && conn.response == header + mapped
    ensures conn.ToWriteBytes() == 0
  {
    conn := SendHeader(initBuffSize, junk, header, mapped);
    conn.CountIsModulo();
  }
}
