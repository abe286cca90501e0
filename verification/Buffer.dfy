/** The receive and send buffer of a connection: one array, a reader index and a writer index. */
module Buffers {

  newtype byte = x: int | 0 <= x < 256

  const CHEAP_PREPEND: nat := 8
  const INITIAL_SIZE: nat := 1024
  const EXTRA_BUF: nat := 65536

  /** What the indices of a buffer say without its bytes. */
  datatype Shape = Shape(size: nat, reader: nat, writer: nat) {
    predicate Ok() { CHEAP_PREPEND <= reader <= writer <= size }

    function Readable(): nat requires Ok() { writer - reader }

    function Writable(): nat requires Ok() { size - writer }
  }

  const FRESH_SHAPE := Shape(CHEAP_PREPEND + INITIAL_SIZE, CHEAP_PREPEND, CHEAP_PREPEND)

  function MadeSpace(s: Shape, len: nat): (r: Shape)
    requires s.Ok()
    ensures r.Ok() && r.Readable() == s.Readable() && len <= r.Writable()
    ensures r.size == s.size || s.size < r.size < s.Readable() + 2 * len + CHEAP_PREPEND
    ensures r.size == s.size <==> CHEAP_PREPEND + s.Readable() + len <= s.size
  {
    if s.Writable() + s.reader < len + CHEAP_PREPEND then
      s.(size := s.writer + len)
    else
      s.(reader := CHEAP_PREPEND, writer := CHEAP_PREPEND + s.Readable())
  }

  function Ensured(s: Shape, len: nat): (r: Shape)
    requires s.Ok()
    ensures r.Ok() && r.Readable() == s.Readable() && len <= r.Writable()
    ensures len <= s.Writable() ==> r == s
  {
    if s.Writable() < len then MadeSpace(s, len) else s
  }

  function Appended(s: Shape, len: nat): (r: Shape)
    requires s.Ok()
    ensures r.Ok() && r.Readable() == s.Readable() + len
  {
    var e := Ensured(s, len);
    e.(writer := e.writer + len)
  }

  /** `n` bytes read into the free tail, the rest appended from the overflow area. */
  function ReadInto(s: Shape, n: nat): (r: Shape)
    requires s.Ok()
    ensures r.Ok() && r.Readable() == s.Readable() + n
  {
    if n <= s.Writable() then s.(writer := s.writer + n) else Appended(s.(writer := s.size), n - s.Writable())
  }

  class Buffer {
    var data: array<byte>
    var reader: nat
    var writer: nat

    ghost predicate Valid()
      reads this
    {
      GetShape().Ok()
    }

    ghost function GetShape(): Shape
      reads this
    {
      Shape(data.Length, reader, writer)
    }

    /** The unread bytes, oldest first. */
    ghost function Contents(): (s: seq<byte>)
      requires Valid()
      reads this, data
      ensures |s| == writer - reader
    {
      data[reader..writer]
    }

    constructor ()
      ensures Valid() && fresh(data)
      ensures Contents() == [] && GetShape() == FRESH_SHAPE
    {
      data := new byte[CHEAP_PREPEND + INITIAL_SIZE](_ => 0);
      reader, writer := CHEAP_PREPEND, CHEAP_PREPEND;
    }

    method ReadableBytes() returns (n: nat)
      requires Valid()
      ensures n == |Contents()|
    {
      n := writer - reader;
    }

    /** `peek` followed by a copy of `len` bytes. */
    method Peek(len: nat) returns (bytes: seq<byte>)
      requires Valid() && len <= |Contents()|
      ensures bytes == Contents()[..len]
    {
      bytes := data[reader..reader + len];
    }

    method Retrieve(len: nat)
      requires Valid() && len <= |Contents()|
      modifies `reader
      ensures Valid()
      ensures Contents() == old(Contents())[len..]
      ensures GetShape() == old(GetShape()).(reader := old(reader) + len)
    {
      reader := reader + len;
    }

    method RetrieveAll()
      requires Valid()
      modifies `reader, `writer
      ensures Valid() && Contents() == []
      ensures GetShape() == old(GetShape()).(reader := CHEAP_PREPEND, writer := CHEAP_PREPEND)
    {
      reader, writer := CHEAP_PREPEND, CHEAP_PREPEND;
    }

    method RetrieveAsString() returns (str: seq<byte>)
      requires Valid()
      modifies `reader, `writer
      ensures Valid() && Contents() == [] && str == old(Contents())
    {
      str := Peek(writer - reader);
      RetrieveAll();
    }

    /** `buffer_.resize` for a larger size: new storage, old bytes first. */
    method Resize(size: nat)
      requires Valid() && data.Length <= size
      modifies `data
      ensures fresh(data) && data.Length == size
      ensures data[..old(data.Length)] == old(data[..])
      ensures Valid() && Contents() == old(Contents())
    {
      var bigger := new byte[size](_ => 0);
      for i := 0 to data.Length
        invariant data == old(data) && data[..] == old(data[..])
        invariant bigger[..i] == data[..i]
      {
        bigger[i] := data[i];
      }
      assert bigger[..data.Length] == data[..];
      data := bigger;
      assert Contents() == data[..old(data.Length)][reader..writer];
    }

    /** The forward copy over an overlapping range. */
    method SlideDown()
      requires Valid()
      modifies `reader, `writer, data
      ensures Valid() && Contents() == old(Contents())
      ensures reader == CHEAP_PREPEND && writer == CHEAP_PREPEND + |Contents()|
    {
      var readable := writer - reader;
      for i := 0 to readable
        invariant reader == old(reader) && writer == old(writer)
        invariant data[CHEAP_PREPEND..CHEAP_PREPEND + i] == old(Contents())[..i]
        invariant data[reader + i..writer] == old(Contents())[i..]
      {
        assert data[reader + i] == old(Contents())[i..][0] == old(Contents())[i];
        assert data[reader + i + 1..writer] == data[reader + i..writer][1..];
        data[CHEAP_PREPEND + i] := data[reader + i];
      }
      reader, writer := CHEAP_PREPEND, CHEAP_PREPEND + readable;
    }

    method MakeSpace(len: nat)
      requires Valid()
      modifies this, data
      ensures data == old(data) || fresh(data)
      ensures Valid() && Contents() == old(Contents())
      ensures GetShape() == MadeSpace(old(GetShape()), len)
    {
      if data.Length - writer + reader < len + CHEAP_PREPEND {
        Resize(writer + len);
      } else {
        SlideDown();
      }
    }

    method EnsureWritableBytes(len: nat)
      requires Valid()
      modifies this, data
      ensures data == old(data) || fresh(data)
      ensures Valid() && Contents() == old(Contents())
      ensures GetShape() == Ensured(old(GetShape()), len)
    {
      if data.Length - writer < len {
        MakeSpace(len);
      }
    }

    /** Bytes copied to `beginWrite()`, then `hasWritten`. */
    method Fill(bytes: seq<byte>)
      requires Valid() && |bytes| <= data.Length - writer
      modifies `writer, data
      ensures Valid() && Contents() == old(Contents()) + bytes
      ensures GetShape() == old(GetShape()).(writer := old(writer) + |bytes|)
    {
      for i := 0 to |bytes|
        invariant writer == old(writer)
        invariant data[reader..writer] == old(Contents())
        invariant data[writer..writer + i] == bytes[..i]
      {
        data[writer + i] := bytes[i];
      }
      writer := writer + |bytes|;
      assert Contents() == data[reader..old(writer)] + data[old(writer)..writer];
    }

    method Append(bytes: seq<byte>)
      requires Valid()
      modifies this, data
      ensures data == old(data) || fresh(data)
      ensures Valid() && Contents() == old(Contents()) + bytes
      ensures GetShape() == Appended(old(GetShape()), |bytes|)
    {
      hide MadeSpace;
      EnsureWritableBytes(|bytes|);
      Fill(bytes);
    }

    /** One `readv` into the free tail and the 64 KiB overflow area. The kernel holds `kernel` for
        this socket and chooses the count `n`; a negative count is an error. */
    method ReadFd(kernel: seq<byte>, n: int) returns (r: int)
      requires Valid()
      requires n <= |kernel| && n <= data.Length - writer + EXTRA_BUF
      modifies this, data
      ensures data == old(data) || fresh(data)
      ensures r == n && Valid()
      ensures Contents() == old(Contents()) + (if n < 0 then [] else kernel[..n])
      ensures GetShape() == if n < 0 then old(GetShape()) else ReadInto(old(GetShape()), n)
      ensures n < 0 ==> data == old(data) && data[..] == old(data[..])
    {
      hide MadeSpace, Appended;
      var writable := data.Length - writer;
      if n < 0 {
      } else if n <= writable {
        Fill(kernel[..n]);
      } else {
        var extrabuf := kernel[writable..n];
        Fill(kernel[..writable]);
        Append(extrabuf);
        assert old(Contents()) + kernel[..writable] + extrabuf == old(Contents()) + kernel[..n];
      }
      r := n;
    }
  }

  // Memory over a whole run.

  datatype Op = AppendOp(len: nat) | ReadOp(len: nat) | RetrieveOp(len: nat) | RetrieveAllOp

  predicate Allowed(s: Shape, op: Op) {
    && s.Ok()
    && (op.RetrieveOp? ==> op.len <= s.Readable())
    && (op.ReadOp? ==> op.len <= s.Writable() + EXTRA_BUF)
  }

  /** How many bytes `op` hands to `append`. */
  function Demand(s: Shape, op: Op): nat
    requires s.Ok()
  {
    match op
    case AppendOp(len) => len
    case ReadOp(len) => if len <= s.Writable() then 0 else len - s.Writable()
    case _ => 0
  }

  function Apply(s: Shape, op: Op): (r: Shape)
    requires Allowed(s, op)
    ensures r.Ok() && s.size <= r.size
    ensures op.AppendOp? || op.ReadOp? ==> r.Readable() == s.Readable() + op.len
    ensures op.RetrieveOp? ==> r.Readable() == s.Readable() - op.len && r.writer == s.writer && r.size == s.size
    ensures op.RetrieveAllOp? ==> r.Readable() == 0 && r.Writable() == s.size - CHEAP_PREPEND
  {
    match op
    case AppendOp(len) => Appended(s, len)
    case ReadOp(len) => ReadInto(s, len)
    case RetrieveOp(len) => s.(reader := s.reader + len)
    case RetrieveAllOp => s.(reader := CHEAP_PREPEND, writer := CHEAP_PREPEND)
  }

  /** A run in which every state holds at most `peak` unread bytes, and every call appends at most `chunk`. */
  ghost predicate IsRun(shapes: seq<Shape>, ops: seq<Op>, peak: nat, chunk: nat) {
    && |shapes| == |ops| + 1
    && (forall i | 0 <= i < |shapes| :: shapes[i].Ok() && shapes[i].Readable() <= peak)
    && forall i | 0 <= i < |ops| ::
         && Allowed(shapes[i], ops[i]) && Demand(shapes[i], ops[i]) <= chunk
         && shapes[i + 1] == Apply(shapes[i], ops[i])
  }

  /** However many bytes pass through, storage is bounded by the peak backlog and the largest append. */
  lemma {:induction false} StorageBounded(shapes: seq<Shape>, ops: seq<Op>, peak: nat, chunk: nat, i: nat)
    requires IsRun(shapes, ops, peak, chunk) && i < |shapes|
    ensures var s, r := shapes[0], shapes[i];
      s.size <= r.size && (r.size == s.size || r.size < peak + 2 * chunk + CHEAP_PREPEND)
  {
    if i == 0 {
    } else {
      StorageBounded(shapes, ops, peak, chunk, i - 1);
      assert shapes[i] == Apply(shapes[i - 1], ops[i - 1]);
    }
  }
}
