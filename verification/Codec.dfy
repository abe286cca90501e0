/** The wire format: a 4-byte big-endian length, then the payload. */
module Codec {
  import opened Buffers

  const TWO_31 := 0x8000_0000
  const TWO_32 := 0x1_0000_0000
  const TWO_64 := 0x1_0000_0000_0000_0000

  /** The largest length for which the receiver's `int` sum `4 + len` does not overflow. */
  const MAX_PAYLOAD: nat := 0x7FFF_FFFB

  type Payload = seq<byte>

  /** The bytes of `htonl` of an `int` whose 32 bits are `h`. */
  function BigEndian(h: nat): (b: seq<byte>)
    requires h < TWO_32
    ensures |b| == 4
  {
    [(h / 0x100_0000) as byte, (h / 0x1_0000 % 0x100) as byte, (h / 0x100 % 0x100) as byte, (h % 0x100) as byte]
  }

  /** The 32 bits `ntohl` reads from the first four bytes. */
  function HeaderBits(b: seq<byte>): (h: nat)
    requires 4 <= |b|
    ensures h < TWO_32
  {
    0x100_0000 * b[0] as nat + 0x1_0000 * b[1] as nat + 0x100 * b[2] as nat + b[3] as nat
  }

  lemma HeaderRoundTrip(h: nat, tail: seq<byte>)
    requires h < TWO_32
    ensures HeaderBits(BigEndian(h) + tail) == h
  {
    var b := BigEndian(h) + tail;
    assert b[..4] == BigEndian(h);
    assert h / 0x1_0000 == h / 0x100_0000 * 0x100 + h / 0x1_0000 % 0x100;
    assert h / 0x100 == h / 0x1_0000 * 0x100 + h / 0x100 % 0x100;
    assert b[0] == BigEndian(h)[0] && b[1] == BigEndian(h)[1] && b[2] == BigEndian(h)[2] && b[3] == BigEndian(h)[3];
  }

  /** The most significant byte travels first: eight more bits move the bytes one place to the front. */
  lemma NetworkOrder(h: nat, low: byte)
    requires h < 0x100_0000
    ensures BigEndian(0) == [0, 0, 0, 0]
    ensures BigEndian(0x100 * h + low as nat) == BigEndian(h)[1..] + [low]
  {
    var n := 0x100 * h + low as nat;
    assert n / 0x100_0000 == h / 0x1_0000 && n / 0x1_0000 == h / 0x100 && n / 0x100 == h;
  }

  lemma SameHeader(a: seq<byte>, b: seq<byte>)
    requires 4 <= |a| && 4 <= |b| && a[..4] == b[..4]
    ensures HeaderBits(a) == HeaderBits(b)
  {
  }

  /** Those bits as the signed `int len`. */
  function SignedLen(h: nat): int
    requires h < TWO_32
  {
    if h < TWO_31 then h else h - TWO_32
  }

  /** The `size_t` that `x` becomes in the comparison with `readableBytes()`. */
  function AsSize(x: int): nat
    requires -TWO_31 <= x < TWO_64
  {
    if x < 0 then x + TWO_64 else x
  }

  /** What one sender call puts on the wire; the cast to `int` keeps the low 32 bits of the size. */
  function Frame(payload: Payload): seq<byte> {
    BigEndian(|payload| % TWO_32) + payload
  }

  function Encode(payloads: seq<Payload>): seq<byte> {
    if payloads == [] then [] else Frame(payloads[0]) + Encode(payloads[1..])
  }

  predicate Sendable(payloads: seq<Payload>) {
    forall p <- payloads :: |p| <= MAX_PAYLOAD
  }

  /** How the receiver's loop stops: it needs more bytes, the `int` sum overflows (undefined), or
      constructing the string from a negative length throws after the header was retrieved. */
  datatype Stop = NeedMore | Overflow | BadLength

  datatype Cut = Cut(payload: Payload, rest: seq<byte>) | Stopped(why: Stop, left: seq<byte>)

  /** One iteration of the receiver's loop. */
  function CutFrame(buf: seq<byte>): (c: Cut)
    ensures c.Cut? ==> |c.rest| < |buf|
    ensures c.Stopped? && c.why != BadLength ==> c.left == buf
  {
    if |buf| < 4 then Stopped(NeedMore, buf)
    else
      var len := SignedLen(HeaderBits(buf));
      if MAX_PAYLOAD < len then Stopped(Overflow, buf)
      else if |buf| < AsSize(4 + len) then Stopped(NeedMore, buf)
      else if len < 0 then Stopped(BadLength, buf[4..])
      else Cut(buf[4..4 + len], buf[4 + len..])
  }

  datatype Deframed = Deframed(payloads: seq<Payload>, left: seq<byte>, why: Stop)

  /** The whole loop, on a buffer holding `buf`. */
  function Deframe(buf: seq<byte>): Deframed
    decreases |buf|
  {
    match CutFrame(buf)
    case Stopped(why, left) => Deframed([], left, why)
    case Cut(p, rest) =>
      var d := Deframe(rest);
      d.(payloads := [p] + d.payloads)
  }

  lemma DeframeUnrolled(buf: seq<byte>)
    ensures Deframe(buf) == match CutFrame(buf)
      case Stopped(why, left) => Deframed([], left, why)
      case Cut(p, rest) => var d := Deframe(rest); d.(payloads := [p] + d.payloads)
  {
  }

  lemma Prepended(emitted: seq<Payload>, p: Payload, d: Deframed)
    ensures d.(payloads := emitted + ([p] + d.payloads)) == d.(payloads := (emitted + [p]) + d.payloads)
    ensures d.(payloads := emitted + []).payloads == emitted
  {
  }

  // Methods.

  method SendJson(payload: Payload) returns (msg: seq<byte>)
    ensures msg == Frame(payload)
    ensures forall tail :: CutFrame(msg + tail) == Cut(payload, tail) <==> |payload| <= MAX_PAYLOAD
  {
    var len := |payload| % TWO_32;
    msg := [];
    msg := msg + BigEndian(len);
    msg := msg + payload;
    hide CutFrame;
    forall tail
      ensures CutFrame(msg + tail) == Cut(payload, tail) <==> |payload| <= MAX_PAYLOAD
    {
      FrameRecoveredIff(payload, tail);
    }
  }

  /** `onMessage`: cut every complete frame out of the buffer, in order. */
  method OnMessage(buf: Buffer) returns (emitted: seq<Payload>, why: Stop)
    requires buf.Valid()
    modifies buf`reader
    ensures buf.Valid()
    ensures Deframed(emitted, buf.Contents(), why) == Deframe(old(buf.Contents()))
  {
    hide Deframe, HeaderBits;
    emitted := [];
    while true
      invariant buf.Valid()
      invariant buf.data == old(buf.data) && buf.writer == old(buf.writer)
      invariant var d := Deframe(buf.Contents());
        d.(payloads := emitted + d.payloads) == Deframe(old(buf.Contents()))
      decreases |buf.Contents()|
    {
      ghost var before := buf.Contents();
      DeframeUnrolled(before);
      Prepended(emitted, [], Deframe(before));
      var readable := buf.ReadableBytes();
      if readable < 4 {
        return emitted, NeedMore;
      }
      var header := buf.Peek(4);
      SameHeader(header, before);
      var len := SignedLen(HeaderBits(header));
      if MAX_PAYLOAD < len {
        return emitted, Overflow;
      }
      if readable < AsSize(4 + len) {
        return emitted, NeedMore;
      }
      buf.Retrieve(4);
      if len < 0 {
        return emitted, BadLength;
      }
      var jsonStr := buf.Peek(len);
      buf.Retrieve(len);
      assert CutFrame(before) == Cut(jsonStr, buf.Contents());
      Prepended(emitted, jsonStr, Deframe(buf.Contents()));
      emitted := emitted + [jsonStr];
    }
  }

  // Round trip.

  lemma CutOfFrame(p: Payload, tail: seq<byte>)
    requires |p| <= MAX_PAYLOAD
    ensures CutFrame(Frame(p) + tail) == Cut(p, tail)
  {
    hide HeaderBits, BigEndian;
    var buf := Frame(p) + tail;
    assert buf == BigEndian(|p|) + (p + tail);
    HeaderRoundTrip(|p|, p + tail);
    assert buf[4..4 + |p|] == p && buf[4 + |p|..] == tail;
  }

  /** A frame comes back out, whatever follows it, exactly when its payload is short enough. */
  lemma FrameRecoveredIff(p: Payload, tail: seq<byte>)
    ensures CutFrame(Frame(p) + tail) == Cut(p, tail) <==> |p| <= MAX_PAYLOAD
  {
    hide HeaderBits, BigEndian;
    if |p| <= MAX_PAYLOAD {
      CutOfFrame(p, tail);
    } else {
      var h := |p| % TWO_32;
      assert Frame(p) + tail == BigEndian(h) + (p + tail);
      HeaderRoundTrip(h, p + tail);
    }
  }

  lemma {:induction false} DeframeEncode(ps: seq<Payload>, tail: seq<byte>)
    requires Sendable(ps)
    ensures var d := Deframe(tail);
      Deframe(Encode(ps) + tail) == d.(payloads := ps + d.payloads)
    decreases |ps|
  {
    hide CutFrame, BigEndian;
    if ps == [] {
      assert Encode(ps) + tail == tail;
    } else {
      var more := Encode(ps[1..]) + tail;
      assert Encode(ps) + tail == Frame(ps[0]) + more;
      CutOfFrame(ps[0], more);
      DeframeEncode(ps[1..], tail);
      assert [ps[0]] + (ps[1..] + Deframe(tail).payloads) == ps + Deframe(tail).payloads;
    }
  }

  // Chunking.

  lemma CutExtends(buf: seq<byte>, more: seq<byte>)
    requires CutFrame(buf).Cut?
    ensures var c := CutFrame(buf); CutFrame(buf + more) == Cut(c.payload, c.rest + more)
  {
  }

  /** Running the loop, then again when more bytes arrived, is running it once on everything. */
  lemma {:induction false} DeframeIncremental(buf: seq<byte>, more: seq<byte>)
    requires Deframe(buf).why == NeedMore
    ensures var d := Deframe(buf); var e := Deframe(d.left + more);
      Deframe(buf + more) == e.(payloads := d.payloads + e.payloads)
    decreases |buf|
  {
    hide CutFrame, Deframe;
    DeframeUnrolled(buf);
    DeframeUnrolled(buf + more);
    var c := CutFrame(buf);
    if c.Cut? {
      CutExtends(buf, more);
      DeframeIncremental(c.rest, more);
      var r := Deframe(c.rest);
      var e := Deframe(r.left + more);
      assert [c.payload] + (r.payloads + e.payloads) == ([c.payload] + r.payloads) + e.payloads;
    } else {
      var e := Deframe(buf + more);
      assert [] + e.payloads == e.payloads;
    }
  }

  function Flatten(chunks: seq<seq<byte>>): seq<byte> {
    if chunks == [] then [] else chunks[0] + Flatten(chunks[1..])
  }

  /** `onMessage` after every chunk, the remainder staying in the buffer; it stops for good when the loop
      stops for another reason than missing bytes. */
  function Feed(left: seq<byte>, chunks: seq<seq<byte>>): Deframed
    decreases |chunks|
  {
    var d := Deframe(left);
    if chunks == [] || d.why != NeedMore then d
    else
      var rest := Feed(d.left + chunks[0], chunks[1..]);
      rest.(payloads := d.payloads + rest.payloads)
  }

  lemma StopExtends(buf: seq<byte>, more: seq<byte>)
    requires CutFrame(buf).Stopped? && CutFrame(buf).why != NeedMore
    ensures CutFrame(buf + more).Stopped? && CutFrame(buf + more).why == CutFrame(buf).why
  {
    hide HeaderBits;
    SameHeader(buf, buf + more);
  }

  /** After an overflow or a bad length further bytes change nothing. */
  lemma {:induction false} StopIsFinal(buf: seq<byte>, more: seq<byte>)
    requires Deframe(buf).why != NeedMore
    ensures Deframe(buf + more).payloads == Deframe(buf).payloads && Deframe(buf + more).why == Deframe(buf).why
    decreases |buf|
  {
    hide CutFrame, Deframe;
    DeframeUnrolled(buf);
    DeframeUnrolled(buf + more);
    if CutFrame(buf).Cut? {
      CutExtends(buf, more);
      StopIsFinal(CutFrame(buf).rest, more);
    } else {
      StopExtends(buf, more);
    }
  }

  /** Whatever the stream holds, decoding it chunk by chunk emits what decoding it at once emits, and stops
      for the same reason; and while it only lacks bytes, it keeps the same remainder. */
  lemma {:induction false} FeedIsDeframe(left: seq<byte>, chunks: seq<seq<byte>>)
    ensures var all := Deframe(left + Flatten(chunks));
      && Feed(left, chunks).payloads == all.payloads && Feed(left, chunks).why == all.why
      && (all.why == NeedMore ==> Feed(left, chunks) == all)
    decreases |chunks|
  {
    hide Deframe;
    var d := Deframe(left);
    if chunks == [] {
      assert left + Flatten(chunks) == left;
    } else if d.why != NeedMore {
      StopIsFinal(left, Flatten(chunks));
    } else {
      FeedIsDeframe(d.left + chunks[0], chunks[1..]);
      assert (d.left + chunks[0]) + Flatten(chunks[1..]) == d.left + Flatten(chunks);
      DeframeIncremental(left, Flatten(chunks));
    }
  }

  /** Two ways of cutting one byte stream into chunks emit the same payloads, stop for the same reason, and
      keep the same remainder while they only lack bytes. */
  lemma ChunkingIrrelevant(a: seq<seq<byte>>, b: seq<seq<byte>>)
    requires Flatten(a) == Flatten(b)
    ensures Feed([], a).payloads == Feed([], b).payloads && Feed([], a).why == Feed([], b).why
    ensures Feed([], a).why == NeedMore ==> Feed([], a) == Feed([], b)
  {
    FeedIsDeframe([], a);
    FeedIsDeframe([], b);
  }

  // Malformed headers.

  /** After any valid frames a header outside the valid range emits nothing more. The first range is an
      `int` overflow, the second waits for bytes that can never be enough, the last makes the string
      constructor throw after the header is gone. */
  lemma BadHeaderAfterFrames(ps: seq<Payload>, h: nat, tail: seq<byte>)
    requires Sendable(ps) && MAX_PAYLOAD < h < TWO_32 && |tail| < TWO_31
    ensures var bad := BigEndian(h) + tail;
      Deframe(Encode(ps) + bad) ==
      if h < TWO_31 then Deframed(ps, bad, Overflow)
      else if h < TWO_32 - 4 then Deframed(ps, bad, NeedMore)
      else Deframed(ps, tail, BadLength)
  {
    var bad := BigEndian(h) + tail;
    HeaderRoundTrip(h, tail);
    assert bad[4..] == tail;
    DeframeEncode(ps, bad);
    assert Deframe(bad).payloads == [];
    assert ps + [] == ps;
  }
}
