/** Sender, byte stream and receiver together: payloads arrive once each, whole and in order. */
module Delivery {
  import opened Buffers
  import opened Codec
  import opened TcpConnections

  // The receiving end.

  datatype ReadResult = Messages(payloads: seq<Payload>, why: Stop) | PeerClosed | ReadError

  class Receiver {
    var inputBuffer: Buffer

    ghost predicate Valid()
      reads this, inputBuffer
    {
      inputBuffer.Valid()
    }

    constructor ()
      ensures Valid() && fresh(inputBuffer) && fresh(inputBuffer.data) && inputBuffer.Contents() == []
    {
      inputBuffer := new Buffer();
    }

    /** `handleRead` with `onMessage` as the message callback. */
    method HandleRead(kernel: seq<byte>, n: int) returns (r: ReadResult)
      requires Valid()
      requires n <= |kernel| && n <= inputBuffer.data.Length - inputBuffer.writer + EXTRA_BUF
      modifies inputBuffer, inputBuffer.data
      ensures Valid() && inputBuffer == old(inputBuffer)
      ensures n < 0 ==> r == ReadError && inputBuffer.Contents() == old(inputBuffer.Contents())
      ensures n == 0 ==> r == PeerClosed && inputBuffer.Contents() == old(inputBuffer.Contents())
      ensures 0 < n ==>
        && r.Messages?
        && Deframed(r.payloads, inputBuffer.Contents(), r.why) == Deframe(old(inputBuffer.Contents()) + kernel[..n])
    {
      var got := inputBuffer.ReadFd(kernel, n);
      if got > 0 {
        var emitted, why := OnMessage(inputBuffer);
        r := Messages(emitted, why);
      } else if got == 0 {
        r := PeerClosed;
      } else {
        r := ReadError;
      }
    }
  }

  // The whole path.

  /** `given` are the payloads of the `sendJson` calls that found the connection up; `sent` those whose
      frames reached `sendInLoop`, in that order; `waiting` those still in the loop's queue; the receiver has
      read `taken` bytes of `conn.wire`, holds `inbox`, and has emitted `emitted`. */
  datatype System = System(
    conn: Conn,
    given: seq<Payload>,
    sent: seq<Payload>,
    waiting: seq<Payload>,
    taken: nat,
    inbox: seq<byte>,
    emitted: seq<Payload>)

  datatype Move =
    | SendJsonMove(payload: Payload, inLoop: bool, n: int)
    | WritableMove(n: int)
    | ShutdownMove(inLoop: bool)
    | FunctorMove(n: int)
    | ReceiveMove(count: nat)

  predicate CanMove(s: System, m: Move) {
    match m
    case SendJsonMove(p, _, n) => |p| <= MAX_PAYLOAD && WriteCount(s.conn, |Frame(p)|, n)
    case WritableMove(n) => WriteCount(s.conn, |s.conn.output|, n)
    case ShutdownMove(_) => true
    case FunctorMove(n) => FunctorCount(s.conn, n) && (s.conn.functors[0].SendFunctor? ==> s.waiting != [])
    case ReceiveMove(n) => 0 < n && s.taken + n <= |s.conn.wire|
  }

  function AfterReceive(s: System, n: nat): System
    requires s.taken + n <= |s.conn.wire|
  {
    var d := Deframe(s.inbox + s.conn.wire[s.taken..s.taken + n]);
    s.(taken := s.taken + n, inbox := d.left, emitted := s.emitted + d.payloads)
  }

  function AfterMove(s: System, m: Move, cb: bool): System
    requires CanMove(s, m)
  {
    match m
    case SendJsonMove(p, inLoop, n) =>
      var s1 := s.(conn := AfterSend(s.conn, Frame(p), inLoop, n, cb));
      if s.conn.state != Connected then s1
      else if inLoop then s1.(given := s.given + [p], sent := s.sent + [p])
      else s1.(given := s.given + [p], waiting := s.waiting + [p])
    case WritableMove(n) => s.(conn := AfterHandleWrite(s.conn, n, cb))
    case ShutdownMove(inLoop) => s.(conn := AfterShutdown(s.conn, inLoop))
    case FunctorMove(n) =>
      var s1 := s.(conn := AfterFunctor(s.conn, n, cb));
      if s.conn.functors[0].SendFunctor? then s1.(sent := s.sent + [s.waiting[0]], waiting := s.waiting[1..]) else s1
    case ReceiveMove(n) => AfterReceive(s, n)
  }

  const START := System(ESTABLISHED, [], [], [], 0, [], [])

  ghost predicate IsPath(states: seq<System>, moves: seq<Move>, cb: bool) {
    && |states| == |moves| + 1
    && forall i | 0 <= i < |moves| ::
         CanMove(states[i], moves[i]) && states[i + 1] == AfterMove(states[i], moves[i], cb)
  }

  /** The queued messages are the frames of the waiting payloads. */
  predicate FramesWait(functors: seq<Functor>, waiting: seq<Payload>)
    decreases functors
  {
    if functors == [] then waiting == []
    else if functors[0].ShutdownFunctor? then FramesWait(functors[1..], waiting)
    else
      && waiting != [] && functors[0].message == Frame(waiting[0])
      && FramesWait(functors[1..], waiting[1..])
  }

  lemma {:induction false} FramesWaitAppend(functors: seq<Functor>, waiting: seq<Payload>, f: Functor, ps: seq<Payload>)
    requires FramesWait(functors, waiting) && FramesWait([f], ps)
    ensures FramesWait(functors + [f], waiting + ps)
    decreases functors
  {
    if functors == [] {
      assert functors + [f] == [f] && waiting + ps == ps;
    } else {
      assert (functors + [f])[1..] == functors[1..] + [f];
      if functors[0].ShutdownFunctor? {
        FramesWaitAppend(functors[1..], waiting, f, ps);
      } else {
        assert (waiting + ps)[1..] == waiting[1..] + ps;
        FramesWaitAppend(functors[1..], waiting[1..], f, ps);
      }
    }
  }

  lemma {:induction false} EncodeAppend(ps: seq<Payload>, p: Payload)
    ensures Encode(ps + [p]) == Encode(ps) + Frame(p)
  {
    if ps == [] {
      assert [p][1..] == [] && ps + [p] == [p];
      assert Encode([p]) == Frame(p) + Encode([]);
    } else {
      assert (ps + [p])[1..] == ps[1..] + [p];
      EncodeAppend(ps[1..], p);
      assert Frame(ps[0]) + (Encode(ps[1..]) + Frame(p)) == Encode(ps) + Frame(p);
    }
  }

  /** Each payload given is on its way, or still waits for the loop thread. */
  predicate Accounted(s: System) {
    multiset(s.given) == multiset(s.sent) + multiset(s.waiting)
  }

  ghost predicate Inv(s: System) {
    && Conserving(s.conn)
    && (ShutdownFunctor in s.conn.functors ==> s.conn.state == Disconnecting)
    && FramesWait(s.conn.functors, s.waiting)
    && Sendable(s.sent) && Sendable(s.waiting)
    && Accounted(s)
    && s.conn.accepted == Encode(s.sent)
    && s.taken <= |s.conn.wire|
    && Deframe(s.conn.wire[..s.taken]) == Deframed(s.emitted, s.inbox, NeedMore)
  }

  // Any prefix of an encoding decodes to a prefix.

  lemma PartialFrame(p: Payload, tail: seq<byte>, k: nat)
    requires |p| <= MAX_PAYLOAD && k < |Frame(p)|
    ensures CutFrame((Frame(p) + tail)[..k]) == Stopped(NeedMore, (Frame(p) + tail)[..k])
  {
    hide HeaderBits, BigEndian;
    var all := Frame(p) + tail;
    if 4 <= k {
      assert all == BigEndian(|p|) + (p + tail);
      HeaderRoundTrip(|p|, p + tail);
      assert all[..k][..4] == all[..4];
      SameHeader(all[..k], all);
    }
  }

  lemma CutOfNothing()
    ensures CutFrame([]) == Stopped(NeedMore, [])
  {
  }

  lemma {:induction false} PrefixDeframe(ps: seq<Payload>, k: nat)
    requires Sendable(ps) && k <= |Encode(ps)|
    ensures var d := Deframe(Encode(ps)[..k]);
      && d.why == NeedMore && d.payloads <= ps
      && Encode(d.payloads) + d.left == Encode(ps)[..k]
  {
    hide CutFrame, Deframe;
    var b := Encode(ps)[..k];
    DeframeUnrolled(b);
    if ps == [] {
      assert b == [];
      assert CutFrame(b) == Stopped(NeedMore, b) by { CutOfNothing(); }
    } else if k < |Frame(ps[0])| {
      PartialFrame(ps[0], Encode(ps[1..]), k);
      assert Encode([]) + b == b;
    } else {
      var more := Encode(ps[1..])[..k - |Frame(ps[0])|];
      assert b == Frame(ps[0]) + more;
      CutOfFrame(ps[0], more);
      PrefixDeframe(ps[1..], k - |Frame(ps[0])|);
      OnePayloadMore(ps, Deframe(more), more);
    }
  }

  lemma OnePayloadMore(ps: seq<Payload>, e: Deframed, more: seq<byte>)
    requires ps != [] && e.payloads <= ps[1..] && Encode(e.payloads) + e.left == more
    ensures [ps[0]] + e.payloads <= ps
    ensures Encode([ps[0]] + e.payloads) + e.left == Frame(ps[0]) + more
  {
    hide Frame;
    assert ([ps[0]] + e.payloads)[1..] == e.payloads;
    assert (Frame(ps[0]) + Encode(e.payloads)) + e.left == Frame(ps[0]) + (Encode(e.payloads) + e.left);
  }

  // Every move keeps the invariant.

  lemma ReceiveKeeps(s: System, n: nat)
    requires Inv(s) && s.taken + n <= |s.conn.wire|
    ensures Inv(AfterReceive(s, n))
  {
    hide CutFrame, Deframe;
    var w := s.conn.wire;
    assert w[..s.taken] + w[s.taken..s.taken + n] == w[..s.taken + n];
    DeframeIncremental(w[..s.taken], w[s.taken..s.taken + n]);
    assert w[..s.taken + n] == Encode(s.sent)[..s.taken + n];
    PrefixDeframe(s.sent, s.taken + n);
  }

  lemma WireGrows(c: Conn, e: Event, cb: bool)
    requires Enabled(c, e)
    ensures c.wire <= Step(c, e, cb).wire
  {
  }

  function ToEvent(m: Move): Event
    requires !m.ReceiveMove?
  {
    match m
    case SendJsonMove(p, inLoop, n) => SendEvent(Frame(p), inLoop, n)
    case WritableMove(n) => WritableEvent(n)
    case ShutdownMove(inLoop) => ShutdownEvent(inLoop)
    case FunctorMove(n) => FunctorEvent(n)
  }

  lemma QueueKeeps(s: System, m: Move, cb: bool)
    requires Inv(s) && CanMove(s, m) && !m.ReceiveMove?
    ensures var d := AfterMove(s, m, cb); FramesWait(d.conn.functors, d.waiting)
  {
    if m.SendJsonMove? && s.conn.state == Connected && !m.inLoop {
      assert FramesWait([], []);
      FramesWaitAppend(s.conn.functors, s.waiting, SendFunctor(Frame(m.payload)), [m.payload]);
    } else if m.ShutdownMove? && s.conn.state == Connected && !m.inLoop {
      FramesWaitAppend(s.conn.functors, s.waiting, ShutdownFunctor, []);
      assert s.waiting + [] == s.waiting;
    }
  }

  lemma AcceptedKeeps(s: System, m: Move, cb: bool)
    requires s.conn.accepted == Encode(s.sent) && FramesWait(s.conn.functors, s.waiting)
    requires CanMove(s, m) && !m.ReceiveMove?
    ensures var d := AfterMove(s, m, cb); d.conn.accepted == Encode(d.sent)
  {
    if m.SendJsonMove? && s.conn.state == Connected && m.inLoop {
      EncodeAppend(s.sent, m.payload);
    } else if m.FunctorMove? && s.conn.functors[0].SendFunctor? {
      EncodeAppend(s.sent, s.waiting[0]);
    }
  }

  lemma GivenKeeps(s: System, m: Move, cb: bool)
    requires CanMove(s, m) && Accounted(s)
    ensures Accounted(AfterMove(s, m, cb))
  {
    if m.FunctorMove? && s.waiting != [] {
      assert s.waiting == [s.waiting[0]] + s.waiting[1..];
    }
  }

  lemma SenderMoveShape(s: System, m: Move, cb: bool)
    requires CanMove(s, m) && !m.ReceiveMove?
    requires Sendable(s.sent) && Sendable(s.waiting)
    ensures var d := AfterMove(s, m, cb);
      && Enabled(s.conn, ToEvent(m)) && d.conn == Step(s.conn, ToEvent(m), cb)
      && d.taken == s.taken && d.inbox == s.inbox && d.emitted == s.emitted
      && Sendable(d.sent) && Sendable(d.waiting)
  {
  }

  lemma SenderKeeps(s: System, m: Move, cb: bool)
    requires Inv(s) && CanMove(s, m) && !m.ReceiveMove?
    ensures Inv(AfterMove(s, m, cb))
  {
    hide Deframe, AfterMove, Step, Encode, FramesWait, Frame, Accounted, Sendable, Enabled, CanMove, ToEvent;
    hide Conserving;
    SenderMoveShape(s, m, cb);
    StepConserves(s.conn, ToEvent(m), cb);
    WireGrows(s.conn, ToEvent(m), cb);
    QueueKeeps(s, m, cb);
    AcceptedKeeps(s, m, cb);
    GivenKeeps(s, m, cb);
    assert AfterMove(s, m, cb).conn.wire[..s.taken] == s.conn.wire[..s.taken];
  }

  lemma MoveKeeps(s: System, m: Move, cb: bool)
    requires Inv(s) && CanMove(s, m)
    ensures Inv(AfterMove(s, m, cb))
  {
    hide Inv;
    if m.ReceiveMove? {
      ReceiveKeeps(s, m.count);
    } else {
      SenderKeeps(s, m, cb);
    }
  }

  /** In every reachable state: what came out is a prefix of what went in, and once all bytes have arrived it
      is all of it; and each payload given went in once or still waits for the loop thread. */
  ghost predicate InOrderOnce(s: System) {
    && s.emitted <= s.sent
    && Accounted(s)
    && (s.taken == |s.conn.wire| && s.conn.output == [] ==> s.emitted == s.sent && s.inbox == [])
  }

  lemma InvDelivers(s: System)
    requires Inv(s)
    ensures InOrderOnce(s)
  {
    hide CutFrame, Deframe;
    assert s.conn.wire[..s.taken] == Encode(s.sent)[..s.taken];
    PrefixDeframe(s.sent, s.taken);
    if s.taken == |s.conn.wire| && s.conn.output == [] {
      assert s.conn.wire[..s.taken] == Encode(s.sent) + [];
      DeframeEncode(s.sent, []);
      DeframeUnrolled([]);
      CutOfNothing();
      assert s.sent + [] == s.sent;
    }
  }

  lemma {:induction false} PathKeeps(states: seq<System>, moves: seq<Move>, cb: bool, i: nat)
    requires IsPath(states, moves, cb) && states[0] == START && i < |states|
    ensures Inv(states[i])
  {
    if i == 0 {
      assert START.conn.wire[..0] == [];
      CutOfNothing();
    } else {
      PathKeeps(states, moves, cb, i - 1);
      MoveKeeps(states[i - 1], moves[i - 1], cb);
    }
  }

  /** End-to-end delivery: for any payloads, partial writes, queueing, shutdowns and read chunks. */
  lemma EndToEndDelivery(states: seq<System>, moves: seq<Move>, cb: bool, i: nat)
    requires IsPath(states, moves, cb) && states[0] == START && i < |states|
    ensures InOrderOnce(states[i])
  {
    PathKeeps(states, moves, cb, i);
    InvDelivers(states[i]);
  }

  // The order of the `sendJson` calls.

  predicate InGivenOrder(s: System) {
    s.given == s.sent + s.waiting
  }

  /** The loop thread sends `p` past a different payload that still waits in the queue. */
  predicate Overtakes(s: System, m: Move) {
    m.SendJsonMove? && m.inLoop && s.conn.state == Connected && exists w :: w in s.waiting && w != m.payload
  }

  lemma {:induction false} RotationAt(ps: seq<Payload>, p: Payload, k: nat)
    requires ps + [p] == [p] + ps && k < |ps|
    ensures ps[k] == p
  {
    assert ps[k] == (ps + [p])[k] == ([p] + ps)[k];
    if k == 0 {
    } else {
      RotationAt(ps, p, k - 1);
    }
  }

  lemma RotationIff(ps: seq<Payload>, p: Payload)
    ensures ps + [p] == [p] + ps <==> forall w :: w in ps ==> w == p
  {
    if ps + [p] == [p] + ps {
      forall k | 0 <= k < |ps|
        ensures ps[k] == p
      {
        RotationAt(ps, p, k);
      }
    }
    if forall w :: w in ps ==> w == p {
      assert forall k | 0 <= k < |ps| :: ps[k] in ps;
      assert ps + [p] == [p] + ps;
    }
  }

  lemma PrefixCancels(a: seq<Payload>, b: seq<Payload>, c: seq<Payload>)
    ensures a + b == a + c <==> b == c
  {
    if a + b == a + c {
      assert b == (a + b)[|a|..] && c == (a + c)[|a|..];
    }
  }

  /** A move keeps the order of the calls exactly when it overtakes nothing. */
  lemma OrderKeptIff(s: System, m: Move, cb: bool)
    requires CanMove(s, m) && InGivenOrder(s)
    ensures InGivenOrder(AfterMove(s, m, cb)) <==> !Overtakes(s, m)
  {
    if m.SendJsonMove? && s.conn.state == Connected && m.inLoop {
      InLoopSendIff(s, m, cb);
    } else if m.SendJsonMove? && s.conn.state == Connected {
      assert s.sent + s.waiting + [m.payload] == s.sent + (s.waiting + [m.payload]);
    } else if m.FunctorMove? && s.conn.functors[0].SendFunctor? {
      assert s.sent + [s.waiting[0]] + s.waiting[1..] == s.sent + s.waiting;
    }
  }

  lemma InLoopSendIff(s: System, m: Move, cb: bool)
    requires CanMove(s, m) && InGivenOrder(s) && m.SendJsonMove? && m.inLoop && s.conn.state == Connected
    ensures InGivenOrder(AfterMove(s, m, cb)) <==> !Overtakes(s, m)
  {
    var p := m.payload;
    RotationIff(s.waiting, p);
    PrefixCancels(s.sent, s.waiting + [p], [p] + s.waiting);
    assert s.sent + s.waiting + [p] == s.sent + (s.waiting + [p]);
    assert s.sent + [p] + s.waiting == s.sent + ([p] + s.waiting);
    assert AfterMove(s, m, cb).given == s.given + [p];
    assert AfterMove(s, m, cb).sent == s.sent + [p] && AfterMove(s, m, cb).waiting == s.waiting;
  }

  /** In runs where no move overtakes, the payloads come out in the order of the calls. */
  lemma {:induction false} OrderAsGiven(states: seq<System>, moves: seq<Move>, cb: bool, i: nat)
    requires IsPath(states, moves, cb) && states[0] == START && i < |states|
    requires forall k | 0 <= k < i :: !Overtakes(states[k], moves[k])
    ensures InGivenOrder(states[i]) && states[i].emitted <= states[i].given
  {
    EndToEndDelivery(states, moves, cb, i);
    hide AfterMove, CanMove, Overtakes;
    if i == 0 {
    } else {
      OrderAsGiven(states, moves, cb, i - 1);
      OrderKeptIff(states[i - 1], moves[i - 1], cb);
    }
  }

  /** A run that does overtake: `p` waits for the loop thread, which sends `q` before it runs the functor. */
  lemma QueuedIsOvertaken(p: Payload, q: Payload, n: int, cb: bool)
    requires |p| <= MAX_PAYLOAD && |q| <= MAX_PAYLOAD && p != q && -1 <= n <= |Frame(q)|
    ensures var m1, m2 := SendJsonMove(p, false, 0), SendJsonMove(q, true, n);
      && CanMove(START, m1)
      && var s1 := AfterMove(START, m1, cb);
      && CanMove(s1, m2) && Overtakes(s1, m2)
      && var s2 := AfterMove(s1, m2, cb);
      && s2.given == [p, q] && s2.sent == [q] && s2.waiting == [p]
  {
    var s1 := AfterMove(START, SendJsonMove(p, false, 0), cb);
    assert s1.waiting == [] + [p] == [p] && s1.given == [p];
    assert p in s1.waiting;
  }

  lemma FullWrite(s: System, cb: bool)
    requires Inv(s) && !s.conn.halfClosed
    ensures var w := WritableMove(|s.conn.output|);
      CanMove(s, w) && AfterMove(s, w, cb).conn.output == [] && AfterMove(s, w, cb).sent == s.sent
  {
    hide Deframe, Encode, Accounted, FramesWait;
    assert s.conn.output[|s.conn.output|..] == [];
  }

  lemma FullRead(s: System)
    requires Inv(s) && s.conn.output == []
    ensures s.taken <= |s.conn.wire|
    ensures s.taken < |s.conn.wire| ==> AfterReceive(s, |s.conn.wire| - s.taken).emitted == s.sent
    ensures s.taken == |s.conn.wire| ==> s.emitted == s.sent
  {
    hide *;
    TakenInWire(s);
    if s.taken == |s.conn.wire| {
      AllReceived(s);
      return;
    }
    var d := AfterReceive(s, |s.conn.wire| - s.taken);
    ReceivedShape(s, |s.conn.wire| - s.taken);
    ReceiveKeeps(s, |s.conn.wire| - s.taken);
    AllReceived(d);
  }

  lemma AllReceived(s: System)
    requires Inv(s) && s.taken == |s.conn.wire| && s.conn.output == []
    ensures s.emitted == s.sent
  {
    hide Inv;
    InvDelivers(s);
  }

  lemma TakenInWire(s: System)
    requires Inv(s)
    ensures s.taken <= |s.conn.wire|
  {
  }

  lemma ReceivedShape(s: System, n: nat)
    requires s.taken + n <= |s.conn.wire|
    ensures var d := AfterReceive(s, n); d.conn == s.conn && d.taken == s.taken + n && d.sent == s.sent
  {
  }

  lemma ReceiveIsMove(s: System, n: nat, cb: bool)
    requires 0 < n && s.taken + n <= |s.conn.wire|
    ensures CanMove(s, ReceiveMove(n)) && AfterMove(s, ReceiveMove(n), cb) == AfterReceive(s, n)
  {
    hide AfterReceive;
  }

  /** From any reachable state whose write side is open, one full write and one full read deliver
      everything accepted so far. */
  lemma BacklogCanDrain(s: System, cb: bool)
    requires Inv(s) && !s.conn.halfClosed
    ensures var w := WritableMove(|s.conn.output|);
      && CanMove(s, w)
      && var s1 := AfterMove(s, w, cb);
      && s1.taken <= |s1.conn.wire|
      && var r := ReceiveMove(|s1.conn.wire| - s1.taken);
      && (r.count == 0 ==> s1.emitted == s.sent)
      && (0 < r.count ==> CanMove(s1, r) && AfterMove(s1, r, cb).emitted == s.sent)
  {
    var w := WritableMove(|s.conn.output|);
    hide *;
    FullWrite(s, cb);
    MoveKeeps(s, w, cb);
    var s1 := AfterMove(s, w, cb);
    FullRead(s1);
    if s1.taken < |s1.conn.wire| {
      ReceiveIsMove(s1, |s1.conn.wire| - s1.taken, cb);
    }
  }
}
