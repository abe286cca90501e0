/** The sending half of a connection: direct writes, the output buffer, and the delayed half-close. */
module TcpConnections {
  import opened Buffers

  datatype StateE = Connecting | Connected | Disconnecting | Disconnected

  /** What other threads leave for the loop thread. */
  datatype Functor = SendFunctor(message: seq<byte>) | ShutdownFunctor

  /** A connection as seen from outside. `accepted` is everything given to `sendInLoop` and `wire`
      everything the kernel took, both since the connection was made; `functors` is the part of the
      loop's queue that belongs to this connection. `completions` counts queued write-complete callbacks. */
  datatype Conn = Conn(
    state: StateE,
    output: seq<byte>,
    writing: bool,
    functors: seq<Functor>,
    halfClosed: bool,
    accepted: seq<byte>,
    wire: seq<byte>,
    completions: nat)

  /** What `::write` of `size` bytes may return: an error, or any count up to `size`; after the write side
      was shut down it never takes a byte. */
  predicate WriteCount(c: Conn, size: nat, n: int) {
    -1 <= n <= size && (c.halfClosed ==> n <= 0)
  }

  function Completed(c: Conn, hasCallback: bool): Conn {
    if hasCallback then c.(completions := c.completions + 1) else c
  }

  function AfterSendInLoop(c: Conn, message: seq<byte>, n: int, hasCallback: bool): Conn
    requires WriteCount(c, |message|, n)
  {
    var direct := !c.writing && c.output == [];
    var nwrote := if direct && 0 <= n then n else 0;
    var c1 := if direct && n == |message| then Completed(c, hasCallback) else c;
    var c2 := c1.(accepted := c.accepted + message, wire := if direct && 0 <= n then c.wire + message[..n] else c.wire);
    if nwrote < |message| then c2.(output := c.output + message[nwrote..], writing := true) else c2
  }

  function AfterShutdownInLoop(c: Conn): Conn {
    if !c.writing then c.(halfClosed := true) else c
  }

  function AfterHandleWrite(c: Conn, n: int, hasCallback: bool): Conn
    requires WriteCount(c, |c.output|, n)
  {
    if !c.writing || n <= 0 then c
    else
      var c1 := c.(wire := c.wire + c.output[..n], output := c.output[n..]);
      if c1.output != [] then c1
      else
        var c2 := Completed(c1.(writing := false), hasCallback);
        if c2.state == Disconnecting then AfterShutdownInLoop(c2) else c2
  }

  function AfterSend(c: Conn, message: seq<byte>, inLoop: bool, n: int, hasCallback: bool): Conn
    requires WriteCount(c, |message|, n)
  {
    if c.state != Connected then c
    else if inLoop then AfterSendInLoop(c, message, n, hasCallback)
    else c.(functors := c.functors + [SendFunctor(message)])
  }

  function AfterShutdown(c: Conn, inLoop: bool): Conn {
    if c.state != Connected then c
    else
      var c1 := c.(state := Disconnecting);
      if inLoop then AfterShutdownInLoop(c1) else c1.(functors := c.functors + [ShutdownFunctor])
  }

  predicate FunctorCount(c: Conn, n: int) {
    c.functors != [] && (c.functors[0].SendFunctor? ==> WriteCount(c, |c.functors[0].message|, n))
  }

  function AfterFunctor(c: Conn, n: int, hasCallback: bool): Conn
    requires FunctorCount(c, n)
  {
    var c1 := c.(functors := c.functors[1..]);
    match c.functors[0]
    case SendFunctor(message) => AfterSendInLoop(c1, message, n, hasCallback)
    case ShutdownFunctor => AfterShutdownInLoop(c1)
  }

  // The class.

  class TcpConnection {
    var state: StateE
    var outputBuffer: Buffer
    var writing: bool
    var halfClosed: bool
    var functors: seq<Functor>
    var completions: nat
    var hasCallback: bool
    ghost var accepted: seq<byte>
    ghost var wire: seq<byte>

    ghost predicate Valid()
      reads this, outputBuffer
    {
      outputBuffer.Valid()
    }

    ghost function View(): Conn
      requires Valid()
      reads this, outputBuffer, outputBuffer.data
    {
      Conn(state, outputBuffer.Contents(), writing, functors, halfClosed, accepted, wire, completions)
    }

    constructor (hasCallback: bool)
      ensures Valid() && fresh(outputBuffer) && fresh(outputBuffer.data)
      ensures View() == Conn(Connecting, [], false, [], false, [], [], 0) && this.hasCallback == hasCallback
    {
      state, writing, halfClosed, functors, completions := Connecting, false, false, [], 0;
      this.hasCallback := hasCallback;
      outputBuffer := new Buffer();
      accepted, wire := [], [];
    }

    method ConnectEstablished()
      requires Valid()
      modifies `state
      ensures Valid() && View() == old(View()).(state := Connected)
    {
      state := Connected;
    }

    /** `::write`: the kernel takes the first `n` bytes. */
    method KernelWrite(bytes: seq<byte>, n: int)
      requires Valid() && WriteCount(View(), |bytes|, n)
      modifies `wire
      ensures Valid()
      ensures View() == old(View()).(wire := if n < 0 then old(wire) else old(wire) + bytes[..n])
    {
      wire := if n < 0 then wire else wire + bytes[..n];
    }

    method QueueWriteComplete()
      requires Valid()
      modifies `completions
      ensures Valid() && View() == Completed(old(View()), hasCallback)
    {
      if hasCallback {
        completions := completions + 1;
      }
    }

    method SendInLoop(message: seq<byte>, n: int)
      requires Valid() && WriteCount(View(), |message|, n)
      modifies this, outputBuffer, outputBuffer.data
      ensures outputBuffer == old(outputBuffer)
      ensures outputBuffer.data == old(outputBuffer.data) || fresh(outputBuffer.data)
      ensures Valid() && hasCallback == old(hasCallback)
      ensures View() == AfterSendInLoop(old(View()), message, n, hasCallback)
    {
      hide Appended, Ensured, MadeSpace;
      accepted := accepted + message;
      var nwrote := 0;
      var readable := outputBuffer.ReadableBytes();
      assert readable == 0 <==> outputBuffer.Contents() == [];
      if !writing && readable == 0 {
        nwrote := n;
        KernelWrite(message, n);
        if nwrote >= 0 {
          if nwrote < |message| {
          } else {
            QueueWriteComplete();
          }
        } else {
          nwrote := 0;
        }
      }
      if nwrote < |message| {
        outputBuffer.Append(message[nwrote..]);
        if !writing {
          writing := true;
        }
      }
    }

    method ShutdownInLoop()
      requires Valid()
      modifies `halfClosed
      ensures Valid() && View() == AfterShutdownInLoop(old(View()))
    {
      if !writing {
        halfClosed := true;
      }
    }

    method HandleWrite(n: int)
      requires Valid() && WriteCount(View(), |View().output|, n)
      modifies this, outputBuffer
      ensures outputBuffer == old(outputBuffer) && outputBuffer.data == old(outputBuffer.data)
      ensures Valid() && hasCallback == old(hasCallback)
      ensures View() == AfterHandleWrite(old(View()), n, hasCallback)
    {
      if writing {
        var readable := outputBuffer.ReadableBytes();
        var bytes := outputBuffer.Peek(readable);
        assert bytes == outputBuffer.Contents();
        KernelWrite(bytes, n);
        if n > 0 {
          outputBuffer.Retrieve(n);
          readable := outputBuffer.ReadableBytes();
          assert readable == 0 <==> outputBuffer.Contents() == [];
          if readable == 0 {
            writing := false;
            QueueWriteComplete();
            if state == Disconnecting {
              ShutdownInLoop();
            }
          }
        }
      }
    }

    method Send(message: seq<byte>, inLoop: bool, n: int)
      requires Valid() && WriteCount(View(), |message|, n)
      modifies this, outputBuffer, outputBuffer.data
      ensures outputBuffer == old(outputBuffer)
      ensures outputBuffer.data == old(outputBuffer.data) || fresh(outputBuffer.data)
      ensures Valid() && hasCallback == old(hasCallback)
      ensures View() == AfterSend(old(View()), message, inLoop, n, hasCallback)
    {
      if state == Connected {
        if inLoop {
          SendInLoop(message, n);
        } else {
          functors := functors + [SendFunctor(message)];
        }
      }
    }

    method Shutdown(inLoop: bool)
      requires Valid()
      modifies `state, `functors, `halfClosed
      ensures Valid() && View() == AfterShutdown(old(View()), inLoop)
    {
      if state == Connected {
        state := Disconnecting;
        if inLoop {
          ShutdownInLoop();
        } else {
          functors := functors + [ShutdownFunctor];
        }
      }
    }

    method RunFunctor(n: int)
      requires Valid() && FunctorCount(View(), n)
      modifies this, outputBuffer, outputBuffer.data
      ensures outputBuffer == old(outputBuffer)
      ensures outputBuffer.data == old(outputBuffer.data) || fresh(outputBuffer.data)
      ensures Valid() && hasCallback == old(hasCallback)
      ensures View() == AfterFunctor(old(View()), n, hasCallback)
    {
      var f := functors[0];
      functors := functors[1..];
      match f
      case SendFunctor(message) => SendInLoop(message, n);
      case ShutdownFunctor => ShutdownInLoop();
    }
  }

  // Runs.

  datatype Event =
    | SendEvent(message: seq<byte>, inLoop: bool, n: int)
    | WritableEvent(n: int)
    | ShutdownEvent(inLoop: bool)
    | FunctorEvent(n: int)

  predicate Enabled(c: Conn, e: Event) {
    match e
    case SendEvent(message, _, n) => WriteCount(c, |message|, n)
    case WritableEvent(n) => WriteCount(c, |c.output|, n)
    case ShutdownEvent(_) => true
    case FunctorEvent(n) => FunctorCount(c, n)
  }

  function Step(c: Conn, e: Event, hasCallback: bool): Conn
    requires Enabled(c, e)
  {
    match e
    case SendEvent(message, inLoop, n) => AfterSend(c, message, inLoop, n, hasCallback)
    case WritableEvent(n) => AfterHandleWrite(c, n, hasCallback)
    case ShutdownEvent(inLoop) => AfterShutdown(c, inLoop)
    case FunctorEvent(n) => AfterFunctor(c, n, hasCallback)
  }

  ghost predicate IsRun(states: seq<Conn>, events: seq<Event>, hasCallback: bool) {
    && |states| == |events| + 1
    && forall i | 0 <= i < |events| ::
         Enabled(states[i], events[i]) && states[i + 1] == Step(states[i], events[i], hasCallback)
  }

  const ESTABLISHED := Conn(Connected, [], false, [], false, [], [], 0)

  /** Nothing accepted is lost, duplicated or reordered; the channel watches for writability exactly while
      bytes wait; and once half-closed the wire holds still. */
  predicate Conserving(c: Conn) {
    && c.wire + c.output == c.accepted
    && (c.writing <==> c.output != [])
    && (c.halfClosed ==> c.state == Disconnecting)
  }

  lemma StepConserves(c: Conn, e: Event, hasCallback: bool)
    requires Enabled(c, e) && Conserving(c)
    requires ShutdownFunctor in c.functors ==> c.state == Disconnecting
    ensures var d := Step(c, e, hasCallback);
      && Conserving(d)
      && (ShutdownFunctor in d.functors ==> d.state == Disconnecting)
      && (c.halfClosed ==> d.halfClosed && d.wire == c.wire)
      && (d.halfClosed && !c.halfClosed ==> d.output == [] && d.wire == d.accepted)
  {
    if e.SendEvent? && c.state == Connected && e.inLoop {
      SendConserves(c, e.message, e.n, hasCallback);
    } else if e.FunctorEvent? && c.functors[0].SendFunctor? {
      SendConserves(c.(functors := c.functors[1..]), c.functors[0].message, e.n, hasCallback);
    } else if e.WritableEvent? && c.writing && 0 < e.n {
      assert (c.wire + c.output[..e.n]) + c.output[e.n..] == c.wire + c.output;
    }
  }

  lemma Resplit(wire: seq<byte>, output: seq<byte>, message: seq<byte>, k: nat)
    requires k <= |message|
    ensures wire + (output + message) == wire + output + message
    ensures wire + [] == wire
    ensures (wire + message[..k]) + message[k..] == wire + message
    ensures message[0..] == message && message[..|message|] == message && [] + message[k..] == message[k..]
  {
  }

  lemma SendConserves(c: Conn, message: seq<byte>, n: int, hasCallback: bool)
    requires WriteCount(c, |message|, n) && Conserving(c)
    ensures var d := AfterSendInLoop(c, message, n, hasCallback);
      Conserving(d) && d.state == c.state && d.functors == c.functors && d.halfClosed == c.halfClosed
      && (c.halfClosed ==> d.wire == c.wire)
  {
    var k := if 0 <= n then n else 0;
    Resplit(c.wire, c.output, message, k);
    if c.writing || c.output != [] {
      assert AfterSendInLoop(c, message, n, hasCallback).output ==
        if message == [] then c.output else c.output + message;
    }
  }

  /** Wire conservation and clean half-close, over every run. */
  lemma {:induction false} RunConserves(states: seq<Conn>, events: seq<Event>, hasCallback: bool, i: nat)
    requires IsRun(states, events, hasCallback) && states[0] == ESTABLISHED && i < |states|
    ensures Conserving(states[i])
    ensures ShutdownFunctor in states[i].functors ==> states[i].state == Disconnecting
    ensures 0 < i ==>
      && (states[i - 1].halfClosed ==> states[i].halfClosed && states[i].wire == states[i - 1].wire)
      && (states[i].halfClosed && !states[i - 1].halfClosed ==>
            states[i].output == [] && states[i].wire == states[i].accepted)
  {
    if i == 0 {
    } else {
      RunConserves(states, events, hasCallback, i - 1);
      StepConserves(states[i - 1], events[i - 1], hasCallback);
    }
  }

  // What each step gets done.

  /** `::write` is called, and every byte the kernel takes is put on the wire: directly when nothing waits, or
      from the buffer when the socket gets writable. Nothing else writes. */
  lemma BytesTaken(c: Conn, e: Event, hasCallback: bool)
    requires Enabled(c, e) && Conserving(c)
    ensures var d := Step(c, e, hasCallback);
      var n := if (e.WritableEvent? && c.writing) || (SendsNow(c, e) && c.output == []) then e.n else 0;
      |d.wire| == |c.wire| + if n < 0 then 0 else n
  {
  }

  /** The event runs `sendInLoop`. */
  predicate SendsNow(c: Conn, e: Event) {
    || (e.SendEvent? && e.inLoop && c.state == Connected)
    || (e.FunctorEvent? && c.functors != [] && c.functors[0].SendFunctor?)
  }

  /** A message that goes out whole at once is signalled like an emptied buffer. */
  lemma WholeWriteSignalled(c: Conn, e: Event, hasCallback: bool)
    requires Enabled(c, e) && Conserving(c) && SendsNow(c, e) && c.output == []
    ensures var d := Step(c, e, hasCallback);
      var size := if e.SendEvent? then |e.message| else |c.functors[0].message|;
      d.completions == c.completions + if e.n == size && hasCallback then 1 else 0
  {
  }

  /** `shutdown` takes effect on a connected connection only, and then it is done, or waits for the buffer, or
      for the loop thread. */
  lemma ShutdownOutcome(c: Conn, inLoop: bool)
    requires Conserving(c)
    ensures var d := AfterShutdown(c, inLoop);
      && (c.state != Connected ==> d == c)
      && (c.state == Connected ==>
            && d.state == Disconnecting
            && (inLoop ==> d.functors == c.functors && (d.halfClosed <==> c.output == []))
            && (!inLoop ==> d.functors == c.functors + [ShutdownFunctor] && d.halfClosed == c.halfClosed))
      && d.wire == c.wire && d.output == c.output && d.accepted == c.accepted && d.completions == c.completions
  {
  }

  /** A queued functor runs once: a send is accepted then, whatever the state; a shutdown half-closes at once
      if nothing waits. */
  lemma FunctorOutcome(c: Conn, n: int, hasCallback: bool)
    requires FunctorCount(c, n) && Conserving(c)
    ensures var d, f := AfterFunctor(c, n, hasCallback), c.functors[0];
      && d.functors == c.functors[1..] && d.state == c.state
      && d.accepted == c.accepted + (if f.SendFunctor? then f.message else [])
      && (d.halfClosed <==> c.halfClosed || (f.ShutdownFunctor? && c.output == []))
  {
  }

  /** A shutdown always gets done: once its functor has run and the buffer is empty, the connection is
      half-closed. */
  predicate ShutdownDone(c: Conn) {
    c.state == Disconnecting && ShutdownFunctor !in c.functors && c.output == [] ==> c.halfClosed
  }

  lemma StepShutsDown(c: Conn, e: Event, hasCallback: bool)
    requires Enabled(c, e) && Conserving(c) && ShutdownDone(c)
    ensures ShutdownDone(Step(c, e, hasCallback))
  {
    if e.FunctorEvent? {
      assert c.functors == [c.functors[0]] + c.functors[1..];
    } else if e.SendEvent? && c.state == Connected && !e.inLoop {
      assert ShutdownFunctor in c.functors ==> ShutdownFunctor in c.functors + [SendFunctor(e.message)];
    }
  }

  /** In every run from an established connection: `shutdown` leaves the connected state for good, and ends in
      a half-close as soon as its functor has run and the buffer is empty. */
  lemma {:induction false} ShutdownGetsDone(states: seq<Conn>, events: seq<Event>, hasCallback: bool, i: nat)
    requires IsRun(states, events, hasCallback) && states[0] == ESTABLISHED && i < |states|
    ensures states[i].state == Connected || states[i].state == Disconnecting
    ensures states[i].state == Disconnecting && ShutdownFunctor !in states[i].functors && states[i].output == [] ==>
      states[i].halfClosed
    ensures states[i].state == Disconnecting <==> exists k :: 0 <= k < i && events[k].ShutdownEvent?
  {
    if i == 0 {
    } else {
      ShutdownGetsDone(states, events, hasCallback, i - 1);
      RunConserves(states, events, hasCallback, i - 1);
      StepShutsDown(states[i - 1], events[i - 1], hasCallback);
      StateChanges(states[i - 1], events[i - 1], hasCallback);
      hide Step, Enabled, Conserving;
      if events[i - 1].ShutdownEvent? {
      } else if states[i].state == Disconnecting {
        var k :| 0 <= k < i - 1 && events[k].ShutdownEvent?;
      }
    }
  }

  lemma StateChanges(c: Conn, e: Event, hasCallback: bool)
    requires Enabled(c, e) && (c.state == Connected || c.state == Disconnecting)
    ensures Step(c, e, hasCallback).state == if e.ShutdownEvent? then Disconnecting else c.state
  {
  }

  // What a half-close leaves behind.

  function Queued(functors: seq<Functor>): seq<byte> {
    if functors == [] then []
    else (if functors[0].SendFunctor? then functors[0].message else []) + Queued(functors[1..])
  }

  lemma {:induction false} QueuedAppend(functors: seq<Functor>, f: Functor)
    ensures Queued(functors + [f]) == Queued(functors) + if f.SendFunctor? then f.message else []
  {
    if functors == [] {
      assert functors + [f] == [f] && [f][1..] == [];
    } else {
      assert (functors + [f])[1..] == functors[1..] + [f];
      QueuedAppend(functors[1..], f);
    }
  }

  /** While connected, `send` adds its message behind what was taken so far, now or by the queue; from
      `shutdown` on, what was taken is fixed: it is accepted already, or queued. */
  lemma SendTakes(c: Conn, message: seq<byte>, inLoop: bool, n: int, hasCallback: bool)
    requires WriteCount(c, |message|, n)
    ensures var d := AfterSend(c, message, inLoop, n, hasCallback);
      && d.state == c.state
      && (c.state != Connected ==> d == c)
      && (c.state == Connected && inLoop ==> d.accepted == c.accepted + message && d.functors == c.functors)
      && (c.state == Connected && !inLoop ==>
            d.accepted == c.accepted && Queued(d.functors) == Queued(c.functors) + message)
  {
    QueuedAppend(c.functors, SendFunctor(message));
  }

  lemma StepFixed(c: Conn, e: Event, hasCallback: bool)
    requires Enabled(c, e) && c.state == Disconnecting
    ensures var d := Step(c, e, hasCallback);
      d.state == Disconnecting && d.accepted + Queued(d.functors) == c.accepted + Queued(c.functors)
  {
    if e.FunctorEvent? && c.functors[0].SendFunctor? {
      var message, rest := c.functors[0].message, Queued(c.functors[1..]);
      hide Queued;
      assert c.accepted + (message + rest) == (c.accepted + message) + rest;
      assert AfterFunctor(c, e.n, hasCallback).accepted == c.accepted + message;
    }
  }

  lemma {:induction false} TakenFixedAfterShutdown(states: seq<Conn>, events: seq<Event>, hasCallback: bool, i: nat,
                                                   j: nat)
    requires IsRun(states, events, hasCallback) && i <= j < |states| && states[i].state == Disconnecting
    ensures states[j].state == Disconnecting
    ensures states[j].accepted + Queued(states[j].functors) == states[i].accepted + Queued(states[i].functors)
  {
    if i == j {
    } else {
      TakenFixedAfterShutdown(states, events, hasCallback, i, j - 1);
      StepFixed(states[j - 1], events[j - 1], hasCallback);
    }
  }

  /** Draining the buffer is signalled once, and nothing is signalled while bytes still wait. */
  lemma CompletionMeansDrained(c: Conn, e: Event, hasCallback: bool)
    requires Enabled(c, e) && Conserving(c)
    ensures var d := Step(c, e, hasCallback);
      && (c.output != [] && d.output == [] ==> d.completions == c.completions + if hasCallback then 1 else 0)
      && (d.output != [] ==> d.completions == c.completions)
      && c.completions <= d.completions <= c.completions + 1
  {
  }

  /** A half-close, by whichever route, leaves the wire with everything that was taken when the connection
      was shut down, if and only if no message of another thread still waits in the loop's queue. */
  lemma HalfCloseCompleteIff(states: seq<Conn>, events: seq<Event>, hasCallback: bool, j: nat, k: nat)
    requires IsRun(states, events, hasCallback) && states[0] == ESTABLISHED
    requires j <= k < |events| && states[j].state == Disconnecting
    requires !states[k].halfClosed && states[k + 1].halfClosed
    ensures states[k + 1].wire == states[j].accepted + Queued(states[j].functors) <==>
      Queued(states[k + 1].functors) == []
  {
    RunConserves(states, events, hasCallback, k + 1);
    TakenFixedAfterShutdown(states, events, hasCallback, j, k + 1);
    var d := states[k + 1];
    assert |d.accepted + Queued(d.functors)| == |d.accepted| + |Queued(d.functors)|;
    assert d.accepted + [] == d.accepted;
  }

  /** What is still queued then never leaves: the wire is frozen. */
  lemma {:induction false} WireFrozen(states: seq<Conn>, events: seq<Event>, hasCallback: bool, k: nat, i: nat)
    requires IsRun(states, events, hasCallback) && states[0] == ESTABLISHED && k <= i < |states|
    requires states[k].halfClosed
    ensures states[i].halfClosed && states[i].wire == states[k].wire
  {
    hide Step, Enabled, Conserving;
    if i == k {
    } else {
      WireFrozen(states, events, hasCallback, k, i - 1);
      RunConserves(states, events, hasCallback, i);
    }
  }

  /** One way to lose a message: another thread sends, then the loop thread shuts down. */
  lemma QueuedMessageLost(message: seq<byte>, hasCallback: bool, m: int)
    requires message != [] && -1 <= m <= 0
    ensures var c1 := AfterSend(ESTABLISHED, message, false, 0, hasCallback);
      var c2 := AfterShutdown(c1, true);
      && FunctorCount(c2, m)
      && var c3 := AfterFunctor(c2, m, hasCallback);
      && c3.halfClosed && c3.wire == [] && c3.output == message
  {
  }

  /** The other way: bytes already wait, another thread sends and shuts down, in this order, and the loop
      thread drains the buffer before it gets to the queue. */
  lemma DrainOvertakesQueue(first: seq<byte>, message: seq<byte>, hasCallback: bool, m: int)
    requires first != [] && message != [] && -1 <= m <= 0
    ensures var c1 := AfterSend(ESTABLISHED, first, true, 0, hasCallback);
      && c1.output == first && c1.writing
      && var c2 := AfterShutdown(AfterSend(c1, message, false, 0, hasCallback), false);
      && c2.functors == [SendFunctor(message), ShutdownFunctor] && WriteCount(c2, |c2.output|, |first|)
      && var c3 := AfterHandleWrite(c2, |first|, hasCallback);
      && c3.halfClosed && FunctorCount(c3, m)
      && var c4 := AfterFunctor(c3, m, hasCallback);
      && c4.wire == first && c4.output == message
  {
    assert first[0..] == first && first[..0] == [] && first[..|first|] == first;
    assert [] + first == first && message[0..] == message;
  }
}
