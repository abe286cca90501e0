/** The client's connector: who owns each socket, and how long it waits between attempts. */
module Connectors {
  import opened Common

  const INIT_RETRY_DELAY_MS: nat := 500
  const MAX_RETRY_DELAY_MS: nat := 30000

  datatype States = Disconnected | Connecting | Connected

  /** Sockets are named in order of creation. `watched` are those registered with the poller, `timers` the
      outstanding retry timers, `resets` the queued functors that will destroy `channel_`. `waits` are the
      delays chosen since construction or the last `restart`. `mayRestart` holds between a hand-over and the
      next `restart`; `gaveUp` says that an attempt met an error for which there is no retry. */
  datatype Conn = Conn(
    started: bool,
    connect: bool,
    state: States,
    delay: nat,
    channel: Option<nat>,
    created: nat,
    watched: set<nat>,
    closed: seq<nat>,
    handed: seq<nat>,
    timers: seq<nat>,
    resets: nat,
    waits: seq<nat>,
    mayRestart: bool,
    gaveUp: bool)

  /** The groups of `errno` values after `connect`. */
  datatype Errno =
    | Zero | EINPROGRESS | EINTR | EISCONN
    | EAGAIN | EADDRINUSE | EADDRNOTAVAIL | ECONNREFUSED | ENETUNREACH
    | EACCES | EPERM | EAFNOSUPPORT | EALREADY | EBADF | EFAULT | ENOTSOCK
    | Unexpected

  datatype Verdict = InProgress | TryLater | GiveUp

  function Classify(errno: Errno): Verdict {
    match errno
    case Zero | EINPROGRESS | EINTR | EISCONN => InProgress
    case EAGAIN | EADDRINUSE | EADDRNOTAVAIL | ECONNREFUSED | ENETUNREACH => TryLater
    case _ => GiveUp
  }

  function Closed(c: Conn, sock: nat): Conn {
    c.(closed := c.closed + [sock])
  }

  function Retried(c: Conn, sock: nat): Conn {
    var c1 := Closed(c, sock).(state := Disconnected);
    if !c.connect then c1
    else c1.(
        timers := c.timers + [c.delay],
        waits := c.waits + [c.delay],
        delay := if c.delay * 2 < MAX_RETRY_DELAY_MS then c.delay * 2 else MAX_RETRY_DELAY_MS)
  }

  function Watching(c: Conn, sock: nat): Conn {
    c.(state := Connecting, channel := Some(sock), watched := c.watched + {sock})
  }

  function Attempted(c: Conn, errno: Errno): Conn {
    var sock := c.created;
    var c1 := c.(created := c.created + 1);
    match Classify(errno)
    case InProgress => Watching(c1, sock)
    case TryLater => Retried(c1, sock)
    case GiveUp => Closed(c1, sock).(gaveUp := true)
  }

  function StartedInLoop(c: Conn, errno: Errno): Conn {
    if c.connect then Attempted(c, errno) else c
  }

  /** `removeAndResetChannel`: the channel leaves the poller now and is destroyed by a queued functor. */
  function Unwatched(c: Conn): Conn
    requires c.channel.Some?
  {
    c.(watched := c.watched - {c.channel.value}, resets := c.resets + 1)
  }

  function HandledWrite(c: Conn, soError: bool, selfConnect: bool): Conn
    requires c.channel.Some?
  {
    if c.state != Connecting then c
    else
      var sock := c.channel.value;
      var c1 := Unwatched(c);
      if soError || selfConnect then Retried(c1, sock)
      else
        var c2 := c1.(state := Connected);
        if c.connect then c2.(handed := c.handed + [sock], mayRestart := true) else Closed(c2, sock)
  }

  function HandledError(c: Conn): Conn
    requires c.channel.Some?
  {
    Retried(Unwatched(c), c.channel.value)
  }

  function Renewed(c: Conn): Conn {
    c.(state := Disconnected, delay := INIT_RETRY_DELAY_MS, connect := true, waits := [], mayRestart := false,
       gaveUp := false)
  }

  /** What the kernel may report about a watched socket; the error callback comes before the write one. */
  datatype Event =
    | Start(errno: Errno)
    | Restart(errno: Errno)
    | Stop
    | TimerFires(errno: Errno)
    | Ready(error: bool, write: bool, soError: bool, selfConnect: bool)
    | RunReset

  /** `start` is called once and `restart` only after a hand-over. */
  predicate Enabled(c: Conn, e: Event) {
    match e
    case Start(_) => !c.started
    case Restart(_) => c.mayRestart
    case Stop => true
    case TimerFires(_) => c.timers != []
    case Ready(_, _, _, _) => c.watched != {} && c.channel.Some?
    case RunReset => 0 < c.resets
  }

  function Next(c: Conn, e: Event): Conn
    requires Enabled(c, e)
  {
    match e
    case Start(errno) => StartedInLoop(c.(started := true, connect := true), errno)
    case Restart(errno) =>
      StartedInLoop(Renewed(c), errno)
    case Stop => c.(connect := false)
    case TimerFires(errno) => StartedInLoop(c.(timers := c.timers[1..]), errno)
    case Ready(error, write, soError, selfConnect) =>
      var c1 := if error then HandledError(c) else c;
      if write then HandledWrite(c1, soError, selfConnect) else c1
    case RunReset => c.(resets := c.resets - 1, channel := None)
  }

  /** The constructor; `state_` has no initial value. */
  predicate Initial(c: Conn) {
    exists state :: c == Conn(false, false, state, INIT_RETRY_DELAY_MS, None, 0, {}, [], [], [], 0, [], false, false)
  }

  function UpTo(n: nat): multiset<nat> {
    if n == 0 then multiset{} else UpTo(n - 1) + multiset{n - 1}
  }

  function Pow2(k: nat): nat {
    if k == 0 then 1 else 2 * Pow2(k - 1)
  }

  /** The delay before the `k`-th retry. */
  function Backoff(k: nat): nat {
    if INIT_RETRY_DELAY_MS * Pow2(k) < MAX_RETRY_DELAY_MS then INIT_RETRY_DELAY_MS * Pow2(k) else MAX_RETRY_DELAY_MS
  }

  /** Every socket created is watched, closed once, or handed over once, and never two of these. */
  ghost predicate Owned(c: Conn) {
    multiset(c.watched) + multiset(c.closed) + multiset(c.handed) == UpTo(c.created)
  }

  predicate BackedOff(c: Conn) {
    && c.delay == Backoff(|c.waits|)
    && forall k | 0 <= k < |c.waits| :: c.waits[k] == Backoff(k)
  }

  /** One attempt at a time. */
  predicate Single(c: Conn) {
    && |c.watched| + |c.timers| <= 1
    && (forall s | s in c.watched :: s < c.created)
    && (!c.started ==> c.watched == {} && c.timers == [] && !c.mayRestart && c.resets == 0 && c.waits == [])
    && (c.watched != {} ==> c.state == Connecting && !c.mayRestart)
    && (c.mayRestart ==> c.watched == {} && c.timers == [])
  }

  /** If `channel_` is there, it is the watched socket's. */
  predicate OwnChannel(c: Conn) {
    c.watched != {} && c.channel.Some? ==> c.watched == {c.channel.value}
  }

  /** While a connection is wanted, an attempt is under way or scheduled, unless an error ended it for good. */
  predicate Progressing(c: Conn) {
    c.started && c.connect && !c.mayRestart && !c.gaveUp ==> c.watched != {} || c.timers != []
  }

  ghost predicate Inv(c: Conn) {
    Owned(c) && BackedOff(c) && Single(c) && OwnChannel(c) && Progressing(c)
  }

  /** A socket that is owned by nobody yet. */
  ghost predicate OwnedBut(c: Conn, sock: nat) {
    multiset(c.watched) + multiset(c.closed) + multiset(c.handed) + multiset{sock} == UpTo(c.created)
  }

  lemma RetryKeeps(c: Conn, sock: nat)
    requires OwnedBut(c, sock) && BackedOff(c) && c.watched == {} && c.timers == [] && c.started && !c.mayRestart
    ensures var d := Retried(c, sock); Owned(d) && BackedOff(d) && Single(d)
  {
    RetryBacksOff(c, sock);
    CloseOwned(c, sock);
    hide BackedOff, OwnedBut, Owned;
  }

  lemma RetryBacksOff(c: Conn, sock: nat)
    requires BackedOff(c)
    ensures BackedOff(Retried(c, sock))
  {
  }

  lemma CloseOwned(c: Conn, sock: nat)
    requires OwnedBut(c, sock)
    ensures Owned(Closed(c, sock)) && Owned(Retried(c, sock))
  {
  }

  lemma WatchKeeps(c: Conn, sock: nat)
    requires OwnedBut(c, sock) && BackedOff(c) && sock < c.created
    requires c.watched == {} && c.timers == [] && c.started && !c.mayRestart
    ensures Inv(Watching(c, sock))
  {
  }

  lemma CloseKeeps(c: Conn, sock: nat)
    requires OwnedBut(c, sock) && BackedOff(c)
    requires c.watched == {} && c.timers == [] && c.started && !c.mayRestart
    ensures Inv(Closed(c, sock).(gaveUp := true))
  {
  }

  lemma AttemptKeeps(c: Conn, errno: Errno)
    requires Owned(c) && BackedOff(c) && c.watched == {} && c.timers == [] && c.started && !c.mayRestart
    ensures Inv(Attempted(c, errno))
  {
    var sock := c.created;
    var c1 := c.(created := c.created + 1);
    assert OwnedBut(c1, sock);
    assert BackedOff(c1);
    AttemptShape(c, errno);
    hide Owned, OwnedBut, BackedOff, Classify, Retried, Watching, Closed, Inv, Attempted;
    match Classify(errno) {
      case InProgress =>
        WatchKeeps(c1, sock);
      case TryLater =>
        RetryKeeps(c1, sock);
        RetryInv(c1, sock);
      case GiveUp =>
        CloseKeeps(c1, sock);
    }
  }

  lemma AttemptShape(c: Conn, errno: Errno)
    ensures var c1 := c.(created := c.created + 1);
      Attempted(c, errno) == match Classify(errno)
        case InProgress => Watching(c1, c.created)
        case TryLater => Retried(c1, c.created)
        case GiveUp => Closed(c1, c.created).(gaveUp := true)
  {
  }

  lemma RetryInv(c: Conn, sock: nat)
    requires Owned(Retried(c, sock)) && BackedOff(Retried(c, sock)) && Single(Retried(c, sock))
    requires c.watched == {}
    ensures Inv(Retried(c, sock))
  {
  }

  lemma UnwatchKeeps(c: Conn)
    requires Inv(c) && c.watched != {} && c.channel.Some?
    ensures var d := Unwatched(c);
      && OwnedBut(d, c.channel.value) && BackedOff(d)
      && d.watched == {} && d.timers == [] && d.started && !d.mayRestart
  {
  }

  lemma DoneKeeps(c: Conn, sock: nat)
    requires OwnedBut(c, sock) && BackedOff(c) && c.watched == {} && c.timers == [] && c.started
    ensures Inv(c.(state := Connected, handed := c.handed + [sock], mayRestart := true))
    ensures !c.mayRestart && !c.connect ==> Inv(Closed(c.(state := Connected), sock))
  {
    hide Backoff, UpTo;
    assert multiset(c.closed + [sock]) == multiset(c.closed) + multiset{sock};
    assert multiset(c.handed + [sock]) == multiset(c.handed) + multiset{sock};
  }

  lemma ReadyKeeps(c: Conn, e: Event)
    requires Inv(c) && Enabled(c, e) && e.Ready?
    ensures Inv(Next(c, e))
  {
    var sock := c.channel.value;
    UnwatchKeeps(c);
    hide Owned, OwnedBut, BackedOff;
    var d := Unwatched(c);
    if e.error || (e.write && (e.soError || e.selfConnect)) {
      RetryKeeps(d, sock);
    } else {
      DoneKeeps(d, sock);
    }
  }

  lemma NextKeeps(c: Conn, e: Event)
    requires Inv(c) && Enabled(c, e)
    ensures Inv(Next(c, e))
  {
    match e
    case Start(errno) =>
      AttemptKeeps(c.(started := true, connect := true), errno);
    case Restart(errno) =>
      assert Backoff(0) == INIT_RETRY_DELAY_MS;
      AttemptKeeps(Renewed(c), errno);
    case Stop =>
    case TimerFires(errno) =>
      assert |c.timers| == 1 && c.timers[1..] == [];
      if c.connect {
        AttemptKeeps(c.(timers := []), errno);
      }
    case Ready(_, _, _, _) =>
      ReadyKeeps(c, e);
    case RunReset =>
  }

  ghost predicate IsRun(states: seq<Conn>, events: seq<Event>) {
    && |states| == |events| + 1 && Initial(states[0])
    && forall i | 0 <= i < |events| :: Enabled(states[i], events[i]) && states[i + 1] == Next(states[i], events[i])
  }

  lemma {:induction false} RunKeeps(states: seq<Conn>, events: seq<Event>, i: nat)
    requires IsRun(states, events) && i < |states|
    ensures Inv(states[i])
  {
    if i == 0 {
      assert Backoff(0) == INIT_RETRY_DELAY_MS;
    } else {
      hide Inv, Next, Enabled;
      RunKeeps(states, events, i - 1);
      NextKeeps(states[i - 1], events[i - 1]);
    }
  }

  lemma {:induction false} UpToCounts(n: nat, s: nat)
    ensures UpTo(n)[s] == if s < n then 1 else 0
  {
    if n == 0 {
    } else {
      UpToCounts(n - 1, s);
    }
  }

  /** Socket ownership, over every run: each socket ever created is watched, or was closed once, or was
      handed over once, and only one of these; at most one socket or retry timer is outstanding; the `k`-th
      retry waits `min(500 * 2^k, 30000)` ms; and the connector keeps trying as long as it should. */
  lemma SocketsOwnedOnce(states: seq<Conn>, events: seq<Event>, i: nat)
    requires IsRun(states, events) && i < |states|
    ensures var c := states[i];
      && (forall s | 0 <= s < c.created ::
            multiset(c.watched)[s] + multiset(c.closed)[s] + multiset(c.handed)[s] == 1)
      && |c.watched| + |c.timers| <= 1
      && (forall k | 0 <= k < |c.waits| :: c.waits[k] == Backoff(k))
      && Progressing(c)
  {
    RunKeeps(states, events, i);
    var c := states[i];
    forall s | 0 <= s < c.created
      ensures multiset(c.watched)[s] + multiset(c.closed)[s] + multiset(c.handed)[s] == 1
    {
      UpToCounts(c.created, s);
      assert (multiset(c.watched) + multiset(c.closed) + multiset(c.handed))[s] == 1;
    }
  }

  lemma StoppedStep(c: Conn, e: Event)
    requires Enabled(c, e) && !c.connect && c.started && !e.Restart?
    ensures var d := Next(c, e); !d.connect && d.started && d.created == c.created
  {
  }

  /** Once stopped, the connector makes no socket until it is restarted. */
  lemma {:induction false} StopEndsAttempts(states: seq<Conn>, events: seq<Event>, i: nat, j: nat)
    requires IsRun(states, events) && i < j < |states| && events[i] == Stop && states[i].started
    requires forall k | i < k < j :: !events[k].Restart?
    ensures !states[j].connect && states[j].started && states[j].created == states[i].created
  {
    if j == i + 1 {
      assert states[j] == Next(states[i], Stop);
    } else {
      hide Enabled, Next, Initial;
      StopEndsAttempts(states, events, i, j - 1);
      StoppedStep(states[j - 1], events[j - 1]);
    }
  }

  // What comes of each event.

  /** After `connect`: these four values watch the socket, these five schedule a retry after the present delay,
      and any other closes the socket for good. */
  lemma AttemptOutcome(c: Conn, errno: Errno)
    requires c.created !in c.watched
    ensures var d, sock := Attempted(c, errno), c.created;
      && d.created == c.created + 1 && d.handed == c.handed && d.connect == c.connect && d.mayRestart == c.mayRestart
      && (errno.Zero? || errno.EINPROGRESS? || errno.EINTR? || errno.EISCONN? <==>
            d.watched == c.watched + {sock} && d.state == Connecting && d.channel == Some(sock) && d.closed == c.closed)
      && (errno.EAGAIN? || errno.EADDRINUSE? || errno.EADDRNOTAVAIL? || errno.ECONNREFUSED? || errno.ENETUNREACH? ==>
            && d.closed == c.closed + [sock] && d.watched == c.watched && d.state == Disconnected
            && d.timers == c.timers + (if c.connect then [c.delay] else []) && d.gaveUp == c.gaveUp)
      && (errno.EACCES? || errno.EPERM? || errno.EAFNOSUPPORT? || errno.EALREADY? || errno.EBADF? || errno.EFAULT?
          || errno.ENOTSOCK? || errno.Unexpected? ==>
            d.closed == c.closed + [sock] && d.watched == c.watched && d.timers == c.timers && d.gaveUp)
  {
    hide Retried, Watching, Closed;
    AttemptShape(c, errno);
    AttemptParts(c.(created := c.created + 1), c.created);
  }

  lemma AttemptParts(c: Conn, sock: nat)
    requires sock !in c.watched
    ensures Watching(c, sock) == c.(state := Connecting, channel := Some(sock), watched := c.watched + {sock})
    ensures Watching(c, sock).watched != c.watched
    ensures Closed(c, sock) == c.(closed := c.closed + [sock])
    ensures var d := Retried(c, sock);
      && d.(delay := c.delay, waits := c.waits) == c.(
             closed := c.closed + [sock], state := Disconnected,
             timers := c.timers + if c.connect then [c.delay] else [])
  {
    assert sock in Watching(c, sock).watched;
  }

  /** `start`, `restart` and a retry timer make one attempt, but for a timer that fires after `stop`; the
      first retry after `start` or `restart` waits 500 ms, and `restart` forgets how the last attempt ended. */
  lemma StartOutcome(c: Conn, e: Event)
    requires Inv(c) && Enabled(c, e) && (e.Start? || e.Restart? || e.TimerFires?)
    ensures var d := Next(c, e);
      && d.created == c.created + (if e.TimerFires? && !c.connect then 0 else 1)
      && d.started && d.connect == (c.connect || !e.TimerFires?)
      && (e.errno == ECONNREFUSED && !e.TimerFires? ==> d.timers == [INIT_RETRY_DELAY_MS])
      && (e.errno == ECONNREFUSED && e.TimerFires? && c.connect ==> d.timers == [c.delay])
      && (e.TimerFires? && !c.connect ==> d == c.(timers := []))
      && (e.Restart? ==> d.state == if Classify(e.errno) == InProgress then Connecting else Disconnected)
      && (e.Restart? ==> (d.gaveUp <==> Classify(e.errno) == GiveUp))
  {
    hide Owned, Backoff, UpTo;
    assert c.waits == [] ==> c.delay == Backoff(0);
    FirstBackoff();
    if !c.started {
      assert c.timers == [];
    }
  }

  lemma FirstBackoff()
    ensures Backoff(0) == INIT_RETRY_DELAY_MS
  {
  }

  /** An event on the watched socket hands it over if and only if it says, without an error, that the connect
      succeeded and a connection is still wanted; if the connect failed, the socket is closed, and the next
      attempt scheduled if still wanted. Either way the socket is watched no more. */
  lemma ReadyOutcome(c: Conn, e: Event)
    requires Inv(c) && Enabled(c, e) && e.Ready?
    ensures var d, sock := Next(c, e), c.channel.value;
      var failed := e.error || (e.write && (e.soError || e.selfConnect));
      && (d.handed == c.handed + [sock] && d.mayRestart <==> c.connect && e.write && !failed)
      && (d.closed == c.closed + [sock] <==> failed || (e.write && !c.connect))
      && (d.timers == [c.delay] <==> failed && c.connect)
      && d.timers == (if failed && c.connect then [c.delay] else [])
      && (e.error || e.write ==> d.watched == {} && d.resets == c.resets + 1)
      && (e.write && !failed ==> d.state == Connected)
      && (failed ==> d.state == Disconnected && d.handed == c.handed && !d.mayRestart)
      && (!e.error && !e.write ==> d == c)
  {
    hide Owned, BackedOff, Backoff;
    UnwatchedAlone(c);
    assert |c.handed + [c.channel.value]| == |c.handed| + 1 && |c.closed + [c.channel.value]| == |c.closed| + 1;
  }

  lemma UnwatchedAlone(c: Conn)
    requires Inv(c) && c.watched != {} && c.channel.Some?
    ensures Unwatched(c).watched == {} && c.timers == [] && c.state == Connecting && !c.mayRestart
  {
    assert c.watched == {c.channel.value};
  }

  // The watched socket's channel.

  /** An event on the watched socket finds its channel, and no queued functor will destroy that. */
  predicate ChannelAlive(c: Conn) {
    c.watched != {} ==> c.channel.Some? && c.resets == 0
  }

  /** A new socket gets watched while the destruction of the last channel is still queued. */
  predicate Hasty(c: Conn, e: Event) {
    && 0 < c.resets
    && (e.Restart? || (e.TimerFires? && c.connect))
    && Classify(e.errno) == InProgress
  }

  lemma ChannelAliveIff(c: Conn, e: Event)
    requires Inv(c) && ChannelAlive(c) && Enabled(c, e)
    ensures ChannelAlive(Next(c, e)) <==> !Hasty(c, e)
  {
    hide Owned, BackedOff;
  }

  /** In runs without such a step every event finds its socket's channel alive. */
  lemma {:induction false} ChannelStaysAlive(states: seq<Conn>, events: seq<Event>, i: nat)
    requires IsRun(states, events) && i < |states|
    requires forall k | 0 <= k < i :: !Hasty(states[k], events[k])
    ensures states[i].watched != {} ==>
      states[i].channel.Some? && states[i].watched == {states[i].channel.value} && states[i].resets == 0
  {
    RunKeeps(states, events, i);
    if i == 0 {
    } else {
      ChannelStaysAlive(states, events, i - 1);
      RunKeeps(states, events, i - 1);
      hide Inv, Next, Enabled, Hasty;
      ChannelAliveIff(states[i - 1], events[i - 1]);
      AliveIsOwn(states[i]);
    }
  }

  lemma AliveIsOwn(c: Conn)
    requires Inv(c) && ChannelAlive(c)
    ensures c.watched != {} ==> c.channel.Some? && c.watched == {c.channel.value} && c.resets == 0
  {
  }

  /** `doPendingFunctors` for the connector's own functors. */
  function Flushed(c: Conn): Conn
    decreases c.resets
  {
    if c.resets == 0 then c else Flushed(Next(c, RunReset))
  }

  lemma {:induction false} FlushedShape(c: Conn)
    ensures Flushed(c) == if c.resets == 0 then c else c.(resets := 0, channel := None)
    decreases c.resets
  {
    if c.resets == 0 {
    } else {
      FlushedShape(Next(c, RunReset));
    }
  }

  /** What such a step costs: a new attempt's channel survives the next functor batch exactly when no
      destruction of the previous channel was still queued. */
  lemma NewChannelSurvivesIff(c: Conn, e: Event)
    requires Enabled(c, e) && (e.Restart? || (e.TimerFires? && c.connect)) && Classify(e.errno) == InProgress
    ensures var d := Flushed(Next(c, e));
      c.created in d.watched && (d.channel == Some(c.created) <==> c.resets == 0)
  {
    FlushedShape(Next(c, e));
  }

  /** And the bad order is reachable: connect, fail, let the timer fire before the functors run. The second
      socket stays registered while its channel is gone. */
  lemma StaleResetReachable(c: Conn)
    requires Initial(c)
    ensures var c1 := Next(c, Start(EINPROGRESS));
      && Enabled(c1, Ready(true, false, true, false))
      && var c2 := Next(c1, Ready(true, false, true, false));
      && Enabled(c2, TimerFires(EINPROGRESS)) && Hasty(c2, TimerFires(EINPROGRESS))
      && var c3 := Next(c2, TimerFires(EINPROGRESS));
      && Enabled(c3, RunReset)
      && Next(c3, RunReset).watched == {1} && Next(c3, RunReset).channel == None
  {
  }

  // The class.

  class Connector {
    var connect_: bool
    var state: States
    var retryDelayMs: nat
    var channel: Option<nat>
    // the environment's side, and history
    var started: bool
    var created: nat
    var watched: set<nat>
    var closed: seq<nat>
    var handed: seq<nat>
    var timers: seq<nat>
    var resets: nat
    var waits: seq<nat>
    var mayRestart: bool
    var gaveUp: bool

    ghost function View(): Conn
      reads this
    {
      Conn(started, connect_, state, retryDelayMs, channel, created, watched, closed, handed, timers, resets, waits,
           mayRestart, gaveUp)
    }

    /** `state_` keeps whatever value it had. */
    constructor (garbage: States)
      ensures Initial(View()) && Inv(View())
    {
      connect_, retryDelayMs, channel, state := false, INIT_RETRY_DELAY_MS, None, garbage;
      started, created, watched, closed, handed := false, 0, {}, [], [];
      timers, resets, waits, mayRestart, gaveUp := [], 0, [], false, false;
      new;
      assert View() == Conn(false, false, garbage, INIT_RETRY_DELAY_MS, None, 0, {}, [], [], [], 0, [], false, false);
    }

    method Close(sockfd: nat)
      modifies `closed
      ensures View() == Closed(old(View()), sockfd)
    {
      closed := closed + [sockfd];
    }

    method Retry(sockfd: nat)
      modifies this
      ensures View() == Retried(old(View()), sockfd)
    {
      Close(sockfd);
      state := Disconnected;
      if connect_ {
        timers := timers + [retryDelayMs];
        waits := waits + [retryDelayMs];
        retryDelayMs := if retryDelayMs * 2 < MAX_RETRY_DELAY_MS then retryDelayMs * 2 else MAX_RETRY_DELAY_MS;
      }
    }

    method ConnectingOn(sockfd: nat)
      modifies this
      ensures View() == Watching(old(View()), sockfd)
    {
      state := Connecting;
      channel := Some(sockfd);
      watched := watched + {sockfd};
    }

    method Connect(errno: Errno)
      modifies this
      ensures View() == Attempted(old(View()), errno)
    {
      hide Retried, Watching, Closed;
      var sockfd := created;
      created := created + 1;
      match errno
      case Zero | EINPROGRESS | EINTR | EISCONN =>
        ConnectingOn(sockfd);
      case EAGAIN | EADDRINUSE | EADDRNOTAVAIL | ECONNREFUSED | ENETUNREACH =>
        Retry(sockfd);
      case _ =>
        Close(sockfd);
        gaveUp := true;
    }

    method StartInLoop(errno: Errno)
      modifies this
      ensures View() == StartedInLoop(old(View()), errno)
    {
      hide Attempted;
      if connect_ {
        Connect(errno);
      }
    }

    method StartOnce(errno: Errno)
      requires Inv(View()) && !started
      modifies this
      ensures Inv(View()) && View() == Next(old(View()), Start(errno))
    {
      hide Inv;
      NextKeeps(View(), Start(errno));
      hide StartedInLoop;
      started := true;
      connect_ := true;
      StartInLoop(errno);
    }

    /** What `restart` resets before it starts over. */
    method Renew()
      modifies this
      ensures View() == Renewed(old(View()))
    {
      state := Disconnected;
      retryDelayMs := INIT_RETRY_DELAY_MS;
      waits, mayRestart, gaveUp := [], false, false;
      connect_ := true;
    }

    method RestartInLoop(errno: Errno)
      requires Inv(View()) && mayRestart
      modifies this
      ensures Inv(View()) && View() == Next(old(View()), Restart(errno))
    {
      hide Inv, StartedInLoop, Renewed;
      ghost var c := View();
      NextKeeps(c, Restart(errno));
      assert Next(c, Restart(errno)) == StartedInLoop(Renewed(c), errno);
      hide Next;
      Renew();
      StartInLoop(errno);
    }

    method StopConnecting()
      requires Inv(View())
      modifies `connect_
      ensures Inv(View()) && View() == Next(old(View()), Stop)
    {
      hide Inv;
      NextKeeps(View(), Stop);
      connect_ := false;
    }

    method RemoveAndResetChannel() returns (sockfd: nat)
      requires channel.Some?
      modifies `watched, `resets
      ensures View() == Unwatched(old(View())) && sockfd == channel.value
    {
      sockfd := channel.value;
      watched := watched - {sockfd};
      resets := resets + 1;
    }

    method HandleWrite(soError: bool, selfConnect: bool)
      requires channel.Some?
      modifies this
      ensures View() == HandledWrite(old(View()), soError, selfConnect)
    {
      if state == Connecting {
        var sockfd := RemoveAndResetChannel();
        if soError {
          Retry(sockfd);
        } else if selfConnect {
          Retry(sockfd);
        } else {
          state := Connected;
          if connect_ {
            handed, mayRestart := handed + [sockfd], true;
          } else {
            Close(sockfd);
          }
        }
      }
    }

    method HandleError()
      requires channel.Some?
      modifies this
      ensures View() == HandledError(old(View()))
    {
      var sockfd := RemoveAndResetChannel();
      Retry(sockfd);
    }

    /** `Channel::handleEvent` for the connector's channel. */
    method HandleEvent(error: bool, write: bool, soError: bool, selfConnect: bool)
      requires Inv(View()) && Enabled(View(), Ready(error, write, soError, selfConnect))
      modifies this
      ensures Inv(View()) && View() == Next(old(View()), Ready(error, write, soError, selfConnect))
    {
      hide Inv;
      NextKeeps(View(), Ready(error, write, soError, selfConnect));
      if error {
        HandleError();
      }
      if write {
        HandleWrite(soError, selfConnect);
      }
    }

    method TimerExpires(errno: Errno)
      requires Inv(View()) && timers != []
      modifies this
      ensures Inv(View()) && View() == Next(old(View()), TimerFires(errno))
    {
      hide Inv;
      NextKeeps(View(), TimerFires(errno));
      hide StartedInLoop;
      timers := timers[1..];
      StartInLoop(errno);
    }

    method RunQueuedReset()
      requires Inv(View()) && 0 < resets
      modifies `resets, `channel
      ensures Inv(View()) && View() == Next(old(View()), RunReset)
    {
      hide Inv;
      NextKeeps(View(), RunReset);
      resets := resets - 1;
      channel := None;
    }
  }
}
