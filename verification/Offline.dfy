/** Chat routing: to the live connection, or to the receiver's offline list; and how that list is drained. */
module Offline {
  import opened Common
  import opened Redis

  type ConnId = nat
  type Msg = string

  // One user's offline list under interleaving.

  /** Where the login on one connection is: past the check that the user is not online yet; or in the loop of
      `sendMessageOffLine`, about to look up the user's connection, to pop, or to send what it popped. */
  datatype Drainer = Verified | Checking | Popping | Sending(msg: Msg)

  /** `list` is the Redis list, newest first; `current` the user's entry among the online users; `parked`
      and `popped` what went through the list; `handed` what was given to which connection. */
  datatype Box = Box(
    list: seq<Msg>,
    current: Option<ConnId>,
    drainers: map<ConnId, Drainer>,
    parked: seq<Msg>,
    popped: seq<Msg>,
    handed: seq<(ConnId, Msg)>)

  datatype Step =
    | Park(msg: Msg)
    | Verify(conn: ConnId)
    | Store(conn: ConnId)
    | Disconnect(conn: ConnId)
    | Check(conn: ConnId)
    | Pop(conn: ConnId)
    | Send(conn: ConnId)

  predicate Enabled(b: Box, t: Step) {
    match t
    case Park(_) => true
    case Verify(c) => b.current.None? && c !in b.drainers
    case Store(c) => c in b.drainers && b.drainers[c].Verified?
    case Disconnect(_) => true
    case Check(c) => c in b.drainers && b.drainers[c].Checking?
    case Pop(c) => c in b.drainers && b.drainers[c].Popping?
    case Send(c) => c in b.drainers && b.drainers[c].Sending?
  }

  function Next(b: Box, t: Step): Box
    requires Enabled(b, t)
  {
    match t
    case Park(m) => b.(list := [m] + b.list, parked := b.parked + [m])
    case Verify(c) => b.(drainers := b.drainers[c := Verified])
    case Store(c) => b.(current := Some(c), drainers := b.drainers[c := Checking])
    case Disconnect(c) => if b.current == Some(c) then b.(current := None) else b
    case Check(c) =>
      // any connection of the user will do
      if b.current.None? then b.(drainers := b.drainers - {c}) else b.(drainers := b.drainers[c := Popping])
    case Pop(c) =>
      if b.list == [] then b.(drainers := b.drainers - {c})
      else
        var m := b.list[|b.list| - 1];
        b.(list := b.list[..|b.list| - 1], drainers := b.drainers[c := Sending(m)], popped := b.popped + [m])
    case Send(c) =>
      b.(handed := b.handed + [(c, b.drainers[c].msg)], drainers := b.drainers[c := Checking])
  }

  const EMPTY := Box([], None, map[], [], [], [])

  ghost predicate IsRun(states: seq<Box>, steps: seq<Step>) {
    && |states| == |steps| + 1 && states[0] == EMPTY
    && forall i | 0 <= i < |steps| :: Enabled(states[i], steps[i]) && states[i + 1] == Next(states[i], steps[i])
  }

  function Reversed(s: seq<Msg>): (r: seq<Msg>)
    ensures |r| == |s|
  {
    if s == [] then [] else Reversed(s[1..]) + [s[0]]
  }

  lemma {:induction false} ReversedInit(s: seq<Msg>)
    requires s != []
    ensures Reversed(s) == [s[|s| - 1]] + Reversed(s[..|s| - 1])
  {
    if |s| == 1 {
      assert s == [s[0]] && s[1..] == [] && s[..0] == [];
    } else {
      ReversedInit(s[1..]);
      assert s[1..][..|s| - 2] == s[..|s| - 1][1..];
    }
  }

  /** First in, first out: what was popped, then the list read oldest first, is what was parked. */
  predicate Fifo(b: Box) {
    b.popped + Reversed(b.list) == b.parked
  }

  function Messages(handed: seq<(ConnId, Msg)>): seq<Msg> {
    seq(|handed|, i requires 0 <= i < |handed| => handed[i].1)
  }

  function InHand(b: Box, c: ConnId): seq<Msg> {
    if c in b.drainers && b.drainers[c].Sending? then [b.drainers[c].msg] else []
  }

  /** At most one drain loop is running. */
  ghost predicate OneDrainer(b: Box) {
    forall c, d | c in b.drainers && d in b.drainers :: c == d
  }

  /** With one drain loop, the messages handed over, then the one in its hand, are those popped, in order. */
  ghost predicate InOrder(b: Box) {
    && OneDrainer(b)
    && (b.drainers.Keys == {} ==> Messages(b.handed) == b.popped)
    && (forall c | c in b.drainers :: Messages(b.handed) + InHand(b, c) == b.popped)
  }

  lemma NextFifo(b: Box, t: Step)
    requires Fifo(b) && Enabled(b, t)
    ensures Fifo(Next(b, t))
  {
    match t
    case Park(m) =>
      assert ([m] + b.list)[1..] == b.list;
      assert b.popped + (Reversed(b.list) + [m]) == (b.popped + Reversed(b.list)) + [m];
    case Pop(c) =>
      if b.list != [] {
        ReversedInit(b.list);
        var m, rest := b.list[|b.list| - 1], Reversed(b.list[..|b.list| - 1]);
        assert b.popped + ([m] + rest) == (b.popped + [m]) + rest;
      }
    case _ =>
  }

  /** The next login starts only after the drain loop of the last one ended. */
  predicate Serial(b: Box, t: Step) {
    t.Verify? ==> b.drainers.Keys == {}
  }

  lemma NextInOrder(b: Box, t: Step)
    requires InOrder(b) && Enabled(b, t) && Serial(b, t)
    ensures InOrder(Next(b, t))
  {
    var d := Next(b, t);
    match t
    case Verify(c) => assert d.drainers.Keys == {c};
    case Store(c) => assert b.drainers.Keys == {c};
    case Check(c) => assert b.drainers.Keys == {c};
    case Pop(c) =>
      assert b.drainers.Keys == {c} && InHand(b, c) == [];
      assert Messages(b.handed) == Messages(b.handed) + InHand(b, c) == b.popped;
      assert d.drainers.Keys == if b.list == [] then {} else {c};
    case Send(c) =>
      assert b.drainers.Keys == {c};
      assert Messages(d.handed) == Messages(b.handed) + [b.drainers[c].msg];
    case _ =>
  }

  // Whatever the interleaving: nothing that was parked is lost or doubled.

  function Hand(d: Drainer): multiset<Msg> {
    if d.Sending? then multiset{d.msg} else multiset{}
  }

  /** The messages in the hands of all drain loops. */
  ghost function Hands(ds: map<ConnId, Drainer>): multiset<Msg>
    decreases |ds|
  {
    if ds == map[] then multiset{}
    else
      var c :| c in ds;
      Hand(ds[c]) + Hands(ds - {c})
  }

  lemma DropTwo(ds: map<ConnId, Drainer>, c: ConnId, e: ConnId)
    ensures ds - {e} - {c} == ds - {c} - {e}
  {
  }

  lemma {:induction false} HandsSplit(ds: map<ConnId, Drainer>, c: ConnId)
    requires c in ds
    ensures Hands(ds) == Hand(ds[c]) + Hands(ds - {c})
    decreases |ds|
  {
    hide Hand;
    var e: ConnId :| e in ds && Hands(ds) == Hand(ds[e]) + Hands(ds - {e});
    if e == c {
    } else {
      hide Hands;
      HandsSplit(ds - {e}, c);
      HandsSplit(ds - {c}, e);
      DropTwo(ds, c, e);
    }
  }

  lemma DropUpdated(ds: map<ConnId, Drainer>, c: ConnId, d: Drainer)
    ensures ds[c := d] - {c} == ds - {c}
    ensures c !in ds ==> ds - {c} == ds
  {
  }

  lemma HandsUpdated(ds: map<ConnId, Drainer>, c: ConnId, d: Drainer)
    ensures Hands(ds[c := d]) == Hand(d) + Hands(ds - {c})
    ensures Hands(ds) == (if c in ds then Hand(ds[c]) else multiset{}) + Hands(ds - {c})
  {
    hide Hand, Hands;
    HandsSplit(ds[c := d], c);
    DropUpdated(ds, c, d);
    if c in ds {
      HandsSplit(ds, c);
    }
  }

  ghost predicate Conserved(b: Box) {
    multiset(Messages(b.handed)) + Hands(b.drainers) == multiset(b.popped)
  }

  lemma PopConserves(b: Box, c: ConnId)
    requires Conserved(b) && Enabled(b, Pop(c))
    ensures Conserved(Next(b, Pop(c)))
  {
    hide Hands, Messages;
    if b.list == [] {
      HandsUpdated(b.drainers, c, Popping);
    } else {
      var m := b.list[|b.list| - 1];
      HandsUpdated(b.drainers, c, Sending(m));
      assert multiset(b.popped + [m]) == multiset(b.popped) + multiset{m};
    }
  }

  lemma SendConserves(b: Box, c: ConnId)
    requires Conserved(b) && Enabled(b, Send(c))
    ensures Conserved(Next(b, Send(c)))
  {
    hide Hands, Messages;
    var m := b.drainers[c].msg;
    HandsUpdated(b.drainers, c, Checking);
    MessagesAppend(b.handed, c, m);
    assert multiset(Messages(b.handed) + [m]) == multiset(Messages(b.handed)) + multiset{m};
  }

  lemma LoginConserves(b: Box, t: Step)
    requires Conserved(b) && Enabled(b, t) && (t.Verify? || t.Store? || t.Check?)
    ensures Conserved(Next(b, t))
  {
    hide Hands, Messages;
    HandsUpdated(b.drainers, t.conn, if t.Verify? then Verified else if t.Store? then Checking else Popping);
  }

  lemma NextConserves(b: Box, t: Step)
    requires Conserved(b) && Enabled(b, t)
    ensures Conserved(Next(b, t))
  {
    match t
    case Pop(c) => PopConserves(b, c);
    case Send(c) => SendConserves(b, c);
    case Park(_) =>
    case Disconnect(_) =>
    case _ => LoginConserves(b, t);
  }

  lemma MessagesAppend(handed: seq<(ConnId, Msg)>, c: ConnId, m: Msg)
    ensures Messages(handed + [(c, m)]) == Messages(handed) + [m]
  {
  }

  lemma {:induction false} ReversedSame(s: seq<Msg>)
    ensures multiset(Reversed(s)) == multiset(s)
  {
    if s == [] {
    } else {
      ReversedSame(s[1..]);
      assert s == [s[0]] + s[1..];
    }
  }

  lemma {:induction false} RunFifo(states: seq<Box>, steps: seq<Step>, i: nat)
    requires IsRun(states, steps) && i < |states|
    ensures Fifo(states[i]) && Conserved(states[i])
    ensures (forall k | 0 <= k < i :: Serial(states[k], steps[k])) ==> InOrder(states[i])
  {
    if i == 0 {
    } else {
      RunFifo(states, steps, i - 1);
      hide Next, Enabled, Fifo, Conserved, InOrder, Serial;
      NextFifo(states[i - 1], steps[i - 1]);
      NextConserves(states[i - 1], steps[i - 1]);
      if forall k | 0 <= k < i :: Serial(states[k], steps[k]) {
        NextInOrder(states[i - 1], steps[i - 1]);
      }
    }
  }

  /** At every step of every run, across reconnects and overlapping drain loops: the list is first in, first
      out; and each parked message is still listed, or in the hand of one drain loop, or was handed over once. */
  lemma OfflineFifo(states: seq<Box>, steps: seq<Step>, i: nat)
    requires IsRun(states, steps) && i < |states|
    ensures var b := states[i];
      && b.popped + Reversed(b.list) == b.parked
      && multiset(Messages(b.handed)) + Hands(b.drainers) + multiset(b.list) == multiset(b.parked)
  {
    RunFifo(states, steps, i);
    ReversedSame(states[i].list);
  }

  // The order of what is handed over.

  /** Handing over `c`'s message keeps the order exactly when it is the oldest popped and not yet sent. */
  lemma SendKeepsOrderIff(b: Box, c: ConnId)
    requires Enabled(b, Send(c)) && Conserved(b) && Messages(b.handed) <= b.popped
    ensures var d := Next(b, Send(c));
      && |b.handed| < |b.popped|
      && (Messages(d.handed) <= d.popped <==> b.drainers[c].msg == b.popped[|b.handed|])
  {
    HandsSplit(b.drainers, c);
    assert |multiset(b.popped)| == |multiset(Messages(b.handed))| + |Hands(b.drainers)|;
    assert |Hand(b.drainers[c])| == 1;
    MessagesAppend(b.handed, c, b.drainers[c].msg);
  }

  predicate SendsOldest(b: Box, t: Step) {
    t.Send? && t.conn in b.drainers && b.drainers[t.conn].Sending? && |b.handed| < |b.popped| ==>
      b.drainers[t.conn].msg == b.popped[|b.handed|]
  }

  lemma OldestStep(b: Box, t: Step)
    requires Enabled(b, t) && Conserved(b) && Messages(b.handed) <= b.popped && SendsOldest(b, t)
    ensures Messages(Next(b, t).handed) <= Next(b, t).popped
  {
    hide Conserved, Messages;
    if t.Send? {
      SendKeepsOrderIff(b, t.conn);
    }
  }

  /** As long as each drain loop sends the oldest one first, the messages come out in the order they were parked. */
  lemma {:induction false} OldestFirst(states: seq<Box>, steps: seq<Step>, i: nat)
    requires IsRun(states, steps) && i < |states|
    requires forall k | 0 <= k < i :: SendsOldest(states[k], steps[k])
    ensures Messages(states[i].handed) <= states[i].popped <= states[i].parked
  {
    RunFifo(states, steps, i);
    if i == 0 {
    } else {
      OldestFirst(states, steps, i - 1);
      RunFifo(states, steps, i - 1);
      hide Enabled, Next, Conserved, SendsOldest, Messages;
      OldestStep(states[i - 1], steps[i - 1]);
    }
  }

  /** Two drain loops about to pop can reorder: the second takes the newer message and sends it first. */
  lemma OverlapReorders(b: Box, c: ConnId, d: ConnId)
    requires Enabled(b, Pop(c)) && Enabled(b, Pop(d)) && c != d && 2 <= |b.list|
    requires b.list[|b.list| - 1] != b.list[|b.list| - 2] && Messages(b.handed) == b.popped
    ensures var b1 := Next(b, Pop(c));
      && Enabled(b1, Pop(d))
      && var b2 := Next(b1, Pop(d));
      && Enabled(b2, Send(d))
      && var b3 := Next(b2, Send(d));
      !(Messages(b3.handed) <= b3.popped)
  {
    var older, newer := b.list[|b.list| - 1], b.list[|b.list| - 2];
    var b2 := Next(Next(b, Pop(c)), Pop(d));
    assert b2.popped == b.popped + [older] + [newer] && b2.handed == b.handed;
    MessagesAppend(b2.handed, d, newer);
    assert (b.popped + [newer])[|b.popped|] == newer && b2.popped[|b.popped|] == older;
  }

  /** Drain loops never overlap in a run exactly when each login is checked after the last drain loop ended. */
  lemma NoOverlapIff(states: seq<Box>, steps: seq<Step>, n: nat)
    requires IsRun(states, steps) && n < |states|
    ensures (forall i | 0 <= i <= n :: OneDrainer(states[i])) <==>
      (forall k | 0 <= k < n :: Serial(states[k], steps[k]))
  {
    forall k | 0 <= k < n && !Serial(states[k], steps[k])
      ensures !OneDrainer(states[k + 1])
    {
      assert Enabled(states[k], steps[k]) && states[k + 1] == Next(states[k], steps[k]);
      var d :| d in states[k].drainers.Keys;
      assert d in states[k + 1].drainers && steps[k].conn in states[k + 1].drainers;
    }
    if k :| 0 <= k < n && !Serial(states[k], steps[k]) {
      assert !OneDrainer(states[k + 1]);
    }
    if forall k | 0 <= k < n :: Serial(states[k], steps[k]) {
      forall i | 0 <= i <= n
        ensures OneDrainer(states[i])
      {
        RunFifo(states, steps, i);
      }
    }
  }

  /** Another login can be let in exactly while the user has no stored connection: before the running login
      stores its own, or after that one was dropped, whatever its drain loop is doing. */
  lemma SecondLoginIff(b: Box)
    ensures (exists c :: Enabled(b, Verify(c))) <==> b.current.None?
  {
    if b.current.None? {
      var c := Unused(b.drainers.Keys);
      assert Enabled(b, Verify(c));
    }
  }

  lemma {:induction false} Unused(cs: set<ConnId>) returns (c: ConnId)
    ensures c !in cs && forall x: ConnId | x in cs :: x < c
    decreases cs
  {
    if cs == {} {
      c := 0;
    } else {
      var x :| x in cs;
      var rest := Unused(cs - {x});
      assert forall y: ConnId :: y in cs ==> y == x || y in cs - {x};
      c := if rest <= x then x + 1 else rest;
    }
  }

  /** In such runs the messages handed over, the one in hand, and the list oldest first, are the parked ones
      in order, at every step. */
  lemma SerialInOrder(states: seq<Box>, steps: seq<Step>, i: nat)
    requires IsRun(states, steps) && i < |states|
    requires forall k | 0 <= k < i :: Serial(states[k], steps[k])
    ensures var b := states[i];
      && (forall c | c in b.drainers :: Messages(b.handed) + InHand(b, c) + Reversed(b.list) == b.parked)
      && (b.drainers.Keys == {} ==> Messages(b.handed) + Reversed(b.list) == b.parked)
  {
    RunFifo(states, steps, i);
  }

  // One drain loop with nobody else active.

  /** The loop of `sendMessageOffLine` on connection `c`, from its test on. */
  function Drained(b: Box, c: ConnId): Box
    requires Enabled(b, Check(c))
    decreases |b.list|
  {
    var b1 := Next(b, Check(c));
    if c !in b1.drainers then b1
    else
      var b2 := Next(b1, Pop(c));
      if c !in b2.drainers then b2 else Drained(Next(b2, Send(c)), c)
  }

  function OnConn(c: ConnId, ms: seq<Msg>): seq<(ConnId, Msg)> {
    seq(|ms|, i requires 0 <= i < |ms| => (c, ms[i]))
  }

  /** What one round of the loop does. */
  lemma RoundTakesOldest(b: Box, c: ConnId)
    requires Enabled(b, Check(c)) && b.current.Some? && b.list != []
    ensures var m, rest := b.list[|b.list| - 1], b.list[..|b.list| - 1];
      var b3 := b.(list := rest, popped := b.popped + [m], handed := b.handed + [(c, m)],
                   drainers := b.drainers[c := Checking]);
      Drained(b, c) == Drained(b3, c)
  {
    var b3 := Next(Next(Next(b, Check(c)), Pop(c)), Send(c));
    assert b3.drainers == b.drainers[c := Checking];
  }

  lemma LastRound(b: Box, c: ConnId)
    requires Enabled(b, Check(c)) && (b.current.None? || b.list == [])
    ensures Drained(b, c) == b.(drainers := b.drainers - {c})
  {
    if b.current.Some? {
      assert Next(Next(b, Check(c)), Pop(c)).drainers == b.drainers - {c};
    }
  }

  /** Left alone, the loop ends with the whole list handed over, oldest first, if the user has a connection,
      and with nothing changed if he has none. */
  lemma {:induction false} DrainEmptiesIff(b: Box, c: ConnId)
    requires Enabled(b, Check(c))
    ensures var out := if b.current.Some? then Reversed(b.list) else [];
      Drained(b, c) == b.(drainers := b.drainers - {c}, list := if b.current.Some? then [] else b.list,
                          popped := b.popped + out, handed := b.handed + OnConn(c, out))
    decreases |b.list|
  {
    hide Reversed, OnConn, Drained;
    if b.current.None? || b.list == [] {
      LastRound(b, c);
      NothingOut(b, c);
    } else {
      var m, rest := b.list[|b.list| - 1], b.list[..|b.list| - 1];
      RoundTakesOldest(b, c);
      var b3 := b.(list := rest, popped := b.popped + [m], handed := b.handed + [(c, m)],
                   drainers := b.drainers[c := Checking]);
      DrainEmptiesIff(b3, c);
      ReversedInit(b.list);
      assert b3.drainers - {c} == b.drainers - {c};
      assert b3.popped + Reversed(rest) == b.popped + ([m] + Reversed(rest));
      OneMoreOnConn(b.handed, c, m, Reversed(rest));
    }
  }

  lemma NothingOut(b: Box, c: ConnId)
    ensures b.popped + [] == b.popped && b.handed + OnConn(c, []) == b.handed && Reversed([]) == []
  {
  }

  lemma OneMoreOnConn(handed: seq<(ConnId, Msg)>, c: ConnId, m: Msg, ms: seq<Msg>)
    ensures handed + [(c, m)] + OnConn(c, ms) == handed + OnConn(c, [m] + ms)
  {
  }

  // To whom it is handed over.

  /** From the moment `c` was stored, it stays the user's connection exactly until it is dropped or another
      one is stored. Its drain loop does not look: what it hands over then goes to a dead connection. */
  lemma {:induction false} HandedToCurrentIff(states: seq<Box>, steps: seq<Step>, k: nat, i: nat, c: ConnId)
    requires IsRun(states, steps) && k < i < |states| && steps[k] == Store(c)
    requires forall j | k < j < i :: steps[j] != Store(c)
    ensures states[i].current == Some(c) <==> forall j | k < j < i :: steps[j] != Disconnect(c) && !steps[j].Store?
    ensures i < |steps| && steps[i] == Send(c) ==>
      |states[i].handed| < |states[i + 1].handed| && states[i + 1].handed[|states[i].handed|].0 == c
  {
    assert Enabled(states[i - 1], steps[i - 1]) && states[i] == Next(states[i - 1], steps[i - 1]);
    if i == k + 1 {
    } else {
      HandedToCurrentIff(states, steps, k, i - 1, c);
    }
  }

  /** A drain loop that survives a reconnect takes a message off the list for a dead connection: nothing is
      left to drain for the new one. */
  lemma StaleDrainTakesMessage(m: Msg)
    ensures var b1 := Next(EMPTY, Park(m));
      && Enabled(b1, Verify(1))
      && var b2 := Next(b1, Verify(1));
      && Enabled(b2, Store(1))
      && var b3 := Next(Next(b2, Store(1)), Disconnect(1));
      && Enabled(b3, Verify(2))
      && var b4 := Next(b3, Verify(2));
      && Enabled(b4, Store(2))
      && var b5 := Next(b4, Store(2));
      && Enabled(b5, Check(1))
      && var b6 := Next(b5, Check(1));
      && Enabled(b6, Pop(1))
      && var b7 := Next(b6, Pop(1));
      && Enabled(b7, Send(1))
      && var b8 := Next(b7, Send(1));
      && b8.current == Some(2) && b8.handed == [(1, m)] && b8.list == []
  {
  }

  /** Checking and storing are two steps: two logins of one user can both succeed, and both drain. */
  lemma BothLoginsSucceed(b: Box, c: ConnId, d: ConnId)
    requires b.current.None? && c != d && c !in b.drainers && d !in b.drainers
    ensures Enabled(b, Verify(c))
      && var b1 := Next(b, Verify(c));
      && Enabled(b1, Verify(d))
      && var b2 := Next(b1, Verify(d));
      && Enabled(b2, Store(c))
      && var b3 := Next(b2, Store(c));
      && Enabled(b3, Store(d))
      && var b4 := Next(b3, Store(d));
      && b4.current == Some(d) && b4.drainers[c] == b4.drainers[d] == Checking
  {
  }

  // Routing.

  datatype Delivery = Delivery(user: UserId, conn: ConnId, msg: Msg)

  /** `sent` are the messages given to live connections, with their receivers. */
  class ChatRouter {
    var friendsCache: Cache
    var groupCache: Cache
    var online: map<UserId, ConnId>
    var offline: map<UserId, seq<Msg>>
    var sent: seq<Delivery>
    var messages: seq<Msg>
    var groupMessages: seq<Msg>

    constructor (friendsCache: Cache, groupCache: Cache)
      ensures this.friendsCache == friendsCache && this.groupCache == groupCache
      ensures online == map[] && offline == map[] && sent == [] && messages == [] && groupMessages == []
    {
      this.friendsCache, this.groupCache := friendsCache, groupCache;
      online, offline, sent, messages, groupMessages := map[], map[], [], [], [];
    }

    method Lpush(u: UserId, msg: Msg)
      modifies `offline
      ensures ListIn(offline, u) == [msg] + old(ListIn(offline, u))
      ensures forall v: UserId | v != u :: ListIn(offline, v) == old(ListIn(offline, v))
    {
      offline := offline[u := [msg] + ListIn(offline, u)];
    }

    /** Private chat: delivered, or parked, or neither, and archived exactly when both are friends of each
        other; only a message the sender's own list refuses is answered with an error. */
    method Chat(sender: UserId, receiver: UserId, msg: Msg) returns (chatErrno: int)
      modifies `offline, `sent, `messages
      ensures var friends := receiver in Members(friendsCache, sender) && sender in Members(friendsCache, receiver);
        && messages == old(messages) + (if friends then [msg] else [])
        && sent == old(sent) +
           (if friends && receiver in online then [Delivery(receiver, online[receiver], msg)] else [])
        && ListIn(offline, receiver) ==
           (if friends && receiver !in online then [msg] else []) + old(ListIn(offline, receiver))
        && (forall v: UserId | v != receiver :: ListIn(offline, v) == old(ListIn(offline, v)))
      ensures chatErrno == if receiver in Members(friendsCache, sender) then 0 else 1
    {
      chatErrno := 0;
      if receiver in Members(friendsCache, sender) {
        if sender in Members(friendsCache, receiver) {
          if receiver in online {
            sent := sent + [Delivery(receiver, online[receiver], msg)];
          } else {
            Lpush(receiver, msg);
          }
          messages := messages + [msg];
        }
      } else {
        chatErrno := 1;
      }
    }

    /** `sendMessageOffLine` with nobody else active: everything parked goes out, oldest first. */
    method SendMessageOffLine(user: UserId, conn: ConnId)
      modifies `offline, `sent
      ensures forall v: UserId | v != user :: ListIn(offline, v) == old(ListIn(offline, v))
      ensures user !in online ==> sent == old(sent) && ListIn(offline, user) == old(ListIn(offline, user))
      ensures user in online ==>
        sent == old(sent) + Stamped(user, conn, Reversed(old(ListIn(offline, user)))) && ListIn(offline, user) == []
    {
      ghost var gone: seq<Msg> := [];
      while true
        invariant forall v: UserId | v != user :: ListIn(offline, v) == old(ListIn(offline, v))
        invariant gone + Reversed(ListIn(offline, user)) == Reversed(old(ListIn(offline, user)))
        invariant sent == old(sent) + Stamped(user, conn, gone)
        invariant user !in online ==> gone == [] && ListIn(offline, user) == old(ListIn(offline, user))
        decreases |ListIn(offline, user)|
      {
        if user !in online {
          return;
        }
        var list := ListIn(offline, user);
        if list == [] {
          break;
        }
        var json := list[|list| - 1];
        ReversedInit(list);
        assert gone + ([json] + Reversed(list[..|list| - 1])) == (gone + [json]) + Reversed(list[..|list| - 1]);
        offline := offline[user := list[..|list| - 1]];
        assert Stamped(user, conn, gone + [json]) == Stamped(user, conn, gone) + [Delivery(user, conn, json)];
        sent := sent + [Delivery(user, conn, json)];
        gone := gone + [json];
      }
      assert gone + [] == gone;
    }

    /** What one iteration of the member loop does for its member. */
    method Route(member: UserId, sender: UserId, msg: Msg, lookup: map<UserId, ConnId>)
      modifies `offline, `sent
      ensures Routed(old(sent), old(offline), sent, offline, member, sender, msg, lookup)
    {
      if member != sender {
        if member in lookup {
          sent := sent + [Delivery(member, lookup[member], msg)];
        } else {
          Lpush(member, msg);
        }
      }
    }

    /** Group chat. `lookup` holds the connections that `getConnectionPtr` finds in the loop. */
    method GroupChat(sender: UserId, group: nat, msg: Msg, lookup: map<UserId, ConnId>)
      modifies `offline, `sent, `groupMessages
      ensures sender in Members(groupCache, group) ==>
        Spread(old(sent), old(offline), old(groupMessages), sent, offline, groupMessages,
               Members(groupCache, group), sender, msg, lookup)
      ensures sender !in Members(groupCache, group) ==>
        offline == old(offline) && sent == old(sent) && groupMessages == old(groupMessages)
    {
      hide *;
      var members := Members(groupCache, group);
      if sender !in members {
        return;
      }
      var todo := members;
      NobodyRouted(sent, offline, groupMessages, sender, msg, lookup);
      assert members - todo == {};
      while todo != {}
        invariant todo <= members == Members(groupCache, group)
        invariant Spread(old(sent), old(offline), old(groupMessages), sent, offline, groupMessages,
                         members - todo, sender, msg, lookup)
      {
        var member :| member in todo;
        ghost var sentBefore, offlineBefore, archived := sent, offline, groupMessages;
        Route(member, sender, msg, lookup);
        groupMessages := groupMessages + [msg];
        OneMoreRouted(old(sent), old(offline), old(groupMessages), sentBefore, offlineBefore, archived, sent, offline,
                      members - todo, member, sender, msg, lookup);
        assert members - (todo - {member}) == members - todo + {member};
        todo := todo - {member};
      }
      assert members - todo == members;
    }
  }

  /** From (`sent`, `lists`) to (`sentAfter`, `listsAfter`), `member` got `msg` live or parked, unless he sent it. */
  ghost predicate Routed(sent: seq<Delivery>, lists: map<UserId, seq<Msg>>, sentAfter: seq<Delivery>,
                         listsAfter: map<UserId, seq<Msg>>, member: UserId, sender: UserId, msg: Msg,
                         lookup: map<UserId, ConnId>)
  {
    && sentAfter == sent +
       (if member != sender && member in lookup then [Delivery(member, lookup[member], msg)] else [])
    && ListIn(listsAfter, member) ==
       (if member != sender && member !in lookup then [msg] else []) + ListIn(lists, member)
    && forall v: UserId | v != member :: ListIn(listsAfter, v) == ListIn(lists, v)
  }

  /** Everyone of `to` but the sender got `msg` exactly once, live or parked; it was archived once for each of `to`. */
  ghost predicate Spread(sent: seq<Delivery>, lists: map<UserId, seq<Msg>>, archive: seq<Msg>, sentAfter: seq<Delivery>,
                         listsAfter: map<UserId, seq<Msg>>, archiveAfter: seq<Msg>, to: set<UserId>, sender: UserId,
                         msg: Msg, lookup: map<UserId, ConnId>)
  {
    && sent <= sentAfter
    && SentOnce(sentAfter[|sent|..], to - {sender}, msg, lookup)
    && ParkedOnce(lists, listsAfter, to - {sender}, msg, lookup)
    && archiveAfter == archive + Copies(msg, |to|)
  }

  lemma OneMoreRouted(sent: seq<Delivery>, lists: map<UserId, seq<Msg>>, archive: seq<Msg>,
                      sent1: seq<Delivery>, lists1: map<UserId, seq<Msg>>, archive1: seq<Msg>,
                      sent2: seq<Delivery>, lists2: map<UserId, seq<Msg>>,
                      done: set<UserId>, member: UserId, sender: UserId, msg: Msg, lookup: map<UserId, ConnId>)
    requires Spread(sent, lists, archive, sent1, lists1, archive1, done, sender, msg, lookup)
    requires member !in done && Routed(sent1, lists1, sent2, lists2, member, sender, msg, lookup)
    ensures Spread(sent, lists, archive, sent2, lists2, archive1 + [msg], done + {member}, sender, msg, lookup)
  {
    hide SentOnce, ParkedOnce, ListIn, Copies;
    SentStep(sent, sent1, sent2, done, member, sender, msg, lookup);
    ParkedStep(lists, lists1, lists2, done, member, sender, msg, lookup);
    OneMoreCopy(archive, msg, |done|);
  }

  lemma SentStep(sent: seq<Delivery>, sent1: seq<Delivery>, sent2: seq<Delivery>, done: set<UserId>, member: UserId,
                 sender: UserId, msg: Msg, lookup: map<UserId, ConnId>)
    requires sent <= sent1 && SentOnce(sent1[|sent|..], done - {sender}, msg, lookup) && member !in done
    requires sent2 == sent1 +
      if member != sender && member in lookup then [Delivery(member, lookup[member], msg)] else []
    ensures sent <= sent2 && SentOnce(sent2[|sent|..], done + {member} - {sender}, msg, lookup)
  {
    hide SentOnce;
    var out := sent1[|sent|..];
    if member == sender {
      assert done + {member} - {sender} == done - {sender} && sent2 == sent1;
    } else {
      assert done + {member} - {sender} == done - {sender} + {member};
      SendOneMore(out, done - {sender}, member, msg, lookup);
      assert sent2[|sent|..] == if member in lookup then out + [Delivery(member, lookup[member], msg)] else out;
    }
  }

  lemma ParkedStep(lists: map<UserId, seq<Msg>>, lists1: map<UserId, seq<Msg>>, lists2: map<UserId, seq<Msg>>,
                   done: set<UserId>, member: UserId, sender: UserId, msg: Msg, lookup: map<UserId, ConnId>)
    requires ParkedOnce(lists, lists1, done - {sender}, msg, lookup) && member !in done
    requires ListIn(lists2, member) ==
      (if member != sender && member !in lookup then [msg] else []) + ListIn(lists1, member)
    requires forall v: UserId | v != member :: ListIn(lists2, v) == ListIn(lists1, v)
    ensures ParkedOnce(lists, lists2, done + {member} - {sender}, msg, lookup)
  {
  }

  function ListIn(lists: map<UserId, seq<Msg>>, u: UserId): seq<Msg> {
    if u in lists then lists[u] else []
  }

  function Receivers(out: seq<Delivery>): seq<UserId> {
    seq(|out|, i requires 0 <= i < |out| => out[i].user)
  }

  /** Each online user of `to` is sent `msg` exactly once, on the connection found for him, and nobody else is. */
  predicate SentOnce(out: seq<Delivery>, to: set<UserId>, msg: Msg, lookup: map<UserId, ConnId>) {
    && multiset(Receivers(out)) == multiset(to * lookup.Keys)
    && forall i | 0 <= i < |out| :: out[i].user in lookup && out[i].conn == lookup[out[i].user] && out[i].msg == msg
  }

  /** From the lists `before` to `after`, each offline user of `to` got `msg` parked once, and nobody else. */
  ghost predicate ParkedOnce(before: map<UserId, seq<Msg>>, after: map<UserId, seq<Msg>>, to: set<UserId>, msg: Msg,
                             lookup: map<UserId, ConnId>)
  {
    forall v: UserId ::
      ListIn(after, v) == if v in to && v !in lookup then [msg] + ListIn(before, v) else ListIn(before, v)
  }

  lemma NobodyRouted(sent: seq<Delivery>, lists: map<UserId, seq<Msg>>, archive: seq<Msg>, sender: UserId, msg: Msg,
                     lookup: map<UserId, ConnId>)
    ensures Spread(sent, lists, archive, sent, lists, archive, {}, sender, msg, lookup)
  {
  }

  lemma SendOneMore(out: seq<Delivery>, to: set<UserId>, u: UserId, msg: Msg, lookup: map<UserId, ConnId>)
    requires SentOnce(out, to, msg, lookup) && u !in to
    ensures SentOnce(if u in lookup then out + [Delivery(u, lookup[u], msg)] else out, to + {u}, msg, lookup)
  {
    if u in lookup {
      assert Receivers(out + [Delivery(u, lookup[u], msg)]) == Receivers(out) + [u];
      assert (to + {u}) * lookup.Keys == to * lookup.Keys + {u};
    } else {
      assert (to + {u}) * lookup.Keys == to * lookup.Keys;
    }
  }

  function Copies(msg: Msg, n: nat): seq<Msg> {
    seq(n, _ => msg)
  }

  lemma OneMoreCopy(archive: seq<Msg>, msg: Msg, n: nat)
    ensures archive + Copies(msg, n) + [msg] == archive + Copies(msg, n + 1)
  {
  }

  function Stamped(u: UserId, c: ConnId, ms: seq<Msg>): seq<Delivery> {
    seq(|ms|, i requires 0 <= i < |ms| => Delivery(u, c, ms[i]))
  }
}
