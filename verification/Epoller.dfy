/** Channels, the poller's registration state, and the kernel's interest list it shadows. */
module Epollers {

  type Mask = bv16

  const NONE_EVENT: Mask := 0
  const READ_EVENT: Mask := 0x1 | 0x2
  const WRITE_EVENT: Mask := 0x4

  function WithRead(e: Mask): Mask { e | READ_EVENT }

  function WithWrite(e: Mask): Mask { e | WRITE_EVENT }

  function WithoutWrite(e: Mask): Mask { e & !WRITE_EVENT }

  const NEW := -1
  const ADDED := 1
  const DELETE := 2

  datatype Chan = Chan(events: Mask, index: int)

  /** `chans` are the live channels by descriptor, `table` the keys of `channels_`, `interest` what the
      kernel watches. `fatal` records a failed ADD or MOD (which ends the process), `failedDel` a failed DEL. */
  datatype Poll = Poll(
    chans: map<int, Chan>,
    table: set<int>,
    interest: map<int, Mask>,
    fatal: bool,
    failedDel: bool)

  datatype CtlOp = CtlAdd | CtlMod | CtlDel

  /** `epoll_ctl`, with the kernel's own rule for failure. */
  function Ctl(p: Poll, op: CtlOp, fd: int, events: Mask): Poll {
    match op
    case CtlAdd => if fd in p.interest then p.(fatal := true) else p.(interest := p.interest[fd := events])
    case CtlMod => if fd !in p.interest then p.(fatal := true) else p.(interest := p.interest[fd := events])
    case CtlDel => if fd !in p.interest then p.(failedDel := true) else p.(interest := p.interest - {fd})
  }

  /** A call the kernel refuses is remembered and changes nothing else. */
  lemma RefusalRemembered(p: Poll, op: CtlOp, fd: int, events: Mask)
    ensures var d := Ctl(p, op, fd, events);
      var refused := (fd in p.interest) == op.CtlAdd?;
      && (d.fatal <==> p.fatal || (refused && !op.CtlDel?))
      && (d.failedDel <==> p.failedDel || (refused && op.CtlDel?))
      && d.chans == p.chans && d.table == p.table && (refused ==> d.interest == p.interest)
      && (!refused ==> (fd in d.interest <==> !op.CtlDel?) && d.interest - {fd} == p.interest - {fd})
      && (!refused && !op.CtlDel? ==> d.interest[fd] == events)
  {
  }

  function WithIndex(p: Poll, fd: int, index: int): Poll
    requires fd in p.chans
  {
    p.(chans := p.chans[fd := p.chans[fd].(index := index)])
  }

  function Updated(p: Poll, fd: int): Poll
    requires fd in p.chans
  {
    var c := p.chans[fd];
    if c.index == NEW || c.index == DELETE then
      var p1 := if c.index == NEW then p.(table := p.table + {fd}) else p;
      Ctl(WithIndex(p1, fd, ADDED), CtlAdd, fd, c.events)
    else if c.events == NONE_EVENT then
      WithIndex(Ctl(p, CtlDel, fd, c.events), fd, DELETE)
    else
      Ctl(p, CtlMod, fd, c.events)
  }

  function Removed(p: Poll, fd: int): Poll
    requires fd in p.chans
  {
    var c := p.chans[fd];
    var p1 := p.(table := p.table - {fd});
    WithIndex(if c.index == ADDED then Ctl(p1, CtlDel, fd, c.events) else p1, fd, NEW)
  }

  function Masked(p: Poll, fd: int, events: Mask): Poll
    requires fd in p.chans
  {
    Updated(p.(chans := p.chans[fd := p.chans[fd].(events := events)]), fd)
  }

  datatype Call =
    | Open(fd: int) | Destroy(fd: int)
    | EnableReading(fd: int) | EnableWriting(fd: int) | DisableWriting(fd: int) | DisableAll(fd: int)
    | RemoveChannel(fd: int)

  /** A descriptor belongs to one live channel at a time, and a channel dies only after `removeChannel`. */
  predicate Enabled(p: Poll, c: Call) {
    match c
    case Open(fd) => fd !in p.chans
    case Destroy(fd) => fd in p.chans && p.chans[fd].index == NEW
    case _ => c.fd in p.chans
  }

  function Next(p: Poll, c: Call): Poll
    requires Enabled(p, c)
  {
    match c
    case Open(fd) => p.(chans := p.chans[fd := Chan(NONE_EVENT, NEW)])
    case Destroy(fd) => p.(chans := p.chans - {fd})
    case EnableReading(fd) => Masked(p, fd, WithRead(p.chans[fd].events))
    case EnableWriting(fd) => Masked(p, fd, WithWrite(p.chans[fd].events))
    case DisableWriting(fd) => Masked(p, fd, WithoutWrite(p.chans[fd].events))
    case DisableAll(fd) => Masked(p, fd, NONE_EVENT)
    case RemoveChannel(fd) => Removed(p, fd)
  }

  const IDLE := Poll(map[], {}, map[], false, false)

  /** The kernel watches exactly the added channels, with exactly their masks, and no call has failed. */
  ghost predicate Shadows(p: Poll) {
    && (forall fd :: fd in p.interest <==> fd in p.chans && p.chans[fd].index == ADDED)
    && (forall fd | fd in p.interest :: p.interest[fd] == p.chans[fd].events)
    && (forall fd :: fd in p.table <==> fd in p.chans && p.chans[fd].index != NEW)
    && !p.fatal && !p.failedDel
    && forall fd | fd in p.chans ::
         && p.chans[fd].index in {NEW, ADDED, DELETE}
         && (p.chans[fd].index == DELETE ==> p.chans[fd].events == NONE_EVENT)
  }

  lemma UpdateShadows(p: Poll, fd: int, events: Mask)
    requires Shadows(p) && fd in p.chans
    ensures Shadows(Masked(p, fd, events))
  {
  }

  lemma RemoveShadows(p: Poll, fd: int)
    requires Shadows(p) && fd in p.chans
    ensures Shadows(Removed(p, fd))
  {
  }

  lemma OpenShadows(p: Poll, fd: int)
    requires Shadows(p) && fd !in p.chans
    ensures Shadows(Next(p, Open(fd)))
  {
  }

  lemma DestroyShadows(p: Poll, fd: int)
    requires Shadows(p) && fd in p.chans && p.chans[fd].index == NEW
    ensures Shadows(Next(p, Destroy(fd)))
  {
  }

  lemma NextShadows(p: Poll, c: Call)
    requires Shadows(p) && Enabled(p, c)
    ensures Shadows(Next(p, c))
  {
    hide Updated, Masked, Removed, Shadows;
    match c
    case RemoveChannel(fd) => RemoveShadows(p, fd);
    case Open(fd) => OpenShadows(p, fd);
    case Destroy(fd) => DestroyShadows(p, fd);
    case EnableReading(fd) => UpdateShadows(p, fd, WithRead(p.chans[fd].events));
    case EnableWriting(fd) => UpdateShadows(p, fd, WithWrite(p.chans[fd].events));
    case DisableWriting(fd) => UpdateShadows(p, fd, WithoutWrite(p.chans[fd].events));
    case DisableAll(fd) => UpdateShadows(p, fd, NONE_EVENT);
  }

  ghost predicate IsRun(states: seq<Poll>, calls: seq<Call>) {
    && |states| == |calls| + 1 && states[0] == IDLE
    && forall i | 0 <= i < |calls| :: Enabled(states[i], calls[i]) && states[i + 1] == Next(states[i], calls[i])
  }

  lemma {:induction false} RunShadows(states: seq<Poll>, calls: seq<Call>, i: nat)
    requires IsRun(states, calls) && i < |states|
    ensures Shadows(states[i])
  {
    if i == 0 {
    } else {
      hide Shadows, Next, Enabled;
      RunShadows(states, calls, i - 1);
      NextShadows(states[i - 1], calls[i - 1]);
    }
  }

  /** After any calls on any channels: no call failed, so the fatal branch was never taken; and the kernel
      watches a descriptor exactly when its channel is added, with that channel's mask. */
  lemma EpollerShadowsKernel(states: seq<Poll>, calls: seq<Call>, i: nat)
    requires IsRun(states, calls) && i < |states|
    ensures var p := states[i];
      && !p.fatal && !p.failedDel
      && (forall fd :: fd in p.interest <==> fd in p.chans && p.chans[fd].index == ADDED)
      && (forall fd | fd in p.interest :: p.interest[fd] == p.chans[fd].events)
      && (forall fd | fd in p.chans && p.chans[fd].index != NEW && p.chans[fd].events != NONE_EVENT :: fd in p.interest)
  {
    RunShadows(states, calls, i);
  }

  /** `disableAll` takes the descriptor off the interest list exactly when it was on it; otherwise it puts
      it on the list with an empty mask. */
  lemma DisableAllToggles(p: Poll, fd: int)
    requires Shadows(p) && fd in p.chans
    ensures var d := Next(p, DisableAll(fd));
      && (fd in d.interest <==> fd !in p.interest)
      && d.chans[fd].events == NONE_EVENT && p.interest - {fd} == d.interest - {fd}
  {
  }

  // What the calls mean to the kernel.

  predicate Reads(events: Mask) { events & READ_EVENT == READ_EVENT }

  predicate Writes(events: Mask) { events & WRITE_EVENT == WRITE_EVENT }

  lemma ReadBits(e: Mask)
    ensures Reads(WithRead(e))
  {
  }

  lemma ReadBitsAlone(e: Mask)
    ensures Writes(WithRead(e)) == Writes(e)
  {
  }

  lemma WriteBit(e: Mask)
    ensures Writes(WithWrite(e))
  {
  }

  lemma WriteBitAlone(e: Mask)
    ensures Reads(WithWrite(e)) == Reads(e)
  {
  }

  lemma WriteBitCleared(e: Mask)
    ensures !Writes(WithoutWrite(e))
  {
  }

  lemma WriteBitClearedAlone(e: Mask)
    ensures Reads(WithoutWrite(e)) == Reads(e)
  {
  }

  lemma NotNone(events: Mask)
    ensures Reads(events) || Writes(events) ==> events != NONE_EVENT
  {
  }

  /** The kernel watches `fd` with `events`, or possibly not at all if they are empty; nothing else changed. */
  predicate Rewatched(p: Poll, d: Poll, fd: int, events: Mask) {
    && (fd in d.interest ==> d.interest[fd] == events)
    && (events != NONE_EVENT ==> fd in d.interest)
    && p.interest - {fd} == d.interest - {fd}
  }

  lemma MaskReachesKernel(p: Poll, fd: int, events: Mask)
    requires Shadows(p) && fd in p.chans
    ensures Rewatched(p, Masked(p, fd, events), fd, events)
  {
  }

  /** Enabling makes the kernel watch for the kind of event asked for, disabling stops it, and neither
      touches the other kind or another descriptor. */
  lemma KernelWatches(p: Poll, fd: int)
    requires Shadows(p) && fd in p.chans
    ensures var d := Next(p, EnableReading(fd));
      && fd in d.interest && Reads(d.interest[fd]) && Writes(d.interest[fd]) == Writes(p.chans[fd].events)
      && p.interest - {fd} == d.interest - {fd}
    ensures var d := Next(p, EnableWriting(fd));
      && fd in d.interest && Writes(d.interest[fd]) && Reads(d.interest[fd]) == Reads(p.chans[fd].events)
      && p.interest - {fd} == d.interest - {fd}
    ensures var d := Next(p, DisableWriting(fd));
      && (fd in d.interest ==> !Writes(d.interest[fd]) && Reads(d.interest[fd]) == Reads(p.chans[fd].events))
      && (Reads(p.chans[fd].events) ==> fd in d.interest)
      && p.interest - {fd} == d.interest - {fd}
  {
    hide Masked, Shadows, Reads, Writes, WithRead, WithWrite, WithoutWrite;
    var e := p.chans[fd].events;
    ReadBits(e);
    ReadBitsAlone(e);
    WriteBit(e);
    WriteBitAlone(e);
    WriteBitCleared(e);
    WriteBitClearedAlone(e);
    NotNone(WithRead(e));
    NotNone(WithWrite(e));
    NotNone(WithoutWrite(e));
    MaskReachesKernel(p, fd, WithRead(e));
    MaskReachesKernel(p, fd, WithWrite(e));
    MaskReachesKernel(p, fd, WithoutWrite(e));
  }

  /** The other calls: a new channel is watched by nobody; a removed one is gone from the table and from the
      kernel's list, and may be destroyed; and each call leaves all other channels alone. */
  lemma LifeOutcome(p: Poll, fd: int)
    requires Shadows(p)
    ensures fd !in p.chans ==>
      var d := Next(p, Open(fd));
      d.chans == p.chans[fd := Chan(NONE_EVENT, NEW)] && d.interest == p.interest && d.table == p.table
    ensures fd in p.chans ==>
      var d := Next(p, RemoveChannel(fd));
      && fd !in d.interest && fd !in d.table && Enabled(d, Destroy(fd))
      && d.interest == p.interest - {fd} && d.table == p.table - {fd} && d.chans - {fd} == p.chans - {fd}
      && d.chans[fd].events == p.chans[fd].events
    ensures fd in p.chans && p.chans[fd].index == NEW ==>
      var d := Next(p, Destroy(fd));
      d.chans == p.chans - {fd} && d.interest == p.interest && d.table == p.table
  {
  }

  /** A mask change is remembered, registers the channel, and leaves all other channels alone. */
  lemma MaskOutcome(p: Poll, fd: int, events: Mask)
    requires Shadows(p) && fd in p.chans
    ensures var d := Masked(p, fd, events);
      && fd in d.chans && d.chans[fd].events == events && d.chans[fd].index != NEW && fd in d.table
      && d.chans - {fd} == p.chans - {fd} && d.table == p.table + {fd} && p.interest - {fd} == d.interest - {fd}
  {
  }

  // The classes.

  class Channel {
    const fd: int
    var events: Mask
    var index: int

    constructor (fd: int)
      ensures this.fd == fd && events == NONE_EVENT && index == NEW
    {
      this.fd, events, index := fd, NONE_EVENT, NEW;
    }

    predicate IsNoneEvent()
      reads this
    {
      events == NONE_EVENT
    }

    method EnableReading(poller: Epoller)
      requires poller.Valid() && this in poller.all
      modifies this, poller
      ensures poller.Valid() && poller.all == old(poller.all)
      ensures poller.View() == Next(old(poller.View()), Call.EnableReading(fd))
    {
      poller.SetMask(this, events | READ_EVENT);
    }

    method EnableWriting(poller: Epoller)
      requires poller.Valid() && this in poller.all
      modifies this, poller
      ensures poller.Valid() && poller.all == old(poller.all)
      ensures poller.View() == Next(old(poller.View()), Call.EnableWriting(fd))
    {
      poller.SetMask(this, events | WRITE_EVENT);
    }

    method DisableWriting(poller: Epoller)
      requires poller.Valid() && this in poller.all
      modifies this, poller
      ensures poller.Valid() && poller.all == old(poller.all)
      ensures poller.View() == Next(old(poller.View()), Call.DisableWriting(fd))
    {
      poller.SetMask(this, events & !WRITE_EVENT);
    }

    method DisableAll(poller: Epoller)
      requires poller.Valid() && this in poller.all
      modifies this, poller
      ensures poller.Valid() && poller.all == old(poller.all)
      ensures poller.View() == Next(old(poller.View()), Call.DisableAll(fd))
    {
      poller.SetMask(this, NONE_EVENT);
    }
  }

  class Epoller {
    var channels: map<int, Channel>
    var interest: map<int, Mask>
    var fatal: bool
    var failedDel: bool
    ghost var all: set<Channel>

    /** The live channels have distinct descriptors, and `channels_` points at them. */
    ghost predicate Valid()
      reads this, all
    {
      && (forall c, d | c in all && d in all && c != d :: c.fd != d.fd)
      && (forall fd | fd in channels :: channels[fd] in all && channels[fd].fd == fd)
    }

    ghost function View(): Poll
      requires Valid()
      reads this, all
    {
      Poll(map c | c in all :: c.fd := Chan(c.events, c.index), channels.Keys, interest, fatal, failedDel)
    }

    constructor ()
      ensures Valid() && all == {} && View() == IDLE
    {
      channels, interest, fatal, failedDel, all := map[], map[], false, false, {};
      new;
      assert View().chans == map[];
    }

    method Update(op: CtlOp, channel: Channel)
      requires Valid() && channel in all
      modifies `interest, `fatal, `failedDel
      ensures Valid() && View() == Ctl(old(View()), op, channel.fd, channel.events)
    {
      var fd := channel.fd;
      match op
      case CtlAdd =>
        if fd in interest { fatal := true; } else { interest := interest[fd := channel.events]; }
      case CtlMod =>
        if fd !in interest { fatal := true; } else { interest := interest[fd := channel.events]; }
      case CtlDel =>
        if fd !in interest { failedDel := true; } else { interest := interest - {fd}; }
    }

    method SetIndex(channel: Channel, index: int)
      requires Valid() && channel in all
      modifies channel`index
      ensures Valid() && channel.index == index
      ensures View() == WithIndex(old(View()), channel.fd, index)
    {
      ghost var before := View();
      channel.index := index;
      assert View().chans == before.chans[channel.fd := Chan(channel.events, index)];
    }

    lemma ViewAt(channel: Channel)
      requires Valid() && channel in all
      ensures channel.fd in View().chans
      ensures View().chans[channel.fd] == Chan(channel.events, channel.index)
    {
    }

    method Remember(channel: Channel)
      requires Valid() && channel in all
      modifies `channels
      ensures Valid() && View() == old(View()).(table := old(View()).table + {channel.fd})
    {
      channels := channels[channel.fd := channel];
    }

    method Forget(fd: int)
      requires Valid()
      modifies `channels
      ensures Valid() && View() == old(View()).(table := old(View()).table - {fd})
    {
      channels := channels - {fd};
    }

    method UpdateChannel(channel: Channel)
      requires Valid() && channel in all
      modifies this, channel`index
      ensures Valid() && all == old(all)
      ensures View() == Updated(old(View()), channel.fd)
    {
      hide View, Valid;
      ViewAt(channel);
      var index := channel.index;
      if index == NEW || index == DELETE {
        if index == NEW {
          Remember(channel);
        }
        SetIndex(channel, ADDED);
        Update(CtlAdd, channel);
      } else {
        if channel.IsNoneEvent() {
          Update(CtlDel, channel);
          SetIndex(channel, DELETE);
        } else {
          Update(CtlMod, channel);
        }
      }
    }

    /** A change of `events_` followed by `update()`. */
    method SetMask(channel: Channel, events: Mask)
      requires Valid() && channel in all
      modifies this, channel
      ensures Valid() && all == old(all)
      ensures View() == Masked(old(View()), channel.fd, events)
    {
      ghost var before := View();
      channel.events := events;
      assert View().chans == before.chans[channel.fd := Chan(events, channel.index)];
      UpdateChannel(channel);
    }

    method RemoveChannel(channel: Channel)
      requires Valid() && channel in all
      modifies this, channel`index
      ensures Valid() && all == old(all)
      ensures View() == Next(old(View()), Call.RemoveChannel(channel.fd))
    {
      hide View, Valid;
      ViewAt(channel);
      var index := channel.index;
      Forget(channel.fd);
      if index == ADDED {
        Update(CtlDel, channel);
      }
      SetIndex(channel, NEW);
    }

    method OpenChannel(fd: int) returns (channel: Channel)
      requires Valid() && fd !in View().chans
      modifies this
      ensures Valid() && fresh(channel) && channel.fd == fd && all == old(all) + {channel}
      ensures View() == Next(old(View()), Open(fd))
    {
      ghost var before := View();
      assert forall c | c in all :: c.fd in before.chans;
      channel := new Channel(fd);
      all := all + {channel};
      assert View().chans == before.chans[fd := Chan(NONE_EVENT, NEW)];
    }
  }
}
