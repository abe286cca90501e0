# WeeeChatroom, modelled and verified

WeeeChatroom is a chat server and a terminal client on top of a small reactor library. This project models
the logic that sits between the system calls, the database and the terminal, and proves what that logic is
for. `dafny verify dfyconfig.toml` checks everything.

Every module follows the same plan. A datatype is the state; functions such as `AfterSendInLoop`, `Added` or
`Answered` say what one operation does to it; a class with the source's own fields and methods is proved to do
exactly that; and lemmas over whole runs, with arbitrary interleavings, counts, errors and arrivals, state the
properties. System calls appear only as their results: how many bytes `write` took, which `errno` came back,
which channel became ready.

| file | subject | main results |
|---|---|---|
| `Buffer.dfy` | array buffer with two indices, overlapping compaction, growth, scatter read | refines a byte queue; storage stays bounded by the backlog |
| `Codec.dfy` | 4-byte length prefix, and the loop that cuts frames out | round trip exactly up to 2^31 - 5 bytes; chunking does not matter; malformed headers |
| `TcpConnection.dfy` | direct write, output buffer, delayed half-close | wire conservation over every run; exactly when a half-close leaves bytes behind |
| `Delivery.dfy` | sender, wire and receiver composed | end-to-end delivery: whole, once, in the order the loop thread sent; when that is the order of the calls |
| `EventLoop.dfy` | functor queue, eventfd wakeup, `doPendingFunctors` | no lost wakeup; functors run once, in order, in bounded batches |
| `TimerQueue.dfy` | ordered timer set and one-shot timerfd | timers are neither lost nor duplicated |
| `Epoller.dfy` | channels and the registration automaton | the kernel's interest list is shadowed; the fatal branch is unreachable |
| `Connector.dfy` | connection attempts with back-off | every socket is owned once; one attempt at a time; exact delays |
| `ThreadPool.dfy` | task queue with "keep only the newest" | tasks taken once, in order; never all asleep over a full queue |
| `Common.dfy`, `Redis.dfy`, `Friends.dfy`, `Groups.dfy`, `Server.dfy` | tables, Redis sets, and the handlers that change both | caches agree with tables; one owner per group; account destruction is complete |
| `Tables.dfy` | a second, row-by-row definition of every handler | it is what the handlers, written statement by statement, do; what the error numbers mean |
| `WriteBehind.dfy` | periodic flush of Redis lists to tables | nothing lost, duplicated or reordered; one refused record blocks the queue |
| `ChatLog.dfy` | backward paging of the local log | pages partition the log |
| `Offline.dfy` | live routing, offline lists, draining | nothing lost or doubled in any interleaving; exactly when order is kept; each member gets a group message once |
| `Layout.dfy` | UTF-8 repair, tabs, width, wrapping | greedy wrapping is optimal; the four scanners agree |

Some properties that one would expect are false of the code as it is. For each of them there is a lemma that
says exactly when the property holds, and often a second one with a run that breaks it:

- an accept that nobody requested: `Friends.AcceptKeepsIff`, `Groups.AcceptKeepsIff`;
- stale sets at start-up: `Server.LoadAgreesIff`;
- destroying the account of somebody whose dissolved group a pending request kept: `Server.KillEnabledIff`,
  `Server.HeadlessGroupReachable`;
- a functor queued before `loop()` while `callingPendingFunctors_` happens to be false:
  `EventLoops.EarlyPushNoticedIff`; a quit requested before `loop()`: `EventLoops.QuitSurvivesIff`,
  `EventLoops.EarlyQuitLost`;
- a payload that overtakes one of another thread: `Delivery.OrderKeptIff`, `Delivery.QueuedIsOvertaken`;
- a half-close that overtakes another thread's message: `TcpConnections.HalfCloseCompleteIff`,
  `TcpConnections.QueuedMessageLost`, `TcpConnections.DrainOvertakesQueue`;
- a queued channel reset that hits the next attempt's channel: `Connectors.ChannelAliveIff`,
  `Connectors.NewChannelSurvivesIff`, `Connectors.StaleResetReachable`;
- two drain loops for one user: `Offline.NoOverlapIff`, `Offline.SendKeepsOrderIff`,
  `Offline.HandedToCurrentIff`, with the runs `Offline.BothLoginsSucceed`, `Offline.OverlapReorders` and
  `Offline.StaleDrainTakesMessage`;
- a wrapped-around page offset: `ChatLog.PageIntendedIff`;
- frames too long for the receiver: `Codec.FrameRecoveredIff`;
- lines narrower than one character: `Layout.GreedyFitsIff`.

## Model

| member | source | states |
|---|---|---|
| Buffers.MadeSpace | netlib/reactor/Buffer.h:15-30 | the new indices are legal, keep the readable count and leave room for `len`; storage grows exactly when sliding down would not make enough room, and then stays below readable + 2 * len + 8 |
| Buffers.Appended | netlib/reactor/Buffer.h:62-75 | an append keeps 8 <= reader <= writer <= size and makes `len` more bytes readable |
| Buffers.ReadInto | netlib/reactor/Buffer.cc:14-30 | a read of `n` bytes makes exactly `n` more bytes readable, with or without the overflow area |
| Buffers.Buffer.constructor | netlib/reactor/Buffer.h:35-40 | a new buffer is empty, with 8 bytes of prepend space and 1024 bytes of room |
| Buffers.Buffer.Peek | netlib/reactor/Buffer.h:46-46 | the bytes read are the oldest unread ones |
| Buffers.Buffer.Retrieve | netlib/reactor/Buffer.h:48-48 | drops the oldest `len` bytes of the byte queue and nothing else |
| Buffers.Buffer.RetrieveAll | netlib/reactor/Buffer.h:50-54 | empties the queue and resets both indices |
| Buffers.Buffer.RetrieveAsString | netlib/reactor/Buffer.h:55-60 | returns the whole queue and leaves it empty |
| Buffers.Buffer.Resize | netlib/reactor/Buffer.h:19-19 | growing the vector keeps every stored byte and the queue |
| Buffers.Buffer.SlideDown | netlib/reactor/Buffer.h:23-28 | the forward copy over an overlapping range keeps the queue and moves it to the front |
| Buffers.Buffer.MakeSpace | netlib/reactor/Buffer.h:15-30 | through both branches the queue is unchanged and the indices are those of `MadeSpace` |
| Buffers.Buffer.EnsureWritableBytes | netlib/reactor/Buffer.h:69-75 | keeps the queue, makes room only when there is too little |
| Buffers.Buffer.Fill | netlib/reactor/Buffer.h:65-66 | bytes copied to the free tail and committed are appended to the queue |
| Buffers.Buffer.Append | netlib/reactor/Buffer.h:62-67 | refines sequence append, whatever the free space |
| Buffers.Buffer.ReadFd | netlib/reactor/Buffer.cc:6-32 | appends exactly the bytes the kernel gave, across the free tail and the overflow area; an error changes nothing |
| Buffers.StorageBounded | netlib/reactor/Buffer.h:15-30 | over any run, however many bytes pass through, storage grows only to less than peak backlog + 2 * largest append + 8 |
| Codec.SendJson | server/base/base.cc:14-22 | what a sender writes is cut out again as exactly its payload, whatever follows, if and only if the payload has at most 2^31 - 5 bytes |
| Codec.HeaderRoundTrip | server/base/base.cc:16-20 | the four header bytes read back as the 32 bits that were written, whatever follows |
| Codec.NetworkOrder | server/base/base.cc:16-20 | the most significant byte travels first |
| Codec.CutFrame | server/Service.cc:139-150 | one loop iteration consumes bytes whenever it yields a payload, and otherwise leaves the buffer alone unless the string constructor throws |
| Codec.OnMessage | server/Service.cc:137-159 | the loop on the real buffer emits the payloads of the specification, keeps its remainder, and stops for its reason, including sign extension and `int` overflow |
| Codec.FrameRecoveredIff | client/Neter.cc:44-63 | a frame is cut out whole, whatever follows it, exactly when the payload has at most 2^31 - 5 bytes |
| Codec.DeframeEncode | client/Neter.cc:44-73 | decoding undoes encoding: a list of frames followed by anything yields the list, then what the rest yields |
| Codec.CutExtends | server/Service.cc:145-150 | a frame that can be cut now is cut the same way when more bytes arrive first |
| Codec.DeframeIncremental | server/Service.cc:137-159 | stopping for more bytes and resuming later is the same as running once on everything |
| Codec.StopIsFinal | server/Service.cc:143-150 | after an overflow or a bad length further bytes change nothing |
| Codec.FeedIsDeframe | server/Service.cc:137-159 | calling `onMessage` after every chunk emits what decoding the whole stream emits, also when a header is malformed |
| Codec.ChunkingIrrelevant | server/Service.cc:137-159 | two ways of chunking one stream emit the same payloads and stop for the same reason, whatever the stream holds |
| Codec.BadHeaderAfterFrames | server/Service.cc:143-150 | after valid frames a header outside the valid range emits nothing more, and which of three failures it is |
| TcpConnections.TcpConnection.constructor | netlib/reactor/TcpConnection.cc:11-22 | a new connection has nothing accepted, buffered or written |
| TcpConnections.TcpConnection.ConnectEstablished | netlib/reactor/TcpConnection.cc:34-42 | only the state changes, to connected |
| TcpConnections.TcpConnection.SendInLoop | netlib/reactor/TcpConnection.cc:146-185 | for every count `write` may return: what went to the wire, what was buffered behind earlier bytes, when writing is watched, when completion is signalled |
| TcpConnections.TcpConnection.HandleWrite | netlib/reactor/TcpConnection.cc:68-115 | what a writable event moves from the buffer to the wire, and that the last byte stops watching and performs a pending half-close |
| TcpConnections.TcpConnection.Send | netlib/reactor/TcpConnection.cc:130-144 | sends at once on the loop thread, queues elsewhere, and drops the message unless connected |
| TcpConnections.TcpConnection.Shutdown | netlib/reactor/TcpConnection.cc:187-196 | takes effect once, at once or through the queue |
| TcpConnections.TcpConnection.ShutdownInLoop | netlib/reactor/TcpConnection.cc:198-206 | half-closes exactly when nothing waits to be written |
| TcpConnections.TcpConnection.RunFunctor | netlib/reactor/TcpConnection.cc:140-141 | runs the first queued functor as `AfterFunctor` says; what that gets done is `FunctorOutcome` |
| TcpConnections.StepConserves | netlib/reactor/TcpConnection.cc:68-206 | every step keeps: wire followed by buffer is what was accepted, watching iff buffered; a half-close happens only when all accepted bytes are out, and freezes the wire |
| TcpConnections.RunConserves | netlib/reactor/TcpConnection.cc:68-206 | the same in every state of every run |
| TcpConnections.SendTakes | netlib/reactor/TcpConnection.cc:130-144 | `send` adds its message behind what was taken so far, at once or through the queue, and only while connected |
| TcpConnections.TakenFixedAfterShutdown | netlib/reactor/TcpConnection.cc:187-206 | in every run, from `shutdown` on, what was taken is fixed: accepted already or queued |
| TcpConnections.CompletionMeansDrained | netlib/reactor/TcpConnection.cc:85-93 | emptying the buffer is signalled once, and nothing is signalled while bytes wait |
| TcpConnections.HalfCloseCompleteIff | netlib/reactor/TcpConnection.cc:187-206 | in every run, a half-close by any route leaves on the wire all that was taken by the time of `shutdown` exactly when no other thread's message is still queued |
| TcpConnections.WireFrozen | netlib/reactor/TcpConnection.cc:198-206 | and what is queued then never leaves |
| TcpConnections.QueuedMessageLost | netlib/reactor/TcpConnection.cc:138-142 | a run in which the loop thread's shutdown overtakes a message of another thread |
| TcpConnections.DrainOvertakesQueue | netlib/reactor/TcpConnection.cc:85-99 | a run in which another thread's own message is overtaken by its own shutdown, because the buffer drained first |
| TcpConnections.BytesTaken | netlib/reactor/TcpConnection.cc:68-185 | the kernel is offered bytes exactly when a message may go out directly or a watched socket is writable, and what it takes is on the wire |
| TcpConnections.WholeWriteSignalled | netlib/reactor/TcpConnection.cc:160-165 | a message that goes out whole at once is signalled as complete exactly when there is a callback |
| TcpConnections.ShutdownOutcome | netlib/reactor/TcpConnection.cc:187-206 | `shutdown` acts on a connected connection only: half-closed at once exactly if nothing waits, otherwise or elsewhere left to the buffer or the queue |
| TcpConnections.FunctorOutcome | netlib/reactor/TcpConnection.cc:130-206 | a queued send is accepted whatever the state; a queued shutdown half-closes exactly if nothing waits |
| TcpConnections.ShutdownGetsDone | netlib/reactor/TcpConnection.cc:187-206 | in every run the connected state is left exactly by a `shutdown`, and the half-close has happened once its functor has run and the buffer is empty |
| Delivery.Receiver.HandleRead | netlib/reactor/TcpConnection.cc:44-66 | one read appends to the input buffer and hands over every complete payload; zero closes; an error changes nothing |
| Delivery.PartialFrame | server/Service.cc:145-146 | a frame cut short is never emitted, and waits for more |
| Delivery.PrefixDeframe | server/Service.cc:137-159 | any prefix of an encoded list decodes to a prefix of the list, and nothing of it is lost |
| Delivery.ReceiveKeeps | server/Service.cc:137-159 | reading any number of further bytes keeps the end-to-end invariant |
| Delivery.MoveKeeps | netlib/reactor/TcpConnection.cc:130-206 | every send, queued send, writable event, shutdown and read keeps the end-to-end invariant |
| Delivery.EndToEndDelivery | server/base/base.cc:3-22 | in every run the payloads emitted are a prefix of those sent, equal to all of them once all bytes arrived, and each payload given was sent once or still waits |
| Delivery.OrderKeptIff | netlib/reactor/TcpConnection.cc:130-144 | a move keeps the order of the `sendJson` calls exactly when the loop thread does not send past a different payload that waits in the queue |
| Delivery.OrderAsGiven | netlib/reactor/TcpConnection.cc:130-144 | in every run without such a move the payloads come out in the order of the calls |
| Delivery.QueuedIsOvertaken | client/Neter.cc:22-24 | a run with such a move: the heartbeat of the loop thread overtakes a queued payload |
| Delivery.BacklogCanDrain | netlib/reactor/TcpConnection.cc:68-115 | from any reachable state with the write side open, one full write and read deliver everything accepted |
| EventLoops.EventLoop.constructor | netlib/reactor/EventLoop.cc:35-58 | a new loop has nothing queued and an arbitrary `callingPendingFunctors_` |
| EventLoops.EventLoop.Wakeup | netlib/reactor/EventLoop.cc:150-156 | afterwards the eventfd is readable, also when its counter was full |
| EventLoops.EventLoop.QueueFromOutside | netlib/reactor/EventLoop.cc:138-148 | another thread pushes, then wakes the loop |
| EventLoops.EventLoop.QueueInLoop | netlib/reactor/EventLoop.cc:138-148 | the loop thread pushes, and wakes itself only while functors are being called |
| EventLoops.EventLoop.RunFunctor | netlib/reactor/EventLoop.cc:174-177 | one functor of the batch runs and may queue more, each by legal steps |
| EventLoops.EventLoop.DoPendingFunctors | netlib/reactor/EventLoop.cc:166-179 | runs exactly the functors pending at the swap, in order, by legal steps; if some were queued meanwhile, the next poll is already woken |
| EventLoops.StepKeeps | netlib/reactor/EventLoop.cc:67-179 | every step of the loop or of another thread keeps the queue and wakeup invariant |
| EventLoops.NoLostWakeup | netlib/reactor/EventLoop.cc:67-86 | in every interleaving a loop that polls with functors waiting, or with the quit flag set, finds the eventfd readable or a writer under way |
| EventLoops.QuitSurvivesIff | netlib/reactor/EventLoop.cc:72-73 | in every run a request to quit is still there when the loop runs exactly when it found the loop running |
| EventLoops.EarlyQuitLost | netlib/reactor/EventLoop.cc:94-99 | a run in which a quit before `loop()` is lost |
| EventLoops.EarlyPushOnlyCause | netlib/reactor/EventLoop.cc:138-148 | a silent push happens only before `loop()` with the flag false |
| EventLoops.EarlyPushNoticedIff | netlib/reactor/EventLoop.cc:67-76 | in every run up to the first poll, that poll is roused exactly when another thread pushed or quit, or the loop thread pushed with the flag true |
| EventLoops.LonePushNoticedIff | netlib/reactor/EventLoop.cc:35-42 | with nobody else about, the uninitialised flag decides |
| EventLoops.ExactlyOnceInOrder | netlib/reactor/EventLoop.cc:166-179 | functors run, then the rest of the batch, then the queue are always the push history |
| EventLoops.BatchBounded | netlib/reactor/EventLoop.cc:166-179 | during a batch only functors queued before its swap run, and at its end all of them have |
| EventLoops.CycleOutcome | netlib/reactor/EventLoop.cc:67-86 | what each step of the cycle gets done: the flag decides, the counter is drained, the queue becomes the batch, each functor runs, the calling flag is raised and lowered |
| EventLoops.PushOutcome | netlib/reactor/EventLoop.cc:138-156 | a push adds one functor at the end; the eventfd gets readable by a wakeup that is owed, or by the loop thread while functors are called, and not otherwise |
| EventLoops.FlagMeansCalling | netlib/reactor/EventLoop.cc:166-179 | in every run, from the first finished batch on, `callingPendingFunctors_` is true exactly while functors are called |
| EventLoops.QuietUntilWoken | netlib/reactor/EventLoop.cc:158-164 | in every run the eventfd stays unreadable from a read until the next wakeup |
| TimerQueues.InsertedCorrect | netlib/reactor/TimerQueue.cc:129-129 | insertion keeps the set sorted and adds one entry |
| TimerQueues.LowerBound | netlib/reactor/TimerQueue.cc:115-117 | the search with the largest address splits off exactly the entries due by now |
| TimerQueues.ArmingArms | netlib/reactor/TimerQueue.cc:29-54 | arming never disarms: the delay is the time left, at least 100 microseconds, with nanoseconds in range |
| TimerQueues.EarliestRearms | netlib/reactor/TimerQueue.cc:123-146 | the clock is set anew exactly for a timer that becomes the earliest, also when the last expiration was not read yet |
| TimerQueues.TimerQueue.Insert | netlib/reactor/TimerQueue.cc:123-132 | inserts, and reports whether the earliest time changed |
| TimerQueues.TimerQueue.AddTimer | netlib/reactor/TimerQueue.cc:134-146 | on the loop thread: allocates the timer with the time and interval asked for, inserts it at once, and rearms only for a new earliest timer |
| TimerQueues.TimerQueue.PostTimer | netlib/reactor/TimerQueue.cc:136-145 | on another thread: the timer exists with the time and interval asked for, its insertion waits, and the invariant is kept |
| TimerQueues.TimerQueue.LandTimer | netlib/reactor/TimerQueue.cc:138-143 | the queued lambda inserts it, rearms for a new earliest timer, and keeps the invariant |
| TimerQueues.TimerQueue.Run | netlib/reactor/TimerQueue.cc:83-86 | a callback runs once and may add timers |
| TimerQueues.TimerQueue.GetExpired | netlib/reactor/TimerQueue.cc:112-121 | returns and removes exactly the entries due |
| TimerQueues.TimerQueue.RestartOrFree | netlib/reactor/TimerQueue.cc:94-102 | a repeating timer is due again after its interval, a one-shot timer is freed |
| TimerQueues.TimerQueue.Reset | netlib/reactor/TimerQueue.cc:90-110 | treats every expired timer so, then arms for the earliest |
| TimerQueues.TimerQueue.HandleRead | netlib/reactor/TimerQueue.cc:76-88 | the whole handler is a legal step and keeps the invariant, whatever its callbacks add |
| TimerQueues.AddKeeps | netlib/reactor/TimerQueue.cc:134-146 | adding a timer, also from a callback, keeps set, heap and history consistent and the clock ready |
| TimerQueues.LandOutcome | netlib/reactor/TimerQueue.cc:138-143 | the queued lambda puts its timer into the set, takes nothing out, and waits no more |
| TimerQueues.RunAllRuns | netlib/reactor/TimerQueue.cc:82-86 | the batch runs each expired timer once, in order, whatever the callbacks add |
| TimerQueues.RestartKeeps | netlib/reactor/TimerQueue.cc:92-103 | restarting or freeing one expired timer keeps the invariant and leaves the others alive |
| TimerQueues.TakeOutKeeps | netlib/reactor/TimerQueue.cc:112-121 | taking out the due entries keeps the invariant, and they are live and distinct |
| TimerQueues.ExpiredIffDue | netlib/reactor/TimerQueue.cc:112-121 | the timers taken out are exactly those due by now |
| TimerQueues.DueAgain | netlib/reactor/TimerQueue.cc:9-19 | after the handler a repeating timer is due one interval from now and a one-shot timer is gone |
| TimerQueues.AddTime | netlib/base/Timestamp.h:46-50 | the new time is later by the interval cut to whole microseconds |
| TimerQueues.HandleKeeps | netlib/reactor/TimerQueue.cc:76-110 | one handler call restores the invariant, runs exactly the due timers once each in order of expiration, and arms for the earliest left |
| TimerQueues.NeitherLostNorDuplicated | netlib/reactor/TimerQueue.cc:76-146 | in every run, with timers added by any thread: until its insertion a timer is not queued; then a repeating timer is queued once, and a one-shot timer is queued and never ran, or ran once and is freed; waiting timers have an armed or fired timerfd |
| TimerQueues.EveryRequestKept | netlib/reactor/TimerQueue.cc:134-146 | in every run the timers allocated are those asked for, call by call, from any thread and any callback; with the row above, a request repeats exactly if its interval is positive |
| TimerQueues.NeverEarly | netlib/reactor/TimerQueue.cc:76-88 | in every run no timer is run before the time its request named |
| Epollers.Channel.EnableReading | netlib/reactor/Channel.h:26-30 | sets the read bits and updates the poller |
| Epollers.Channel.EnableWriting | netlib/reactor/Channel.h:31-35 | sets the write bit and updates the poller |
| Epollers.Channel.DisableWriting | netlib/reactor/Channel.h:36-40 | clears the write bit and updates the poller |
| Epollers.Channel.DisableAll | netlib/reactor/Channel.h:41-45 | clears the mask and updates the poller |
| Epollers.Epoller.Update | netlib/reactor/Epoller.cc:98-116 | the kernel call by its own rule: ADD needs an absent descriptor, MOD and DEL a present one |
| Epollers.Epoller.UpdateChannel | netlib/reactor/Epoller.cc:68-96 | the registration automaton over new, added and deleted channels |
| Epollers.Epoller.RemoveChannel | netlib/reactor/Epoller.cc:118-130 | computes `Removed`: what that leaves of the channel, namely nothing, is `LifeOutcome` |
| Epollers.Epoller.OpenChannel | netlib/reactor/Channel.cc:9-16 | a new channel is unregistered with an empty mask |
| Epollers.UpdateShadows | netlib/reactor/Epoller.cc:68-116 | any mask change keeps the interest list equal to the added channels' masks, without a failed call |
| Epollers.NextShadows | netlib/reactor/Channel.h:26-45 | every call on a channel keeps it so |
| Epollers.KernelWatches | netlib/reactor/Channel.h:26-40 | enabling makes the kernel watch for that kind of event, disabling stops it, and neither touches the other kind or another descriptor |
| Epollers.EpollerShadowsKernel | netlib/reactor/Epoller.cc:68-130 | after any calls no kernel call failed, so the fatal branch was never taken, and the list is exactly the added channels with their masks |
| Epollers.RefusalRemembered | netlib/reactor/Epoller.cc:104-115 | a call the kernel refuses is remembered for ever and changes nothing, so that the row above says none was refused |
| Epollers.DisableAllToggles | netlib/reactor/Epoller.cc:71-96 | `disableAll` takes a descriptor off the list exactly when it was on it, and otherwise puts it on with an empty mask |
| Epollers.LifeOutcome | netlib/reactor/Epoller.cc:118-130 | a removed channel is gone from the table and from the kernel's list and may be destroyed; a new one is in neither; all others are left alone |
| Epollers.MaskOutcome | netlib/reactor/Epoller.cc:68-96 | a mask change is remembered, registers the channel, and leaves all others alone |
| Connectors.Connector.constructor | netlib/reactor/Connector.cc:10-17 | starts with the initial delay, no channel, an arbitrary state, and the invariant |
| Connectors.Connector.StartOnce | netlib/reactor/Connector.cc:19-24 | starts the first attempt and keeps the invariant |
| Connectors.Connector.RestartInLoop | netlib/reactor/Connector.cc:25-32 | resets the delay, starts over and keeps the invariant |
| Connectors.Connector.HandleEvent | netlib/reactor/Channel.cc:37-49 | the events of a watched socket keep the invariant; which of hand-over, retry and close they end in is `ReadyOutcome` |
| Connectors.Connector.TimerExpires | netlib/reactor/Connector.cc:108-110 | the timer starts the next attempt and keeps the invariant |
| Connectors.RetryKeeps | netlib/reactor/Connector.cc:99-117 | a retry closes its socket once, waits as long as the back-off says, and leaves one timer at most |
| Connectors.WatchKeeps | netlib/reactor/Connector.cc:88-97 | watching a new socket keeps every invariant: it is owned, alone, and the channel is its own |
| Connectors.UnwatchKeeps | netlib/reactor/Connector.cc:167-175 | taking the channel off the poller leaves its socket, and only that, without an owner |
| Connectors.AttemptKeeps | netlib/reactor/Connector.cc:34-117 | an attempt keeps ownership, back-off, channel and progress invariants for every `errno` |
| Connectors.ReadyKeeps | netlib/reactor/Connector.cc:125-175 | so does every event on the watched socket, an error followed by a write included |
| Connectors.SocketsOwnedOnce | netlib/reactor/Connector.cc:19-175 | in every run each socket is watched, closed once or handed over once; at most one socket or timer is outstanding; retry k waits min(500 * 2^k, 30000) ms; while wanted, an attempt is under way or scheduled unless an error without retry ended it |
| Connectors.AttemptOutcome | netlib/reactor/Connector.cc:47-85 | which `errno` watches the socket, which five retry after the present delay, and which give up |
| Connectors.StartOutcome | netlib/reactor/Connector.cc:19-45 | each start, restart and wanted timer makes one attempt; a start or restart begins again with 500 ms |
| Connectors.ReadyOutcome | netlib/reactor/Connector.cc:125-165 | a socket is handed over exactly when the connect succeeded and is wanted, and closed exactly when it failed or is not; a retry after the present delay follows exactly a wanted failure |
| Connectors.StopEndsAttempts | netlib/reactor/Connector.cc:119-123 | once stopped, no socket is made until a restart |
| Connectors.ChannelAliveIff | netlib/reactor/Connector.cc:167-175 | a step keeps the watched socket's channel alive and safe exactly when it does not watch a new socket while a reset is queued |
| Connectors.ChannelStaysAlive | netlib/reactor/Connector.cc:88-175 | in every run without such a step events find their channel alive |
| Connectors.NewChannelSurvivesIff | netlib/reactor/Connector.cc:172-173 | a retried or restarted attempt's channel survives the functor batch exactly when no earlier reset was queued |
| Connectors.StaleResetReachable | netlib/reactor/Connector.cc:108-110 | a run in which it does not |
| ThreadPools.ThreadPool.AddTask | netlib/base/ThreadPool.cc:21-28 | a push under the lock, then one notification |
| ThreadPools.ThreadPool.AddLastTask | netlib/base/ThreadPool.cc:30-39 | the queue is swapped away, the new task is alone in it, then one notification |
| ThreadPools.ThreadPool.Work | netlib/base/ThreadPool.cc:43-57 | a worker waits on an empty queue and otherwise takes the oldest task |
| ThreadPools.NeverAllAsleep | netlib/base/ThreadPool.cc:21-59 | in every run a non-empty queue has a worker that is not asleep or a notification under way; while a worker sleeps there are enough of these for all queued tasks |
| ThreadPools.TakenOnceInOrder | netlib/base/ThreadPool.cc:41-59 | every task is queued, taken by one worker, or dropped, and only one of these; tasks are taken in submission order |
| ThreadPools.DroppedOnlyIfQueued | netlib/base/ThreadPool.cc:30-39 | a task is dropped exactly when `add_last_task` finds it queued |
| ThreadPools.WorkerOutcome | netlib/base/ThreadPool.cc:41-59 | a worker that looks takes the oldest task off the queue and runs it, or sleeps over an empty queue; one that is woken or done looks again |
| ThreadPools.SubmitOutcome | netlib/base/ThreadPool.cc:21-39 | submitting appends one task, behind the others or in their place, and owes one notification |
| ThreadPools.NoTaskTwice | netlib/base/ThreadPool.cc:41-59 | in every run what workers run they have taken, and no two run the same task |
| ThreadPools.EmptyPoolStuck | netlib/base/ThreadPool.cc:2-9 | a pool of no workers leaves a task queued with nothing under way |
| Redis.LoadSets | server/Service.cc:193-200 | the loading loop adds to each set exactly the rows of its table |
| Friends.WelcomeKeeps | server/handler/Register.cc:40-52 | befriending the system account keeps agreement, symmetry and irreflexivity |
| Friends.AskKeeps | server/handler/Friend.cc:73-119 | a request keeps them |
| Friends.AnswerKeeps | server/handler/Friend.cc:121-166 | so does an answer to a pending request |
| Friends.UnfriendKeeps | server/handler/Friend.cc:168-188 | so does ending a friendship |
| Friends.EraseKeeps | server/handler/Login.cc:166-186 | so does erasing an account |
| Friends.UnfriendUndoes | server/handler/Friend.cc:121-188 | an accept adds exactly both directions, further requests are refused as already friends, and deleting the friendship restores table and sets |
| Friends.AcceptAgreesIff | server/handler/Friend.cc:128-142 | an unchecked accept keeps cache and table in agreement exactly when both users exist, and only then are the rows stored |
| Friends.AcceptKeepsIff | server/handler/Friend.cc:128-142 | and keeps all friendship invariants exactly when, besides, they differ |
| Friends.WelcomeAgreesIff | server/handler/Register.cc:43-51 | registration keeps agreement exactly when the system account exists |
| Groups.CreateKeeps | server/handler/Group.cc:10-25 | founding a group keeps agreement, unique membership and ownership |
| Groups.JoinKeeps | server/handler/Group.cc:27-74 | a request to join keeps them, and applicants are not members |
| Groups.AnswerKeeps | server/handler/Group.cc:76-143 | so does the answer of an administrator |
| Groups.ExitKeeps | server/handler/Group.cc:212-242 | so does leaving, and the one for whom it dissolves the group is its creator |
| Groups.DissolveKeeps | server/handler/Group.cc:227-241 | so does dissolving, even when a pending request keeps the `groups` row alive |
| Groups.KickKeeps | server/handler/Group.cc:244-271 | so does a kick |
| Groups.SetRoleKeeps | server/handler/Group.cc:273-311 | a role change below the owner's role, for a user who is not the creator, keeps all group invariants |
| Groups.EraseKeeps | server/handler/Login.cc:166-192 | so does erasing a user whose own groups are gone |
| Groups.AcceptKeepsIff | server/handler/Group.cc:94-100 | an unchecked accept keeps all group invariants exactly when the applicant exists and is not yet a member |
| Groups.KickIffOutranks | server/handler/Group.cc:257-266 | a kick takes effect exactly when the kicker's rank is higher, and then only that member leaves |
| Groups.DemoteUndoesPromote | server/handler/Group.cc:273-311 | exactly the owner makes another member an administrator, and demoting him restores the group |
| Groups.AskedAndAccepted | server/handler/Group.cc:27-118 | asking and being accepted makes a plain member and settles every copy of the request |
| Groups.OwnerSafe | server/handler/Group.cc:244-311 | no kick, promotion or demotion removes, demotes or makes an owner |
| Server.ChatServer.constructor | init.sql:14-15 | starts with the system account alone and empty caches |
| Server.ChatServer.InitCache | server/Service.cc:189-216 | afterwards each Redis set holds its old members and its table's rows |
| Server.ChatServer.SelectRole | server/handler/Group.cc:86-90 | finds a membership row exactly when there is one, with its role |
| Server.ChatServer.RegisterAcker | server/handler/Register.cc:20-58 | the new state, the invariant, and which error number is answered |
| Server.ChatServer.FriendAdder | server/handler/Friend.cc:73-119 | the same for a friend request |
| Server.ChatServer.FriendAddResponser | server/handler/Friend.cc:121-166 | the new state and the invariant for accept, reject and anything else |
| Server.ChatServer.FriendDeleter | server/handler/Friend.cc:168-188 | both directions leave tables and sets |
| Server.ChatServer.GroupCreater | server/handler/Group.cc:10-25 | a fresh group with its creator as owner |
| Server.ChatServer.InsertGroupRequests | server/handler/Group.cc:57-72 | the loop stores one request per administrator |
| Server.ChatServer.GroupAdder | server/handler/Group.cc:27-74 | the new state, the invariant and the error number |
| Server.ChatServer.GroupAddResponser | server/handler/Group.cc:76-143 | only an administrator's answer counts; the requests of the applicant are removed |
| Server.ChatServer.GroupExiter | server/handler/Group.cc:212-242 | a member leaves, the owner dissolves |
| Server.ChatServer.MemberKicker | server/handler/Group.cc:244-271 | administrators remove plain members, the owner removes any other member, and the invariant is kept |
| Server.ChatServer.AdminAdder | server/handler/Group.cc:273-291 | only the creator promotes, and only a member |
| Server.ChatServer.AdminRemover | server/handler/Group.cc:293-311 | only the creator demotes, and only an administrator |
| Server.ChatServer.DissolveOwnGroups | server/handler/Login.cc:148-157 | the loop over his groups, in any order, leaves what dissolving them together leaves |
| Server.ChatServer.ForgetFriend | server/handler/Login.cc:177-186 | the loop over the users takes him out of every set |
| Server.ChatServer.ForgetMember | server/handler/Login.cc:190-192 | the loop over the groups takes him out of every set |
| Server.ChatServer.AccountKiller | server/handler/Login.cc:130-197 | the whole cascade, where the rows it reads exist: the new state and the invariant; who and what stays is in `Tables.FriendsAfter`, `Tables.GroupsAfter` and `Tables.AccountsAfter` |
| Server.KillKeeps | server/handler/Login.cc:130-197 | destroying an account keeps every invariant, also where foreign keys keep the `users` row |
| Server.KillEnabledIff | server/handler/Login.cc:148-157 | the rows it reads exist exactly when every group the user created still has a member |
| Server.HeadlessGroupReachable | server/handler/Group.cc:217-235 | a run after which they do not: founded, asked to join, dissolved |
| Server.KillErases | server/handler/Login.cc:130-197 | no friendship, membership, request or Redis set mentions the destroyed account; his `users` row stays exactly for archived messages or for a group of his that somebody asked to join |
| Server.NextKeeps | server/handler/Group.cc:10-311 | every handler keeps the invariants of both sides |
| Server.InstalledInv | init.sql:4-15 | the installed database meets every invariant |
| Server.CacheAgreement | server/handler/Friend.cc:73-188 | after any handlers each Redis set is the set read from its table, and friendship is symmetric and irreflexive |
| Server.EmailsStayUnique | server/handler/Register.cc:31-41 | after any handlers an e-mail address names one account |
| Server.GroupOwnership | server/handler/Group.cc:10-143 | after any handlers each group with members has one owner row, its creator's, and no applicant is a member |
| Server.LoadAgreesIff | server/Service.cc:189-216 | start-up makes caches and tables agree exactly when Redis held nothing stale |
| Tables.FriendsAfter | server/handler/Friend.cc:73-188 | for every handler and every two users: who are friends and who waits for whom afterwards, as a row-by-row definition says it; destroying an account leaves what concerns others |
| Tables.AccountsAfter | server/handler/Register.cc:31-41 | for every handler: which accounts exist afterwards and with which address, and that account numbers are never used again |
| Tables.GroupsAfter | server/handler/Group.cc:10-311 | for every handler, group and user: who is a member, in which role, whose requests wait, and which groups exist afterwards, by rank and not by statement |
| Tables.AddErrnoMeans | server/handler/Friend.cc:80-104 | the number answered to a friend request, read off the tables; 0 exactly when a new request is stored |
| Tables.RegisterErrnoMeans | server/handler/Register.cc:20-58 | the number answered to a registration; 0 exactly when the address gets an account |
| Tables.JoinErrnoMeans | server/handler/Group.cc:27-74 | the number answered to a request for admission, read off the tables; after a 0 the request waits exactly when the group has a member |
| WriteBehind.NothingLost | server/Service.cc:218-248 | with pushes anywhere and inserts that may fail, rows followed by the unstored list are the push history |
| WriteBehind.FlushMovesOldest | server/Service.cc:222-234 | an undisturbed flush moves the oldest 10001 records at most, and no others |
| WriteBehind.FailedFlushChangesNothing | server/Service.cc:232-234 | a flush whose insert fails leaves list and table alone, and the next one starts afresh |
| WriteBehind.RefusedRecordBlocks | server/Service.cc:232-234 | while the database refuses one record of the first batch, no later flush stores anything |
| WriteBehind.Archive.Flush | server/Service.cc:218-233 | table and list after one flush with pushes before the insert and before the trim |
| WriteBehind.InsertFromRedis | server/Service.cc:218-248 | both lists are flushed, each conserving its own history, with pushes onto either list at any moment |
| ChatLog.LoadChatLogs | client/service/ChatService.cc:198-228 | the loop returns the lines between two bounds computed in unsigned arithmetic |
| ChatLog.PageIntendedIff | client/service/ChatService.cc:213-217 | that is the intended page exactly when offset + count does not wrap around or the offset is past the log |
| ChatLog.PagesPartition | client/service/ChatService.cc:198-228 | the first n pages joined oldest first are the newest n * count lines, hence the whole log in the end; only a page that reaches the start is short |
| Offline.OfflineFifo | server/handler/Login.cc:97-114 | at every step of every interleaving: popped messages, then the list oldest first, are the parked ones; and each parked message is listed, in the hand of one drain loop, or handed over once |
| Offline.SendKeepsOrderIff | server/handler/Login.cc:108-111 | handing a message over keeps the order exactly when it is the oldest popped and unsent one |
| Offline.OldestFirst | server/handler/Login.cc:103-113 | in every run where each does, the messages come out in the order they were parked |
| Offline.OverlapReorders | server/handler/Login.cc:103-113 | two drain loops about to pop different messages can break it |
| Offline.NoOverlapIff | server/handler/Login.cc:50-81 | drain loops never overlap in a run exactly when each login is checked after the last drain loop ended |
| Offline.SerialInOrder | server/handler/Login.cc:97-114 | then, at every step, what was handed over, what is in hand and the list oldest first are the parked messages in order |
| Offline.SecondLoginIff | server/handler/Login.cc:56-62 | another login is let in exactly while the user has no stored connection |
| Offline.HandedToCurrentIff | server/handler/Login.cc:105-111 | in every run, what a drain loop hands over goes to the user's present connection exactly if since its login that connection was not dropped and no other was stored |
| Offline.StaleDrainTakesMessage | server/handler/Login.cc:103-113 | a run in which an old drain loop takes the message away from the new connection |
| Offline.BothLoginsSucceed | server/handler/Login.cc:57-74 | two logins of an offline user can both pass the check and both drain |
| Offline.DrainEmptiesIff | server/handler/Login.cc:97-114 | a drain loop left alone ends, with the whole list handed over to its connection oldest first if the user has one, and with nothing changed if not |
| Offline.ChatRouter.Lpush | server/handler/Chat.cc:40-40 | one message is added in front of one list |
| Offline.ChatRouter.Chat | server/handler/Chat.cc:11-61 | delivered live or parked, and archived, exactly between mutual friends; the error number |
| Offline.ChatRouter.GroupChat | server/handler/Chat.cc:63-111 | each other member gets the message once, live or parked, and nobody else does; it is archived once per member; a stranger changes nothing |
| Offline.OneMoreRouted | server/handler/Chat.cc:80-103 | one more member in the loop keeps "each exactly once" |
| Offline.ChatRouter.SendMessageOffLine | server/handler/Login.cc:97-114 | undisturbed, the loop hands over the whole list, oldest first, to an online user and nothing to an offline one |
| Layout.ScannersAgree | client/ui.cc:424-431 | shifts and masks classify every byte alike, and width follows length |
| Layout.ByteRanges | client/ui.cc:424-431 | which bytes start a character of which length, which continue one, and which are two columns wide |
| Layout.GetDisplayWidth | client/ui.cc:27-61 | the scanner returns the sum of the widths of the characters |
| Layout.WrapContent | client/ui.cc:296-341 | the scanner returns the greedy lines |
| Layout.GreedyFitsIff | client/ui.cc:328-333 | lines stay within the width exactly when every character does, and then none is empty |
| Layout.LinesAreFull | client/ui.cc:328-336 | no line ends while the next character still fits, whatever the width |
| Layout.StaysAhead | client/ui.cc:328-336 | greedy lines need no more lines than any split, even one that is ahead |
| Layout.WrapContentCorrect | client/ui.cc:296-341 | the lines join to the text, fit exactly when every character fits, and then no other split at character boundaries uses fewer |
| Layout.WidthTwoSuffices | client/ui.cc:305-327 | from width 2 on every text fits |
| Layout.FixInvalidUtf8 | client/ui.cc:415-456 | the scanner computes the specified repair |
| Layout.RepairKeepsPrefix | client/ui.cc:415-456 | well-formed text is kept whole, whatever follows it |
| Layout.RepairDrops | client/ui.cc:432-453 | what is dropped after well-formed text: a byte that starts no character, a broken character as a whole, a character cut short at the end |
| Layout.RepairCorrect | client/ui.cc:415-456 | the result follows the bit patterns of section 3 of RFC 3629; the repair is the identity exactly on such text, and idempotent |
| Layout.WellFormedIffUnits | client/ui.cc:302-337 | text is well formed exactly when each character the layout scanners visit is |
| Layout.WrapKeepsCharacters | client/ui.cc:296-341 | wrapping well-formed text splits no character |
| Layout.ExpandTabs | client/ui.cc:343-389 | the scanner computes the specified expansion and final column |
| Layout.TabsLeft | client/ui.cc:350-356 | a tab survives exactly when a multi-byte character of the input contains it |
| Layout.ExpandTabsCorrect | client/ui.cc:343-389 | the final column is the display width of the result, for every input |
| Layout.ExpandWellFormed | client/ui.cc:343-389 | on well-formed text no tab is left and the result is well formed |
| Layout.TabStops | client/ui.cc:352-354 | each tab goes to the next multiple of the tab size |
| Layout.PiecesInPlace | client/ui.cc:350-386 | each character stands for itself in its place, and a tab for the blanks up to its tab stop |
| Layout.DisplayCorrect | client/Controller.cc:1142-1143 | any content, expanded and wrapped: the lines join to the expansion, are not empty, not too wide and as few as possible; of repaired content no character is split and no tab left |

## Left out

- What follows `handleClose` and `forceClose`: `handleClose` leaves `state_` alone, so it can run twice; the connection model ends there, and heartbeats with it.
- `TcpConnection::writeCallback_` and `readableCallback_`: a custom callback replaces the modelled code.
- EventLoops.EventLoop.DoPendingFunctors: the methods of the class stand for one thread undisturbed; interleaving is in the step relation beside it. The endless loop of `loop()` is its steps `Guard`, `PollReturn`, `Mark`, `Swap`, `RunNext` and `EndBatch`, not a method.
- TimerQueues.TimerQueue.HandleRead: another thread allocates its timers before or after the whole handler, never in the middle of it.
- ThreadPools.ThreadPool.Work: one iteration of the endless loop; `STOP` and the destructor, which joins 16 threads whatever the size, are not modelled.
- Connectors.SocketsOwnedOnce: assumes one `start`, and a `restart` only after a hand-over; an event on a socket whose channel is gone is not modelled further.
- Server.CacheAgreement: handlers are atomic; they assume existing senders, an accept that answers a pending request, rows for `result[0]`, and a system account that is not destroyed. The lemmas ending in `Iff` show what breaks otherwise.
- Server.ChatServer.AccountKiller: reading `result[0]` of an empty result is undefined, so the model stops before it; `Server.KillEnabledIff` says when that is. The same holds for `Server.NextKeeps` and `Server.ChatServer.DissolveOwnGroups`.
- `AccountKiller`'s removal from the online map, the blacklist, friend and group list notices, and the texts of rejections: they do not touch the modelled tables or sets.
- Rows of `messages`, `group_messages` and `offlineMessages`: whether archived rows still refer to a destroyed user is a parameter of the step.
- A failed insert of a `groups` row: creators exist, so the new id is fresh.
- SQL text, escaping, the Redis and MySQL clients, and connection pools: tables and sets are abstract, `insertList` stores all or nothing.
- JSON: payloads are opaque bytes, so a parse error in a handler or in the flush is not modelled, nor is the dispatch of `null` heartbeats.
- Floating-point rounding: `interval` is a real number.
- Integer overflow of widths, columns and timestamps, and of sizes other than the frame length and the page offset.
- Verification codes, passwords, e-mail, date formats, menus, terminal modes, logging.
- File transfer, `Poller.cc` (not used by `EventLoop`), round-robin loop selection, and address and socket wrappers.
