/** The cross-thread functor queue, the eventfd wakeup, and the loop that polls in between. */
module EventLoops {

  /** A functor is named by its place in the order of all pushes. */
  type Functor = nat

  /** The largest value an eventfd counter can hold; a `write` that would pass it fails. */
  const COUNTER_MAX: nat := 0xFFFF_FFFF_FFFF_FFFE

  /** Where the loop thread is. `Handling` runs the callbacks of the active channels, `Marked` has set
      `callingPendingFunctors_` but not yet swapped, `Batch` runs the swapped functors. */
  datatype Pc = NotLooping | AtGuard | Polling | Handling | Marked | Batch | Stopped

  /** `midPush` and `midQuit` count foreign threads between their push (or their `quit_ = true`) and their
      `wakeup`; `loopMidPush` says the same of the loop thread, inside `queueInLoop`. */
  datatype Loop = Loop(
    pc: Pc,
    quit: bool,
    calling: bool,
    pending: seq<Functor>,
    batch: seq<Functor>,
    ran: seq<Functor>,
    pushes: nat,
    counter: nat,
    wakeActive: bool,
    midPush: nat,
    midQuit: nat,
    loopMidPush: bool,
    batchEnd: nat,
    silentEarlyPush: bool)

  /** Before `loop()`; `callingPendingFunctors_` was never given a value. */
  predicate Initial(s: Loop) {
    && s.pc == NotLooping
    && s.pending == s.batch == s.ran == []
    && s.pushes == s.counter == s.midPush == s.midQuit == s.batchEnd == 0
    && !s.wakeActive && !s.loopMidPush && !s.silentEarlyPush
  }

  function Woken(s: Loop): Loop {
    if s.counter < COUNTER_MAX then s.(counter := s.counter + 1) else s
  }

  function Pushed(s: Loop): Loop {
    s.(pending := s.pending + [s.pushes], pushes := s.pushes + 1)
  }

  datatype Step =
    | ForeignPush | ForeignWake | ForeignQuit | ForeignQuitWake
    | LoopPush | LoopMaybeWake | LoopQuit
    | Enter | Guard | PollReturn(wakeActive: bool) | ReadWakeup | Mark | Swap | RunNext | EndBatch

  /** Callbacks of channels, timers and functors run in these places. */
  predicate InCallback(s: Loop) { s.pc == Handling || s.pc == Batch }

  predicate Enabled(s: Loop, t: Step) {
    match t
    case ForeignPush => true
    case ForeignWake => 0 < s.midPush
    case ForeignQuit => true
    case ForeignQuitWake => 0 < s.midQuit
    case LoopPush => !s.loopMidPush && (InCallback(s) || s.pc == NotLooping)
    case LoopMaybeWake => s.loopMidPush
    case LoopQuit => !s.loopMidPush && InCallback(s)
    case Enter => s.pc == NotLooping && !s.loopMidPush
    case Guard => s.pc == AtGuard
    case PollReturn(active) => s.pc == Polling && (active ==> 0 < s.counter)
    case ReadWakeup => s.pc == Handling && s.wakeActive && !s.loopMidPush
    case Mark => s.pc == Handling && !s.wakeActive && !s.loopMidPush
    case Swap => s.pc == Marked
    case RunNext => s.pc == Batch && s.batch != [] && !s.loopMidPush
    case EndBatch => s.pc == Batch && s.batch == [] && !s.loopMidPush
  }

  function Next(s: Loop, t: Step): Loop
    requires Enabled(s, t)
  {
    match t
    case ForeignPush => Pushed(s).(midPush := s.midPush + 1)
    case ForeignWake => Woken(s).(midPush := s.midPush - 1)
    case ForeignQuit => s.(quit := true, midQuit := s.midQuit + 1)
    case ForeignQuitWake => Woken(s).(midQuit := s.midQuit - 1)
    case LoopPush => Pushed(s).(loopMidPush := true)
    case LoopMaybeWake =>
      var s1 := s.(loopMidPush := false);
      if s.calling then Woken(s1)
      else if s.pc == NotLooping then s1.(silentEarlyPush := true)
      else s1
    case LoopQuit => s.(quit := true)
    case Enter => s.(pc := AtGuard, quit := false)
    case Guard => s.(pc := if s.quit then Stopped else Polling)
    case PollReturn(active) => s.(pc := Handling, wakeActive := active)
    case ReadWakeup => s.(counter := 0, wakeActive := false)
    case Mark => s.(pc := Marked, calling := true)
    case Swap => s.(pc := Batch, batch := s.pending, pending := [], batchEnd := s.pushes, silentEarlyPush := false)
    case RunNext => s.(ran := s.ran + [s.batch[0]], batch := s.batch[1..])
    case EndBatch => s.(pc := AtGuard, calling := false)
  }

  ghost predicate IsRun(states: seq<Loop>, steps: seq<Step>) {
    && |states| == |steps| + 1
    && Initial(states[0])
    && forall i | 0 <= i < |steps| :: Enabled(states[i], steps[i]) && states[i + 1] == Next(states[i], steps[i])
  }

  function UpTo(n: nat): seq<Functor> {
    seq(n, i => i)
  }

  /** Every functor ever pushed is in exactly one place, in order. */
  predicate Conserved(s: Loop) { s.ran + s.batch + s.pending == UpTo(s.pushes) }

  predicate Noticed(s: Loop) { 0 < s.counter || 0 < s.midPush }

  ghost predicate Inv(s: Loop) {
    && Conserved(s)
    && (s.batch != [] ==> s.pc == Batch)
    && (s.pc == Batch ==> |s.ran| + |s.batch| == s.batchEnd)
    && (s.pc == Batch || s.pc == Marked ==> s.calling)
    && (s.pc == AtGuard || s.pc == Polling ==> !s.loopMidPush)
    && (s.loopMidPush ==> InCallback(s) || s.pc == NotLooping)
    && (s.wakeActive ==> s.pc == Handling)
    // no wakeup is lost
    && (s.pending != [] && s.pc != Handling && s.pc != Marked ==>
          Noticed(s) || s.loopMidPush || s.silentEarlyPush || s.pc == Stopped)
    && (s.quit && s.pc == Polling ==> 0 < s.counter || 0 < s.midQuit)
  }

  lemma UpToNext(n: nat)
    ensures UpTo(n + 1) == UpTo(n) + [n]
  {
  }

  lemma InitialInv(s: Loop)
    requires Initial(s)
    ensures Inv(s)
  {
  }

  lemma PushConserves(s: Loop)
    requires Conserved(s)
    ensures Conserved(Pushed(s))
  {
    UpToNext(s.pushes);
    assert s.ran + s.batch + (s.pending + [s.pushes]) == (s.ran + s.batch + s.pending) + [s.pushes];
  }

  lemma SwapConserves(ran: seq<Functor>, batch: seq<Functor>, pending: seq<Functor>, n: nat)
    requires ran + batch + pending == UpTo(n)
    ensures batch == [] ==> ran + pending + [] == UpTo(n) && |ran| + |pending| == n
    ensures batch != [] ==> (ran + [batch[0]]) + batch[1..] + pending == UpTo(n)
  {
  }

  lemma QueueStepKeeps(s: Loop, t: Step)
    requires Inv(s) && Enabled(s, t)
    ensures Conserved(Next(s, t))
    ensures t.Swap? ==> |s.ran| + |s.pending| == s.pushes
  {
    hide UpTo;
    PushConserves(s);
    SwapConserves(s.ran, s.batch, s.pending, s.pushes);
  }

  lemma ForeignKeeps(s: Loop, t: Step)
    requires Inv(s) && Enabled(s, t) && Conserved(Next(s, t))
    requires t.ForeignPush? || t.ForeignWake? || t.ForeignQuit? || t.ForeignQuitWake?
    ensures Inv(Next(s, t))
  {
    hide Conserved;
  }

  lemma CallbackKeeps(s: Loop, t: Step)
    requires Inv(s) && Enabled(s, t) && Conserved(Next(s, t))
    requires t.LoopPush? || t.LoopMaybeWake? || t.LoopQuit?
    ensures Inv(Next(s, t))
  {
    hide Conserved;
  }

  lemma PollKeeps(s: Loop, t: Step)
    requires Inv(s) && Enabled(s, t) && Conserved(Next(s, t))
    requires t.Enter? || t.Guard? || t.PollReturn? || t.ReadWakeup? || t.Mark?
    ensures Inv(Next(s, t))
  {
    hide Conserved;
  }

  lemma BatchKeeps(s: Loop, t: Step)
    requires Inv(s) && Enabled(s, t) && Conserved(Next(s, t))
    requires t.Swap? || t.RunNext? || t.EndBatch?
    requires t.Swap? ==> |s.ran| + |s.pending| == s.pushes
    ensures Inv(Next(s, t))
  {
    hide Conserved;
  }

  lemma StepKeeps(s: Loop, t: Step)
    requires Inv(s) && Enabled(s, t)
    ensures Inv(Next(s, t))
  {
    QueueStepKeeps(s, t);
    hide Inv, Enabled, Next, Conserved;
    match t
    case ForeignPush | ForeignWake | ForeignQuit | ForeignQuitWake => ForeignKeeps(s, t);
    case LoopPush | LoopMaybeWake | LoopQuit => CallbackKeeps(s, t);
    case Enter | Guard | PollReturn(_) | ReadWakeup | Mark => PollKeeps(s, t);
    case Swap | RunNext | EndBatch => BatchKeeps(s, t);
  }

  lemma {:induction false} RunKeeps(states: seq<Loop>, steps: seq<Step>, i: nat)
    requires IsRun(states, steps) && i < |states|
    ensures Inv(states[i])
  {
    if i == 0 {
      InitialInv(states[0]);
    } else {
      RunKeeps(states, steps, i - 1);
      StepKeeps(states[i - 1], steps[i - 1]);
    }
  }

  /** The loop thread never queued before `loop()` while the uninitialised flag happened to be false. */
  ghost predicate NoEarlyPush(states: seq<Loop>, steps: seq<Step>)
    requires IsRun(states, steps)
  {
    forall i | 0 <= i < |steps| :: steps[i].LoopPush? && states[i].pc == NotLooping ==> states[i].calling
  }

  lemma {:induction false} EarlyPushOnlyCause(states: seq<Loop>, steps: seq<Step>, i: nat)
    requires IsRun(states, steps) && NoEarlyPush(states, steps) && i < |states|
    ensures !states[i].silentEarlyPush
    ensures states[i].loopMidPush && states[i].pc == NotLooping ==> states[i].calling
  {
    if i == 0 {
    } else {
      EarlyPushOnlyCause(states, steps, i - 1);
      RunKeeps(states, steps, i - 1);
      assert Enabled(states[i - 1], steps[i - 1]) && states[i] == Next(states[i - 1], steps[i - 1]);
    }
  }

  /** No lost wakeup: in every interleaving, a loop that polls with functors waiting finds the eventfd
      readable, or a foreign thread is about to write to it; and the same while the quit flag is set. */
  lemma NoLostWakeup(states: seq<Loop>, steps: seq<Step>, i: nat)
    requires IsRun(states, steps) && NoEarlyPush(states, steps) && i < |states|
    requires states[i].pc == Polling
    ensures states[i].pending != [] ==> 0 < states[i].counter || 0 < states[i].midPush
    ensures states[i].quit ==> 0 < states[i].counter || 0 < states[i].midQuit
  {
    RunKeeps(states, steps, i);
    EarlyPushOnlyCause(states, steps, i);
  }

  // What each step gets done.

  /** The cycle: check the flag, poll, handle, drain the counter, swap, run, and around again. */
  lemma CycleOutcome(s: Loop, t: Step)
    requires Inv(s) && Enabled(s, t)
    ensures var d := Next(s, t);
      && (t == Guard ==> d.pc == if s.quit then Stopped else Polling)
      && (t.PollReturn? ==> d.pc == Handling && d.wakeActive == t.wakeActive)
      && (t == ReadWakeup ==> d.counter == 0 && !d.wakeActive && d.pc == Handling)
      && (t == Mark ==> d.calling && d.pc == Marked && d.pending == s.pending)
      && (t == Swap ==> d.pc == Batch && d.batch == s.pending && d.pending == [] && d.ran == s.ran)
      && (t == RunNext ==> |d.ran| == |s.ran| + 1 && |d.batch| == |s.batch| - 1 && d.pending == s.pending)
      && (t == EndBatch ==> d.pc == AtGuard && !d.calling && d.pending == s.pending && d.ran == s.ran)
      && (d.silentEarlyPush <==>
            (s.silentEarlyPush && t != Swap) || (t == LoopMaybeWake && s.pc == NotLooping && !s.calling))
  {
    hide Conserved;
  }

  /** Pushing adds one functor at the end; only a wakeup that is owed, or due because functors are being
      called, moves the counter. */
  lemma PushOutcome(s: Loop, t: Step)
    requires Enabled(s, t)
    requires t.ForeignPush? || t.LoopPush? || t.ForeignWake? || t.ForeignQuitWake? || t.LoopMaybeWake?
    ensures var d := Next(s, t);
      && d.pending == s.pending + (if t.ForeignPush? || t.LoopPush? then [s.pushes] else [])
      && d.pc == s.pc && d.batch == s.batch && d.ran == s.ran
      && (t.ForeignPush? ==> d.midPush == s.midPush + 1)
      && (0 < d.counter <==> 0 < s.counter || t.ForeignWake? || t.ForeignQuitWake? || (t.LoopMaybeWake? && s.calling))
      && s.counter <= d.counter <= s.counter + 1 && (s.counter <= COUNTER_MAX ==> d.counter <= COUNTER_MAX)
  {
  }

  /** The flag means what it says once the loop has run a batch: it is set exactly while functors are called. */
  lemma {:induction false} FlagMeansCalling(states: seq<Loop>, steps: seq<Step>, k: nat, i: nat)
    requires IsRun(states, steps) && k < i < |states| && steps[k] == EndBatch
    ensures states[i].calling <==> states[i].pc == Marked || states[i].pc == Batch
    ensures states[i].pc != NotLooping
  {
    hide Next, Enabled, Initial;
    FlagStep(states[i - 1], steps[i - 1]);
    if i == k + 1 {
    } else {
      FlagMeansCalling(states, steps, k, i - 1);
    }
  }

  lemma FlagStep(s: Loop, t: Step)
    requires Enabled(s, t)
    ensures t == EndBatch ==> !Next(s, t).calling && Next(s, t).pc == AtGuard
    ensures s.pc != NotLooping && (s.calling <==> s.pc == Marked || s.pc == Batch) ==>
      Next(s, t).pc != NotLooping && (Next(s, t).calling <==> Next(s, t).pc == Marked || Next(s, t).pc == Batch)
  {
  }

  predicate MayWake(t: Step) { t.ForeignWake? || t.ForeignQuitWake? || t.LoopMaybeWake? }

  /** Reading the eventfd quiets it: it stays unreadable until somebody wakes the loop again. */
  lemma {:induction false} QuietUntilWoken(states: seq<Loop>, steps: seq<Step>, k: nat, i: nat)
    requires IsRun(states, steps) && k < i < |states| && steps[k] == ReadWakeup
    requires forall j | k < j < i :: !MayWake(steps[j])
    ensures states[i].counter == 0
  {
    hide Next, Enabled, Initial, MayWake;
    QuietStep(states[i - 1], steps[i - 1]);
    if i == k + 1 {
    } else {
      QuietUntilWoken(states, steps, k, i - 1);
    }
  }

  lemma QuietStep(s: Loop, t: Step)
    requires Enabled(s, t)
    ensures t == ReadWakeup ==> Next(s, t).counter == 0
    ensures s.counter == 0 && !MayWake(t) ==> Next(s, t).counter == 0
  {
  }

  // What happens before `loop()`.

  /** A step that makes the eventfd readable, now or soon. */
  predicate Rouses(s: Loop, t: Step) {
    t.ForeignPush? || t.ForeignQuit? || (t.LoopMaybeWake? && s.calling)
  }

  lemma {:induction false} BeforeFirstPoll(states: seq<Loop>, steps: seq<Step>, i: nat)
    requires IsRun(states, steps) && i < |states|
    requires forall j | 0 <= j < i :: !steps[j].PollReturn?
    ensures states[i].pc in {NotLooping, AtGuard, Polling, Stopped}
    ensures 0 < states[i].counter || 0 < states[i].midPush || 0 < states[i].midQuit
      <==> exists j :: 0 <= j < i && Rouses(states[j], steps[j])
  {
    if i == 0 {
    } else {
      BeforeFirstPoll(states, steps, i - 1);
      RousedStep(states[i - 1], steps[i - 1]);
      assert states[i] == Next(states[i - 1], steps[i - 1]);
      hide Next, Enabled, Rouses;
      if Rouses(states[i - 1], steps[i - 1]) {
      } else if exists j :: 0 <= j < i && Rouses(states[j], steps[j]) {
        var j :| 0 <= j < i && Rouses(states[j], steps[j]);
        assert j < i - 1;
      }
    }
  }

  predicate Roused(s: Loop) { 0 < s.counter || 0 < s.midPush || 0 < s.midQuit }

  lemma RousedStep(s: Loop, t: Step)
    requires Enabled(s, t) && !t.PollReturn? && s.pc in {NotLooping, AtGuard, Polling, Stopped}
    ensures Next(s, t).pc in {NotLooping, AtGuard, Polling, Stopped}
    ensures Roused(Next(s, t)) <==> Roused(s) || Rouses(s, t)
  {
    if t.ForeignPush? || t.ForeignWake? || t.ForeignQuit? || t.ForeignQuitWake? || t.LoopPush? || t.LoopMaybeWake? {
      assert Next(s, t).pc == s.pc;
      RousedByPush(s, t);
    } else {
      var d := Next(s, t);
      assert d.counter == s.counter && d.midPush == s.midPush && d.midQuit == s.midQuit;
    }
  }

  lemma RousedByPush(s: Loop, t: Step)
    requires Enabled(s, t)
    requires t.ForeignPush? || t.ForeignWake? || t.ForeignQuit? || t.ForeignQuitWake? || t.LoopPush? || t.LoopMaybeWake?
    ensures Roused(Next(s, t)) <==> Roused(s) || Rouses(s, t)
  {
  }

  /** Functors that the loop thread queues before `loop()` are noticed by the first poll exactly when some
      thread rouses the loop besides: the loop thread itself if the uninitialised flag happened to be true,
      or another thread that pushes or quits. */
  lemma EarlyPushNoticedIff(states: seq<Loop>, steps: seq<Step>, i: nat)
    requires IsRun(states, steps) && i < |states| && states[i].pc == Polling
    requires forall j | 0 <= j < i :: !steps[j].PollReturn?
    ensures Roused(states[i]) <==> exists j :: 0 <= j < i && Rouses(states[j], steps[j])
  {
    BeforeFirstPoll(states, steps, i);
  }

  /** With nobody else about, it is the flag alone that decides. */
  lemma LonePushNoticedIff(s: Loop)
    requires Initial(s)
    ensures var s1 := Next(s, LoopPush);
      var s2 := Next(s1, LoopMaybeWake);
      var s3 := Next(s2, Enter);
      var s4 := Next(s3, Guard);
      s4.pc == Polling && s4.pending == [0] && (Roused(s4) <==> s.calling)
  {
  }

  predicate RequestsQuit(t: Step) { t.ForeignQuit? || t.LoopQuit? }

  lemma QuitStep(s: Loop, t: Step)
    requires Enabled(s, t)
    ensures RequestsQuit(t) ==> Next(s, t).quit && Next(s, t).pc == s.pc
    ensures s.pc != NotLooping ==> Next(s, t).pc != NotLooping && (s.quit ==> Next(s, t).quit)
    ensures s.pc == NotLooping && Next(s, t).pc == NotLooping ==> s.quit ==> Next(s, t).quit
    ensures s.pc == NotLooping && Next(s, t).pc != NotLooping ==> !Next(s, t).quit
    ensures !RequestsQuit(t) && !s.quit ==> !Next(s, t).quit
  {
  }

  /** A request to quit is still there when the loop runs exactly when it found the loop running: `loop()`
      clears the flag as it starts. */
  lemma {:induction false} QuitSurvivesIff(states: seq<Loop>, steps: seq<Step>, k: nat, i: nat)
    requires IsRun(states, steps) && k < i < |states| && RequestsQuit(steps[k])
    requires forall j | k < j < i :: !RequestsQuit(steps[j])
    ensures states[i].pc != NotLooping ==> (states[i].quit <==> states[k].pc != NotLooping)
    ensures states[i].pc == NotLooping ==> states[i].quit && states[k].pc == NotLooping
  {
    hide Next, Enabled, Initial;
    QuitStep(states[i - 1], steps[i - 1]);
    if i == k + 1 {
    } else {
      QuitSurvivesIff(states, steps, k, i - 1);
    }
  }

  /** One such loss: another thread quits and wakes, and the loop starts and polls all the same. */
  lemma EarlyQuitLost(s: Loop)
    requires Initial(s)
    ensures var s1 := Next(s, ForeignQuit);
      var s2 := Next(s1, ForeignQuitWake);
      var s3 := Next(s2, Enter);
      s1.quit && Next(s3, Guard).pc == Polling && !Next(s3, Guard).quit
  {
  }

  /** Each functor runs once, in push order: at every moment, what ran is a prefix of the push history
      and the rest is still queued, in order. */
  lemma ExactlyOnceInOrder(states: seq<Loop>, steps: seq<Step>, i: nat)
    requires IsRun(states, steps) && i < |states|
    ensures states[i].ran == UpTo(|states[i].ran|) && |states[i].ran| <= states[i].pushes
    ensures states[i].ran + states[i].batch + states[i].pending == UpTo(states[i].pushes)
  {
    RunKeeps(states, steps, i);
    var s := states[i];
    assert |s.ran + s.batch + s.pending| == |UpTo(s.pushes)|;
    forall k | 0 <= k < |s.ran|
      ensures s.ran[k] == k
    {
      assert s.ran[k] == (s.ran + s.batch + s.pending)[k];
    }
  }

  lemma BatchStep(s: Loop, t: Step)
    requires Inv(s) && Enabled(s, t) && (t == Swap || s.pc == Batch)
    ensures var d := Next(s, t);
      if t == Swap then s.pc == Marked && d.pc == Batch && d.batchEnd == s.pushes
      else if t == EndBatch then |d.ran| == s.batchEnd
      else d.pc == Batch && d.batchEnd == s.batchEnd
  {
  }

  /** One `doPendingFunctors` call: from the swap at state `i` to any later state `j` of the same batch,
      only functors that were queued before the swap have run; when the batch ends, all of those have. */
  lemma {:induction false} BatchBounded(states: seq<Loop>, steps: seq<Step>, i: nat, j: nat)
    requires IsRun(states, steps) && i < j < |states|
    requires steps[i] == Swap && forall k | i < k < j :: steps[k] != EndBatch
    ensures states[j].pc == Batch && states[j].batchEnd == states[i].pushes
    ensures |states[j].ran| <= states[i].pushes
    ensures j < |steps| && steps[j] == EndBatch ==> |states[j + 1].ran| == states[i].pushes
  {
    hide Next, Enabled;
    RunKeeps(states, steps, j - 1);
    RunKeeps(states, steps, j);
    if i + 1 < j {
      BatchBounded(states, steps, i, j - 1);
    }
    BatchStep(states[j - 1], steps[j - 1]);
    assert |states[j].ran| <= states[j].batchEnd by {
      assert Inv(states[j]);
    }
    if j < |steps| && steps[j] == EndBatch {
      BatchStep(states[j], steps[j]);
    }
  }

  // The class.

  predicate Runnable(s: Loop, steps: seq<Step>)
    decreases steps
  {
    steps != [] ==> Enabled(s, steps[0]) && Runnable(Next(s, steps[0]), steps[1..])
  }

  function Ran(s: Loop, steps: seq<Step>): Loop
    requires Runnable(s, steps)
    decreases steps
  {
    if steps == [] then s else Ran(Next(s, steps[0]), steps[1..])
  }

  predicate Leads(s: Loop, steps: seq<Step>, d: Loop) {
    Runnable(s, steps) && Ran(s, steps) == d
  }

  lemma {:induction false} LeadsOn(s: Loop, steps: seq<Step>, d: Loop, t: Step)
    requires Leads(s, steps, d) && Enabled(d, t)
    ensures Leads(s, steps + [t], Next(d, t))
    decreases steps
  {
    hide Enabled, Next;
    if steps == [] {
      assert steps + [t] == [t] && [t][1..] == [];
      assert Runnable(Next(s, t), []) && Ran(Next(s, t), []) == Next(s, t);
      assert Runnable(s, [t]);
    } else {
      LeadsOn(Next(s, steps[0]), steps[1..], d, t);
      assert (steps + [t])[1..] == steps[1..] + [t];
    }
  }

  /** The loop object. A method stands for one thread's call with no other thread in between; the steps above
      give every interleaving. */
  class EventLoop {
    var pc: Pc
    var quit: bool
    var callingPendingFunctors: bool
    var pendingFunctors: seq<Functor>
    var functors: seq<Functor>
    var ran: seq<Functor>
    var pushes: nat
    var counter: nat
    var wakeActive: bool
    var midPush: nat
    var midQuit: nat
    var loopMidPush: bool
    var batchEnd: nat
    var silentEarlyPush: bool

    ghost function View(): Loop
      reads this
    {
      Loop(pc, quit, callingPendingFunctors, pendingFunctors, functors, ran, pushes, counter, wakeActive, midPush,
           midQuit, loopMidPush, batchEnd, silentEarlyPush)
    }

    /** `callingPendingFunctors_` keeps whatever value it had. */
    constructor (garbage: bool)
      ensures Initial(View()) && callingPendingFunctors == garbage
    {
      pc, quit, callingPendingFunctors := NotLooping, false, garbage;
      pendingFunctors, functors, ran, pushes, counter := [], [], [], 0, 0;
      wakeActive, midPush, midQuit, loopMidPush, batchEnd, silentEarlyPush := false, 0, 0, false, 0, false;
    }

    method Wakeup()
      modifies `counter
      ensures View() == Woken(old(View())) && 0 < counter
    {
      if counter < COUNTER_MAX {
        counter := counter + 1;
      }
    }

    /** `queueInLoop` on a thread of its own. */
    method QueueFromOutside()
      modifies this
      ensures View() == Next(Next(old(View()), ForeignPush), ForeignWake)
    {
      pendingFunctors, pushes := pendingFunctors + [pushes], pushes + 1;
      Wakeup();
    }

    /** `queueInLoop` on the loop thread. */
    method QueueInLoop()
      requires Enabled(View(), LoopPush)
      modifies this
      ensures View() == Next(Next(old(View()), LoopPush), LoopMaybeWake)
    {
      pendingFunctors, pushes := pendingFunctors + [pushes], pushes + 1;
      if callingPendingFunctors {
        Wakeup();
      } else if pc == NotLooping {
        silentEarlyPush := true;
      }
    }

    /** One functor of the batch, which queues `queues` more. */
    method RunFunctor(queues: nat) returns (ghost steps: seq<Step>)
      requires Inv(View()) && Enabled(View(), RunNext)
      modifies this
      ensures Inv(View()) && Leads(old(View()), steps, View())
      ensures pc == Batch && !loopMidPush && functors == old(functors)[1..] && ran == old(ran) + [old(functors)[0]]
      ensures pushes == old(pushes) + queues
    {
      ghost var start := View();
      FirstRuns(start);
      steps := [RunNext];
      ran, functors := ran + [functors[0]], functors[1..];
      hide Inv, Leads, Next;
      for k := 0 to queues
        invariant Inv(View()) && Leads(start, steps, View())
        invariant pc == Batch && !loopMidPush && functors == start.batch[1..] && ran == start.ran + [start.batch[0]]
        invariant pushes == start.pushes + k
      {
        ghost var before := View();
        LoopQueues(before);
        QueueInLoop();
        LeadsJoin(start, steps, before, [LoopPush, LoopMaybeWake], View());
        steps := steps + [LoopPush, LoopMaybeWake];
      }
    }

    method SetCalling()
      requires Enabled(View(), Mark)
      modifies `pc, `callingPendingFunctors
      ensures View() == Next(old(View()), Mark)
    {
      callingPendingFunctors := true;
      pc := Marked;
    }

    /** The queue is swapped out under the lock. */
    method SwapPending()
      requires Enabled(View(), Swap)
      modifies this
      ensures View() == Next(old(View()), Swap)
      ensures pc == Batch && ran == old(ran) && functors == old(pendingFunctors) && loopMidPush == old(loopMidPush)
    {
      functors, pendingFunctors := pendingFunctors, [];
      pc, batchEnd, silentEarlyPush := Batch, pushes, false;
    }

    method LeaveBatch()
      requires Enabled(View(), EndBatch)
      modifies this
      ensures View() == Next(old(View()), EndBatch)
      ensures pc == AtGuard && ran == old(ran) && functors == []
    {
      callingPendingFunctors := false;
      pc := AtGuard;
    }

    /** The loop over the batch. */
    method RunBatch(queues: Functor -> nat) returns (ghost steps: seq<Step>)
      requires Inv(View()) && pc == Batch && !loopMidPush
      modifies this
      ensures Inv(View()) && Leads(old(View()), steps, View())
      ensures pc == Batch && !loopMidPush && functors == [] && ran == old(ran) + old(functors)
    {
      hide Inv, Leads;
      ghost var start := View();
      LeadsNowhere(start);
      steps := [];
      while functors != []
        invariant Inv(View()) && Leads(start, steps, View())
        invariant pc == Batch && !loopMidPush && ran + functors == start.ran + start.batch
        decreases |functors|
      {
        ghost var before := View();
        ghost var more := RunFunctor(queues(functors[0]));
        LeadsJoin(start, steps, before, more, View());
        steps := steps + more;
        assert before.ran + [before.batch[0]] + before.batch[1..] == before.ran + before.batch;
      }
      assert ran + [] == ran;
    }

    /** `doPendingFunctors`, where functor `f` queues `queues(f)` more: it runs exactly the functors pending
        at the swap, and if any were queued meanwhile, the next poll will find the eventfd readable. */
    method DoPendingFunctors(queues: Functor -> nat) returns (ghost steps: seq<Step>)
      requires Inv(View()) && Enabled(View(), Mark)
      modifies this
      ensures Inv(View()) && Leads(old(View()), steps, View()) && pc == AtGuard
      ensures ran == old(ran) + old(pendingFunctors) && functors == []
      ensures pendingFunctors != [] ==> 0 < counter || 0 < midPush || silentEarlyPush
    {
      ghost var start := View();
      MarkThenSwap(start);
      hide Inv, Leads, Next;
      SetCalling();
      SwapPending();
      ghost var before := View();
      ghost var more := RunBatch(queues);
      LeadsJoin(start, [Mark, Swap], before, more, View());
      StepKeeps(View(), EndBatch);
      LeadsOn(start, [Mark, Swap] + more, View(), EndBatch);
      steps := [Mark, Swap] + more + [EndBatch];
      LeaveBatch();
      GuardNoticed(View());
    }
  }

  lemma LeadsNowhere(s: Loop)
    ensures Leads(s, [], s)
  {
  }

  lemma FirstRuns(s: Loop)
    requires Inv(s) && Enabled(s, RunNext)
    ensures Inv(Next(s, RunNext)) && Leads(s, [RunNext], Next(s, RunNext))
  {
  }

  lemma LoopQueues(s: Loop)
    requires Inv(s) && Enabled(s, LoopPush)
    ensures Enabled(Next(s, LoopPush), LoopMaybeWake)
    ensures var d := Next(Next(s, LoopPush), LoopMaybeWake);
      && Inv(d) && Leads(s, [LoopPush, LoopMaybeWake], d)
      && d.pc == s.pc && d.loopMidPush == s.loopMidPush
      && d.batch == s.batch && d.ran == s.ran && d.pushes == s.pushes + 1
  {
    StepKeeps(s, LoopPush);
    StepKeeps(Next(s, LoopPush), LoopMaybeWake);
    LeadsNowhere(s);
    LeadsOn(s, [], s, LoopPush);
    LeadsOn(s, [] + [LoopPush], Next(s, LoopPush), LoopMaybeWake);
    assert [] + [LoopPush] + [LoopMaybeWake] == [LoopPush, LoopMaybeWake];
  }

  lemma MarkThenSwap(s: Loop)
    requires Inv(s) && Enabled(s, Mark)
    ensures Enabled(Next(s, Mark), Swap)
    ensures var d := Next(Next(s, Mark), Swap); Inv(d) && Leads(s, [Mark, Swap], d)
  {
  }

  lemma GuardNoticed(s: Loop)
    requires Inv(s) && s.pc == AtGuard
    ensures s.pending != [] ==> 0 < s.counter || 0 < s.midPush || s.silentEarlyPush
  {
  }

  lemma {:induction false} LeadsJoin(s: Loop, steps: seq<Step>, m: Loop, more: seq<Step>, d: Loop)
    requires Leads(s, steps, m) && Leads(m, more, d)
    ensures Leads(s, steps + more, d)
    decreases steps
  {
    hide Enabled, Next;
    if steps == [] {
      assert steps + more == more;
    } else {
      LeadsJoin(Next(s, steps[0]), steps[1..], m, more, d);
      assert (steps + more)[1..] == steps[1..] + more;
    }
  }
}
