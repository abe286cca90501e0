/** The worker pool: a locked queue, one condition variable, and "keep only the newest" submission. */
module ThreadPools {

  /** A task is named by its place in the order of all submissions. */
  type Task = nat

  /** `Awake` is about to take the lock and look at the queue (also after `notify_one` or a spurious
      wakeup), `Waiting` is blocked in `wait`, `Running` executes its task. */
  datatype Worker = Awake | Waiting | Running(task: Task)

  /** `midNotify` counts producers between their push and their `notify_one`; `taken` are the tasks workers
      took, in order, and `dropped` those that `add_last_task` threw away. */
  datatype Pool = Pool(
    tasks: seq<Task>,
    workers: seq<Worker>,
    midNotify: nat,
    submitted: nat,
    taken: seq<Task>,
    dropped: set<Task>)

  datatype Step =
    | AddTask
    | AddLastTask
    | Notify(who: nat)
    | Spurious(who: nat)
    | Look(who: nat)
    | Finish(who: nat)

  function WithWorker(p: Pool, who: nat, w: Worker): Pool
    requires who < |p.workers|
  {
    p.(workers := p.workers[who := w])
  }

  predicate Enabled(p: Pool, t: Step) {
    match t
    case AddTask => true
    case AddLastTask => true
    // `notify_one` wakes some waiting worker if there is one
    case Notify(who) =>
      0 < p.midNotify && (if Waiting in p.workers then who < |p.workers| && p.workers[who] == Waiting else true)
    case Spurious(who) => who < |p.workers| && p.workers[who] == Waiting
    case Look(who) => who < |p.workers| && p.workers[who] == Awake
    case Finish(who) => who < |p.workers| && p.workers[who].Running?
  }

  function Next(p: Pool, t: Step): Pool
    requires Enabled(p, t)
  {
    match t
    case AddTask =>
      p.(tasks := p.tasks + [p.submitted], submitted := p.submitted + 1, midNotify := p.midNotify + 1)
    case AddLastTask =>
      p.(tasks := [p.submitted], submitted := p.submitted + 1, midNotify := p.midNotify + 1,
         dropped := p.dropped + set x | x in p.tasks)
    case Notify(who) =>
      var p1 := p.(midNotify := p.midNotify - 1);
      if Waiting in p.workers then WithWorker(p1, who, Awake) else p1
    case Spurious(who) => WithWorker(p, who, Awake)
    case Look(who) =>
      if p.tasks == [] then WithWorker(p, who, Waiting)
      else WithWorker(p.(tasks := p.tasks[1..], taken := p.taken + [p.tasks[0]]), who, Running(p.tasks[0]))
    case Finish(who) => WithWorker(p, who, Awake)
  }

  function Fresh(n: nat): Pool {
    Pool([], seq(n, _ => Awake), 0, 0, [], {})
  }

  ghost predicate IsRun(states: seq<Pool>, steps: seq<Step>, n: nat) {
    && |states| == |steps| + 1 && states[0] == Fresh(n)
    && forall i | 0 <= i < |steps| :: Enabled(states[i], steps[i]) && states[i + 1] == Next(states[i], steps[i])
  }

  function CountAwake(ws: seq<Worker>): nat {
    if ws == [] then 0 else (if ws[0] == Awake then 1 else 0) + CountAwake(ws[1..])
  }

  lemma {:induction false} CountUpdate(ws: seq<Worker>, who: nat, w: Worker)
    requires who < |ws|
    ensures CountAwake(ws[who := w])
      == CountAwake(ws) - (if ws[who] == Awake then 1 else 0) + (if w == Awake then 1 else 0)
  {
    if who == 0 {
      assert ws[0 := w][1..] == ws[1..];
    } else {
      assert ws[who := w][1..] == ws[1..][who - 1 := w];
      CountUpdate(ws[1..], who - 1, w);
    }
  }

  /** The queue holds the newest tasks; older ones were taken, in increasing order, or dropped. */
  ghost predicate Accounted(p: Pool) {
    && |p.tasks| <= p.submitted
    && (forall i | 0 <= i < |p.tasks| :: p.tasks[i] == p.submitted - |p.tasks| + i)
    && (forall i, j | 0 <= i < j < |p.taken| :: p.taken[i] < p.taken[j])
    && (forall x | x in p.taken :: x < p.submitted - |p.tasks| && x !in p.dropped)
    && (forall x | x in p.dropped :: x < p.submitted - |p.tasks|)
    && (forall x | 0 <= x < p.submitted - |p.tasks| :: x in p.taken || x in p.dropped)
  }

  /** While a worker sleeps, every queued task has an awake worker or a notification still to come. */
  predicate WorkConserving(p: Pool) {
    Waiting in p.workers ==> |p.tasks| <= CountAwake(p.workers) + p.midNotify
  }

  lemma NextAccounts(p: Pool, t: Step)
    requires Accounted(p) && Enabled(p, t)
    ensures Accounted(Next(p, t))
  {
    var d := Next(p, t);
    if t.Look? && p.tasks != [] {
      assert d.taken[|p.taken|] == p.tasks[0] == p.submitted - |p.tasks|;
      forall i, j | 0 <= i < j < |d.taken|
        ensures d.taken[i] < d.taken[j]
      {
        assert p.taken[i] in p.taken;
      }
      forall x | 0 <= x < d.submitted - |d.tasks|
        ensures x in d.taken || x in d.dropped
      {
        if x == p.submitted - |p.tasks| {
          assert x == d.taken[|p.taken|];
        } else if x in p.taken {
          assert x in d.taken;
        }
      }
    } else if t.AddLastTask? {
      forall x | 0 <= x < d.submitted - 1
        ensures x in d.taken || x in d.dropped
      {
        if p.submitted - |p.tasks| <= x {
          assert p.tasks[x - (p.submitted - |p.tasks|)] == x;
        }
      }
    }
  }

  lemma NextConserves(p: Pool, t: Step)
    requires WorkConserving(p) && Enabled(p, t)
    ensures WorkConserving(Next(p, t)) && |Next(p, t).workers| == |p.workers|
  {
    var d := Next(p, t);
    if (t.Notify? && Waiting in p.workers) || t.Spurious? {
      CountUpdate(p.workers, t.who, Awake);
      if Waiting in d.workers { assert Waiting in p.workers; }
    } else if t.Finish? {
      CountUpdate(p.workers, t.who, Awake);
      if Waiting in d.workers { StillWaiting(p.workers, t.who, Awake); }
    } else if t.Look? {
      if p.tasks == [] {
      } else {
        CountUpdate(p.workers, t.who, Running(p.tasks[0]));
        if Waiting in d.workers { StillWaiting(p.workers, t.who, Running(p.tasks[0])); }
      }
    }
  }

  lemma StillWaiting(ws: seq<Worker>, who: nat, w: Worker)
    requires who < |ws| && w != Waiting && Waiting in ws[who := w]
    ensures Waiting in ws
  {
  }

  lemma {:induction false} RunKeeps(states: seq<Pool>, steps: seq<Step>, n: nat, i: nat)
    requires IsRun(states, steps, n) && i < |states|
    ensures Accounted(states[i]) && WorkConserving(states[i]) && |states[i].workers| == n
  {
    if i == 0 {
    } else {
      RunKeeps(states, steps, n, i - 1);
      NextAccounts(states[i - 1], steps[i - 1]);
      NextConserves(states[i - 1], steps[i - 1]);
    }
  }

  lemma {:induction false} SomeAwake(ws: seq<Worker>)
    ensures 0 < CountAwake(ws) <==> Awake in ws
  {
    if ws == [] {
    } else {
      SomeAwake(ws[1..]);
    }
  }

  /** Progress: a non-empty queue never finds every worker asleep with no notification under way. It needs a
      pool of at least one worker, and the empty pool really is stuck. */
  lemma NeverAllAsleep(states: seq<Pool>, steps: seq<Step>, n: nat, i: nat)
    requires IsRun(states, steps, n) && i < |states| && states[i].tasks != []
    ensures 0 < n ==>
      0 < states[i].midNotify || exists w :: 0 <= w < |states[i].workers| && states[i].workers[w] != Waiting
    ensures Waiting in states[i].workers ==> |states[i].tasks| <= CountAwake(states[i].workers) + states[i].midNotify
  {
    RunKeeps(states, steps, n, i);
    var p := states[i];
    if 0 < n && p.midNotify == 0 {
      if p.workers[0] == Waiting {
        assert Waiting in p.workers;
        SomeAwake(p.workers);
        var w :| 0 <= w < n && p.workers[w] == Awake;
      }
    }
  }

  lemma EmptyPoolStuck()
    ensures var p := Next(Next(Fresh(0), AddTask), Notify(0));
      p.tasks == [0] && p.midNotify == 0 && p.workers == []
  {
  }

  /** Every submitted task is queued, or was taken by exactly one worker, or was dropped; tasks are taken in
      submission order. */
  lemma TakenOnceInOrder(states: seq<Pool>, steps: seq<Step>, n: nat, i: nat)
    requires IsRun(states, steps, n) && i < |states|
    ensures var p := states[i];
      && (forall j, k | 0 <= j < k < |p.taken| :: p.taken[j] < p.taken[k])
      && (forall x | 0 <= x < p.submitted ::
            && (x in p.tasks || x in p.taken || x in p.dropped)
            && !(x in p.tasks && x in p.taken) && !(x in p.tasks && x in p.dropped)
            && !(x in p.taken && x in p.dropped))
  {
    RunKeeps(states, steps, n, i);
    var p := states[i];
    forall x | p.submitted - |p.tasks| <= x < p.submitted
      ensures x in p.tasks
    {
      assert p.tasks[x - (p.submitted - |p.tasks|)] == x;
    }
  }

  /** A task is dropped only by an `add_last_task` that finds it still queued, and that call leaves only its
      own task. */
  lemma DroppedOnlyIfQueued(p: Pool, t: Step, x: Task)
    requires Accounted(p) && Enabled(p, t)
    ensures x in Next(p, t).dropped && x !in p.dropped <==> t == AddLastTask && x in p.tasks
    ensures t == AddLastTask ==> Next(p, t).tasks == [p.submitted]
  {
  }

  // What each step gets done.

  /** A worker that looks takes the oldest task off the queue and runs it, or falls asleep over an empty queue;
      whoever is woken or finishes looks again; nobody else is affected. */
  lemma WorkerOutcome(p: Pool, t: Step)
    requires Enabled(p, t) && (t.Look? || t.Finish? || t.Spurious? || (t.Notify? && Waiting in p.workers))
    ensures var d := Next(p, t);
      && |d.workers| == |p.workers|
      && (forall w | 0 <= w < |p.workers| && w != t.who :: d.workers[w] == p.workers[w])
      && (!t.Look? ==> d.workers[t.who] == Awake && d.tasks == p.tasks && d.taken == p.taken)
      && (t.Look? && p.tasks == [] ==> d.workers[t.who] == Waiting && d.tasks == [] && d.taken == p.taken)
      && (t.Look? && p.tasks != [] ==>
            && d.workers[t.who] == Running(p.tasks[0])
            && [p.tasks[0]] + d.tasks == p.tasks && d.taken == p.taken + [p.tasks[0]])
      && d.submitted == p.submitted && d.dropped == p.dropped
  {
  }

  /** Submitting appends one new task, behind the others or in their place, and owes one notification. */
  lemma SubmitOutcome(p: Pool, t: Step)
    requires t == AddTask || t == AddLastTask
    ensures var d := Next(p, t);
      && d.tasks == (if t == AddTask then p.tasks else []) + [p.submitted] && d.submitted == p.submitted + 1
      && d.midNotify == p.midNotify + 1 && d.workers == p.workers && d.taken == p.taken
      && d.dropped == if t == AddTask then p.dropped else p.dropped + set x | x in p.tasks
  {
  }

  /** What a worker runs it has taken, and no two workers run the same task. */
  ghost predicate RunsApart(p: Pool) {
    && (forall w | 0 <= w < |p.workers| && p.workers[w].Running? :: p.workers[w].task in p.taken)
    && (forall v, w | 0 <= v < w < |p.workers| && p.workers[v].Running? && p.workers[w].Running? ::
          p.workers[v].task != p.workers[w].task)
  }

  lemma NextRunsApart(p: Pool, t: Step)
    requires RunsApart(p) && Accounted(p) && Enabled(p, t)
    ensures RunsApart(Next(p, t))
  {
    if t.Look? && p.tasks != [] {
      assert p.tasks[0] == p.submitted - |p.tasks|;
      assert p.tasks[0] !in p.taken;
      var d := Next(p, t);
      assert d.taken[|p.taken|] == p.tasks[0];
      assert forall x | x in p.taken :: x in d.taken;
    }
  }

  lemma {:induction false} NoTaskTwice(states: seq<Pool>, steps: seq<Step>, n: nat, i: nat)
    requires IsRun(states, steps, n) && i < |states|
    ensures RunsApart(states[i])
  {
    if i == 0 {
    } else {
      NoTaskTwice(states, steps, n, i - 1);
      RunKeeps(states, steps, n, i - 1);
      hide Next, Enabled, RunsApart, Accounted, WorkConserving;
      NextRunsApart(states[i - 1], steps[i - 1]);
    }
  }

  // The class.

  class ThreadPool {
    var tasks: seq<Task>
    // the condition variable and the threads, and history
    var workers: seq<Worker>
    var midNotify: nat
    var submitted: nat
    var taken: seq<Task>
    var dropped: set<Task>

    ghost function View(): Pool
      reads this
    {
      Pool(tasks, workers, midNotify, submitted, taken, dropped)
    }

    constructor (n: nat)
      ensures View() == Fresh(n)
    {
      tasks, workers, midNotify, submitted, taken, dropped := [], seq(n, _ => Awake), 0, 0, [], {};
    }

    method Push()
      modifies `tasks, `submitted, `midNotify
      ensures View() == old(View()).(
        tasks := old(tasks) + [old(submitted)], submitted := old(submitted) + 1, midNotify := old(midNotify) + 1)
    {
      tasks := tasks + [submitted];
      submitted, midNotify := submitted + 1, midNotify + 1;
    }

    /** `notify_one`; the system picks the waiter. */
    method NotifyOne(who: nat)
      requires Enabled(View(), Notify(who))
      modifies `workers, `midNotify
      ensures View() == Next(old(View()), Notify(who))
    {
      midNotify := midNotify - 1;
      if Waiting in workers {
        workers := workers[who := Awake];
      }
    }

    method AddTask(who: nat)
      requires Enabled(Next(View(), Step.AddTask), Notify(who))
      modifies this
      ensures View() == Next(Next(old(View()), Step.AddTask), Notify(who))
    {
      Push();
      NotifyOne(who);
    }

    method AddLastTask(who: nat)
      requires Enabled(Next(View(), Step.AddLastTask), Notify(who))
      modifies this
      ensures View() == Next(Next(old(View()), Step.AddLastTask), Notify(who))
    {
      var empty: seq<Task> := [];
      tasks, empty := empty, tasks;
      dropped := dropped + set x | x in empty;
      Push();
      NotifyOne(who);
    }

    /** `work`: look at the queue under the lock; wait, or take the oldest task. */
    method Work(who: nat) returns (task: seq<Task>)
      requires Enabled(View(), Look(who))
      modifies this
      ensures View() == Next(old(View()), Look(who))
      ensures task + tasks == old(tasks) && (task == [] <==> old(tasks) == [])
    {
      if tasks == [] {
        workers := workers[who := Waiting];
        task := [];
      } else {
        task := [tasks[0]];
        tasks := tasks[1..];
        taken := taken + task;
        workers := workers[who := Running(task[0])];
      }
    }
  }
}
