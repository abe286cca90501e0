/** Timers in an ordered set, served by one one-shot timerfd. Times are microseconds. */
module TimerQueues {
  import opened Common

  /** The sentinel address that `getExpired` searches with; no timer lives there. */
  const UINTPTR_MAX: nat := 0xFFFF_FFFF_FFFF_FFFF

  type Address = a: nat | a < UINTPTR_MAX

  /** `serial` names the allocation, since addresses are reused. `interval` is in seconds. */
  datatype Timer = Timer(serial: nat, expiration: int, interval: real) {
    predicate Repeat() { interval > 0.0 }
  }

  datatype Entry = Entry(when: int, addr: Address)

  predicate Less(a: Entry, b: Entry) {
    a.when < b.when || (a.when == b.when && a.addr < b.addr)
  }

  predicate Sorted(ts: seq<Entry>) {
    forall i, j | 0 <= i < j < |ts| :: Less(ts[i], ts[j])
  }

  /** A call of `addTimer`. `addr` is what the allocator hands out for it. */
  datatype Request = Request(addr: Address, when: int, interval: real)

  /** What was asked of one allocation, and where it lives until it is freed. */
  datatype Life = Life(asked: Request, home: Option<Address>) {
    predicate Repeat() { asked.interval > 0.0 }
  }

  /** `timers` is the ordered set, `heap` the allocated timers, `waiting` those that another thread allocated
      and the loop has not inserted yet; the timerfd is armed for a time, or has fired and was not yet read.
      `lives` and `runs` are the history of allocations and callback runs. */
  datatype Queue = Queue(
    timers: seq<Entry>,
    heap: map<Address, Timer>,
    waiting: set<Address>,
    armed: Option<int>,
    fired: bool,
    lives: seq<Life>,
    runs: seq<nat>)

  // The ordered set.

  function Inserted(ts: seq<Entry>, e: Entry): seq<Entry> {
    if ts == [] then [e]
    else if ts[0] == e then ts
    else if Less(e, ts[0]) then [e] + ts
    else [ts[0]] + Inserted(ts[1..], e)
  }

  lemma {:induction false} InsertedCorrect(ts: seq<Entry>, e: Entry)
    requires Sorted(ts)
    ensures Sorted(Inserted(ts, e))
    ensures forall x :: x in Inserted(ts, e) <==> x == e || x in ts
  {
    if ts != [] && ts[0] != e && !Less(e, ts[0]) {
      InsertedCorrect(ts[1..], e);
      assert forall x :: x in ts <==> x == ts[0] || x in ts[1..];
      var r := Inserted(ts[1..], e);
      forall j | 0 <= j < |r|
        ensures Less(ts[0], r[j])
      {
        assert r[j] in r;
        if r[j] != e {
          var k :| 0 <= k < |ts[1..]| && ts[1..][k] == r[j];
        }
      }
    }
  }

  /** `lower_bound` of the pair of `now` and the sentinel address. */
  function LowerBound(ts: seq<Entry>, now: int): (k: nat)
    ensures k <= |ts|
    ensures forall i | 0 <= i < k :: ts[i].when <= now
    ensures k < |ts| ==> now < ts[k].when
  {
    if ts == [] || now < ts[0].when then 0 else 1 + LowerBound(ts[1..], now)
  }

  // The operations.

  function Armed(q: Queue, when: int): Queue {
    q.(armed := Some(when), fired := false)
  }

  /** `interval_` seconds after `now`; the cast drops the fraction. */
  function AddTime(now: int, interval: real): (r: int)
    requires interval > 0.0
    ensures now <= r && (r - now) as real <= interval * 1000000.0 < (r - now + 1) as real
  {
    now + (interval * 1000000.0).Floor
  }

  function Allocated(q: Queue, r: Request): Queue {
    q.(heap := q.heap[r.addr := Timer(|q.lives|, r.when, r.interval)],
       lives := q.lives + [Life(r, Some(r.addr))])
  }

  function Enqueued(q: Queue, addr: Address): Queue
    requires addr in q.heap
  {
    q.(timers := Inserted(q.timers, Entry(q.heap[addr].expiration, addr)))
  }

  predicate EarliestChanged(q: Queue, when: int) {
    q.timers == [] || when < q.timers[0].when
  }

  function Added(q: Queue, r: Request): Queue {
    var q1 := Enqueued(Allocated(q, r), r.addr);
    if EarliestChanged(q, r.when) then Armed(q1, r.when) else q1
  }

  /** `addTimer` on another thread: the timer exists, its insertion is queued for the loop. */
  function Posted(q: Queue, r: Request): Queue {
    Allocated(q, r).(waiting := q.waiting + {r.addr})
  }

  /** The queued functor. */
  function Landed(q: Queue, addr: Address): Queue
    requires addr in q.heap
  {
    var q1 := Enqueued(q, addr).(waiting := q.waiting - {addr});
    if EarliestChanged(q, q.heap[addr].expiration) then Armed(q1, q.heap[addr].expiration) else q1
  }

  /** The allocator never hands out an address in use. */
  predicate Addable(q: Queue, rs: seq<Request>)
    decreases rs
  {
    rs != [] ==> rs[0].addr !in q.heap && Addable(Added(q, rs[0]), rs[1..])
  }

  function AddedAll(q: Queue, rs: seq<Request>): Queue
    decreases rs
  {
    if rs == [] then q else AddedAll(Added(q, rs[0]), rs[1..])
  }

  function Called(q: Queue, addr: Address): Queue
    requires addr in q.heap
  {
    q.(runs := q.runs + [q.heap[addr].serial])
  }

  /** Each expired timer's callback runs once and adds the timers of its list. */
  predicate Runnable(q: Queue, expired: seq<Entry>, adds: seq<seq<Request>>)
    decreases expired
  {
    |adds| == |expired| &&
    (expired != [] ==>
       && expired[0].addr in q.heap
       && Addable(Called(q, expired[0].addr), adds[0])
       && Runnable(AddedAll(Called(q, expired[0].addr), adds[0]), expired[1..], adds[1..]))
  }

  function RanAll(q: Queue, expired: seq<Entry>, adds: seq<seq<Request>>): Queue
    requires Runnable(q, expired, adds)
    decreases expired
  {
    if expired == [] then q
    else RanAll(AddedAll(Called(q, expired[0].addr), adds[0]), expired[1..], adds[1..])
  }

  function Restarted(q: Queue, addr: Address, now: int): Queue
    requires addr in q.heap
  {
    var t := q.heap[addr];
    if t.Repeat() then Enqueued(q.(heap := q.heap[addr := t.(expiration := AddTime(now, t.interval))]), addr)
    else
      q.(heap := q.heap - {addr},
         lives := if t.serial < |q.lives| then q.lives[t.serial := q.lives[t.serial].(home := None)] else q.lives)
  }

  predicate Live(q: Queue, expired: seq<Entry>) {
    && (forall i | 0 <= i < |expired| :: expired[i].addr in q.heap)
    && (forall i, j | 0 <= i < j < |expired| :: expired[i].addr != expired[j].addr)
  }

  function RestartedAll(q: Queue, expired: seq<Entry>, now: int): Queue
    requires Live(q, expired)
    decreases expired
  {
    if expired == [] then q else RestartedAll(Restarted(q, expired[0].addr, now), expired[1..], now)
  }

  function Rearmed(q: Queue): Queue {
    if q.timers == [] then q else Armed(q, q.timers[0].when)
  }

  function TakenOut(q: Queue, now: int): Queue {
    q.(fired := false, timers := q.timers[LowerBound(q.timers, now)..])
  }

  function ExpiredAt(q: Queue, now: int): seq<Entry> {
    q.timers[..LowerBound(q.timers, now)]
  }

  // The invariant.

  /** `out` are the addresses that `getExpired` took out and `reset` has not dealt with; `ran` those of
      them whose callback has run. */
  ghost predicate Consistent(q: Queue, out: set<Address>, ran: set<Address>) {
    && ran <= out <= q.heap.Keys
    && SetMatchesHeap(q.timers, q.heap, out)
    && HistoryMatchesHeap(q.lives, q.runs, q.heap, ran)
  }

  /** The set is sorted and holds, with its expiration, exactly each allocated timer not in `out`. */
  ghost predicate SetMatchesHeap(timers: seq<Entry>, heap: map<Address, Timer>, out: set<Address>) {
    && Sorted(timers)
    && (forall e | e in timers :: e.addr in heap && e.addr !in out && heap[e.addr].expiration == e.when)
    && (forall a | a in heap :: a !in out ==> Entry(heap[a].expiration, a) in timers)
  }

  /** Homes and allocations correspond; each timer is what was asked for and not due earlier; only one-shot
      timers were freed; and a one-shot timer has run once if it was freed or is in `ran`, and never otherwise. */
  ghost predicate HistoryMatchesHeap(lives: seq<Life>, runs: seq<nat>, heap: map<Address, Timer>, ran: set<Address>) {
    && (forall a | a in heap ::
          var s := heap[a].serial;
          && s < |lives| && lives[s].home == Some(a)
          && lives[s].asked.interval == heap[a].interval && lives[s].asked.when <= heap[a].expiration)
    && (forall s | 0 <= s < |lives| :: lives[s].home.Some? ==>
          lives[s].home.value in heap && heap[lives[s].home.value].serial == s)
    && (forall s | 0 <= s < |lives| :: lives[s].home.None? ==> !lives[s].Repeat())
    && (forall s | s in runs :: s < |lives|)
    && (forall s | 0 <= s < |lives| && !lives[s].Repeat() ::
          multiset(runs)[s] == if lives[s].home.None? || lives[s].home.value in ran then 1 else 0)
  }

  predicate ClockReady(q: Queue) {
    q.timers != [] ==> q.armed == Some(q.timers[0].when) || q.fired
  }

  ghost predicate Inv(q: Queue) {
    Consistent(q, q.waiting, {}) && ClockReady(q)
  }

  lemma AllocateKeeps(q: Queue, r: Request, out: set<Address>, ran: set<Address>)
    requires Consistent(q, out, ran) && r.addr !in q.heap
    ensures Consistent(Allocated(q, r), out + {r.addr}, ran)
  {
    assert |q.lives| !in q.runs;
  }

  lemma EnqueueKeeps(q: Queue, addr: Address, out: set<Address>, ran: set<Address>)
    requires Consistent(q, out, ran) && addr in out
    requires addr in ran ==> q.heap[addr].Repeat()
    ensures Consistent(Enqueued(q, addr), out - {addr}, ran - {addr})
  {
    InsertedCorrect(q.timers, Entry(q.heap[addr].expiration, addr));
  }

  lemma {:induction false} FirstOfInserted(ts: seq<Entry>, e: Entry)
    ensures Inserted(ts, e) != []
    ensures Inserted(ts, e)[0].when == if ts == [] || e.when < ts[0].when then e.when else ts[0].when
  {
  }

  lemma AddKeeps(q: Queue, r: Request, out: set<Address>, ran: set<Address>)
    requires Consistent(q, out, ran) && r.addr !in q.heap
    ensures Consistent(Added(q, r), out, ran)
    ensures ClockReady(q) ==> ClockReady(Added(q, r))
  {
    hide SetMatchesHeap, HistoryMatchesHeap, Inserted;
    AllocateKeeps(q, r, out, ran);
    EnqueueKeeps(Allocated(q, r), r.addr, out + {r.addr}, ran);
    assert (out + {r.addr}) - {r.addr} == out && ran - {r.addr} == ran;
    FirstOfInserted(q.timers, Entry(r.when, r.addr));
  }

  lemma PostKeeps(q: Queue, r: Request)
    requires Inv(q) && r.addr !in q.heap
    ensures Inv(Posted(q, r))
  {
    AllocateKeeps(q, r, q.waiting, {});
    hide SetMatchesHeap, HistoryMatchesHeap;
  }

  lemma LandKeeps(q: Queue, addr: Address)
    requires Inv(q) && addr in q.waiting
    ensures Inv(Landed(q, addr))
  {
    hide SetMatchesHeap, HistoryMatchesHeap, Inserted;
    EnqueueKeeps(q, addr, q.waiting, {});
    var none: set<Address> := {};
    assert none - {addr} == none;
    FirstOfInserted(q.timers, Entry(q.heap[addr].expiration, addr));
  }

  /** The queued lambda puts its timer into the set, and takes nothing out. */
  lemma LandOutcome(q: Queue, addr: Address)
    requires Inv(q) && addr in q.waiting
    ensures var d, e := Landed(q, addr), Entry(q.heap[addr].expiration, addr);
      && (forall x :: x in d.timers <==> x == e || x in q.timers)
      && d.waiting == q.waiting - {addr} && d.heap == q.heap && d.lives == q.lives && d.runs == q.runs
  {
    InsertedCorrect(q.timers, Entry(q.heap[addr].expiration, addr));
  }

  lemma {:induction false} AddAllKeeps(q: Queue, rs: seq<Request>, out: set<Address>, ran: set<Address>)
    requires Consistent(q, out, ran) && Addable(q, rs)
    ensures Consistent(AddedAll(q, rs), out, ran)
    decreases rs
  {
    if rs == [] {
    } else {
      AddKeeps(q, rs[0], out, ran);
      AddAllKeeps(Added(q, rs[0]), rs[1..], out, ran);
    }
  }

  lemma CallKeeps(q: Queue, addr: Address, out: set<Address>, ran: set<Address>)
    requires Consistent(q, out, ran) && addr in out && addr !in ran
    ensures Consistent(Called(q, addr), out, ran + {addr})
  {
  }

  function AddrSet(es: seq<Entry>): set<Address> {
    set e | e in es :: e.addr
  }

  lemma AddrSetCons(es: seq<Entry>)
    ensures es == [] ==> AddrSet(es) == {}
    ensures es != [] ==> AddrSet(es) == {es[0].addr} + AddrSet(es[1..])
    ensures es != [] && (forall i, j | 0 <= i < j < |es| :: es[i].addr != es[j].addr) ==>
      es[0].addr !in AddrSet(es[1..])
  {
  }

  predicate Extends(big: map<Address, Timer>, small: map<Address, Timer>) {
    forall a | a in small :: a in big && big[a] == small[a]
  }

  /** The allocations behind some entries, in their order. */
  function Serials(heap: map<Address, Timer>, es: seq<Entry>): seq<nat>
    requires forall i | 0 <= i < |es| :: es[i].addr in heap
  {
    if es == [] then [] else [heap[es[0].addr].serial] + Serials(heap, es[1..])
  }

  lemma {:induction false} SerialsExtend(big: map<Address, Timer>, small: map<Address, Timer>, es: seq<Entry>)
    requires Extends(big, small) && forall i | 0 <= i < |es| :: es[i].addr in small
    ensures Serials(big, es) == Serials(small, es)
  {
    if es == [] {
    } else {
      SerialsExtend(big, small, es[1..]);
    }
  }

  /** What was asked for, call by call. */
  function Asked(q: Queue): seq<Request> {
    seq(|q.lives|, s requires 0 <= s < |q.lives| => q.lives[s].asked)
  }

  lemma AddedShape(q: Queue, r: Request)
    requires r.addr !in q.heap
    ensures var d := Added(q, r);
      Extends(d.heap, q.heap) && d.runs == q.runs && d.waiting == q.waiting && (d.fired ==> q.fired)
    ensures Asked(Added(q, r)) == Asked(q) + [r]
  {
  }

  lemma {:induction false} AddedAllShape(q: Queue, rs: seq<Request>)
    requires Addable(q, rs)
    ensures Extends(AddedAll(q, rs).heap, q.heap)
    ensures AddedAll(q, rs).runs == q.runs && AddedAll(q, rs).waiting == q.waiting
    ensures (AddedAll(q, rs).fired ==> q.fired) && Asked(AddedAll(q, rs)) == Asked(q) + rs
    decreases rs
  {
    if rs == [] {
    } else {
      AddedShape(q, rs[0]);
      AddedAllShape(Added(q, rs[0]), rs[1..]);
      assert Asked(q) + [rs[0]] + rs[1..] == Asked(q) + rs;
    }
  }

  function Flatten(adds: seq<seq<Request>>): seq<Request> {
    if adds == [] then [] else adds[0] + Flatten(adds[1..])
  }

  /** The batch of callbacks runs each expired timer once, in order, whatever the callbacks add. */
  lemma {:induction false} RunAllRuns(q: Queue, expired: seq<Entry>, adds: seq<seq<Request>>)
    requires Runnable(q, expired, adds) && Live(q, expired)
    ensures var d := RanAll(q, expired, adds);
      && Extends(d.heap, q.heap) && d.waiting == q.waiting && d.runs == q.runs + Serials(q.heap, expired)
      && (d.fired ==> q.fired) && Asked(d) == Asked(q) + Flatten(adds)
    decreases expired
  {
    hide AddedAll, Addable;
    if expired == [] {
    } else {
      var q1 := Called(q, expired[0].addr);
      AddedAllShape(q1, adds[0]);
      var q2 := AddedAll(q1, adds[0]);
      RunAllRuns(q2, expired[1..], adds[1..]);
      SerialsExtend(q2.heap, q.heap, expired[1..]);
      assert q.runs + Serials(q.heap, expired) == q1.runs + Serials(q.heap, expired[1..]);
      assert Asked(q1) == Asked(q);
      assert Asked(q) + adds[0] + Flatten(adds[1..]) == Asked(q) + Flatten(adds);
    }
  }

  lemma {:induction false} RunAllKeeps(q: Queue, expired: seq<Entry>, adds: seq<seq<Request>>, wait: set<Address>,
                                       ran: set<Address>)
    requires Runnable(q, expired, adds) && Live(q, expired)
    requires Consistent(q, wait + ran + AddrSet(expired), ran) && ran !! AddrSet(expired)
    ensures Consistent(RanAll(q, expired, adds), wait + ran + AddrSet(expired), ran + AddrSet(expired))
    decreases expired
  {
    hide Consistent, AddedAll, Addable, AddrSet;
    var all := wait + ran + AddrSet(expired);
    AddrSetCons(expired);
    if expired == [] {
      assert all == wait + ran && ran + AddrSet(expired) == ran;
    } else {
      var a := expired[0].addr;
      CallKeeps(q, a, all, ran);
      var q1 := Called(q, a);
      AddedAllShape(q1, adds[0]);
      AddAllKeeps(q1, adds[0], all, ran + {a});
      var q2 := AddedAll(q1, adds[0]);
      assert all == wait + (ran + {a}) + AddrSet(expired[1..]);
      assert ran + AddrSet(expired) == ran + {a} + AddrSet(expired[1..]);
      RunAllKeeps(q2, expired[1..], adds[1..], wait, ran + {a});
    }
  }

  lemma ExpirationKeeps(q: Queue, addr: Address, when: int, out: set<Address>, ran: set<Address>)
    requires Consistent(q, out, ran) && addr in out && q.heap[addr].expiration <= when
    ensures Consistent(q.(heap := q.heap[addr := q.heap[addr].(expiration := when)]), out, ran)
  {
  }

  lemma FreeKeeps(q: Queue, addr: Address, now: int, out: set<Address>, ran: set<Address>)
    requires Consistent(q, out, ran) && addr in ran && !q.heap[addr].Repeat()
    ensures Consistent(Restarted(q, addr, now), out - {addr}, ran - {addr})
  {
  }

  lemma RestartKeeps(q: Queue, addr: Address, now: int, out: set<Address>, ran: set<Address>)
    requires Consistent(q, out, ran) && addr in ran && q.heap[addr].expiration <= now
    ensures Consistent(Restarted(q, addr, now), out - {addr}, ran - {addr})
    ensures forall a | a in q.heap && a != addr ::
      a in Restarted(q, addr, now).heap && Restarted(q, addr, now).heap[a] == q.heap[a]
    ensures var d := Restarted(q, addr, now);
      d.runs == q.runs && d.waiting == q.waiting && d.fired == q.fired && Asked(d) == Asked(q)
  {
    hide SetMatchesHeap, HistoryMatchesHeap;
    var t := q.heap[addr];
    if t.Repeat() {
      var when := AddTime(now, t.interval);
      ExpirationKeeps(q, addr, when, out, ran);
      EnqueueKeeps(q.(heap := q.heap[addr := t.(expiration := when)]), addr, out, ran);
    } else {
      FreeKeeps(q, addr, now, out, ran);
    }
  }

  predicate Due(q: Queue, expired: seq<Entry>, now: int) {
    forall i | 0 <= i < |expired| :: expired[i].addr in q.heap && q.heap[expired[i].addr].expiration <= now
  }

  lemma {:induction false} RestartAllKeeps(q: Queue, expired: seq<Entry>, now: int, wait: set<Address>)
    requires Live(q, expired) && wait !! AddrSet(expired)
    requires Consistent(q, wait + AddrSet(expired), AddrSet(expired)) && Due(q, expired, now)
    ensures var d := RestartedAll(q, expired, now);
      && Consistent(d, wait, {}) && d.runs == q.runs && d.waiting == q.waiting
      && d.fired == q.fired && Asked(d) == Asked(q)
    decreases expired
  {
    hide SetMatchesHeap, HistoryMatchesHeap, Restarted, AddrSet;
    AddrSetCons(expired);
    if expired == [] {
      assert wait + {} == wait;
    } else {
      var a := expired[0].addr;
      assert AddrSet(expired) - {a} == AddrSet(expired[1..]);
      assert wait + AddrSet(expired) - {a} == wait + AddrSet(expired[1..]);
      RestartKeeps(q, a, now, wait + AddrSet(expired), AddrSet(expired));
      RestartAllKeeps(Restarted(q, a, now), expired[1..], now, wait);
    }
  }

  lemma DistinctAddresses(q: Queue, wait: set<Address>, i: nat, j: nat)
    requires Consistent(q, wait, {}) && i < j < |q.timers|
    ensures q.timers[i].addr in q.heap && q.timers[i].addr != q.timers[j].addr
  {
  }

  lemma SplitMembers(ts: seq<Entry>, k: nat)
    requires k <= |ts|
    ensures forall e :: e in ts <==> e in ts[..k] || e in ts[k..]
  {
  }

  lemma EntryLive(q: Queue, wait: set<Address>, i: nat)
    requires Consistent(q, wait, {}) && i < |q.timers|
    ensures q.timers[i].addr in q.heap && q.timers[i].addr !in wait
  {
    assert q.timers[i] in q.timers;
  }

  lemma ExpiredApart(q: Queue, now: int, wait: set<Address>)
    requires Consistent(q, wait, {})
    ensures Live(q, ExpiredAt(q, now)) && wait !! AddrSet(ExpiredAt(q, now))
    ensures forall e, f | e in ExpiredAt(q, now) && f in TakenOut(q, now).timers :: e.addr != f.addr
  {
    hide Consistent, LowerBound;
    var k := LowerBound(q.timers, now);
    var gone, kept := q.timers[..k], q.timers[k..];
    forall i | 0 <= i < k
      ensures gone[i].addr in q.heap && gone[i].addr !in wait
    {
      EntryLive(q, wait, i);
    }
    forall i, j | 0 <= i < j < k
      ensures gone[i].addr != gone[j].addr
    {
      DistinctAddresses(q, wait, i, j);
    }
    forall i, j | 0 <= i < k && 0 <= j < |kept|
      ensures gone[i].addr != kept[j].addr
    {
      DistinctAddresses(q, wait, i, k + j);
    }
  }

  lemma TakeOutKeeps(q: Queue, now: int, wait: set<Address>)
    requires Consistent(q, wait, {})
    ensures Consistent(TakenOut(q, now), wait + AddrSet(ExpiredAt(q, now)), {})
    ensures Live(TakenOut(q, now), ExpiredAt(q, now))
  {
    hide LowerBound, HistoryMatchesHeap;
    ExpiredApart(q, now, wait);
    SplitMembers(q.timers, LowerBound(q.timers, now));
    var d, out := TakenOut(q, now), wait + AddrSet(ExpiredAt(q, now));
    assert Sorted(d.timers);
    forall e | e in ExpiredAt(q, now)
      ensures e.addr in q.heap
    {
      assert e in q.timers;
    }
    forall a | a in d.heap && a !in out
      ensures Entry(d.heap[a].expiration, a) in d.timers
    {
      assert Entry(d.heap[a].expiration, a) in q.timers;
    }
  }

  lemma RearmKeeps(q: Queue)
    requires Consistent(q, q.waiting, {})
    ensures Inv(Rearmed(q)) && Rearmed(q).runs == q.runs && Asked(Rearmed(q)) == Asked(q)
    ensures Rearmed(q).fired ==> q.fired
    ensures Rearmed(q).timers != [] ==> Rearmed(q).armed == Some(Rearmed(q).timers[0].when)
  {
    hide SetMatchesHeap, HistoryMatchesHeap;
  }

  lemma LiveExtends(q: Queue, d: Queue, expired: seq<Entry>)
    requires Live(q, expired) && Extends(d.heap, q.heap)
    ensures Live(d, expired)
  {
  }

  lemma DueExtends(q: Queue, d: Queue, now: int)
    requires Consistent(q, q.waiting, {}) && Extends(d.heap, q.heap)
    ensures Due(d, ExpiredAt(q, now), now)
  {
    hide HistoryMatchesHeap;
    forall i | 0 <= i < |ExpiredAt(q, now)|
      ensures ExpiredAt(q, now)[i].addr in q.heap && q.heap[ExpiredAt(q, now)[i].addr].expiration <= now
    {
      assert ExpiredAt(q, now)[i] == q.timers[i] && q.timers[i] in q.timers;
    }
  }

  function Handled(q: Queue, now: int, adds: seq<seq<Request>>): Queue
    requires Runnable(TakenOut(q, now), ExpiredAt(q, now), adds)
    requires Live(RanAll(TakenOut(q, now), ExpiredAt(q, now), adds), ExpiredAt(q, now))
  {
    Rearmed(RestartedAll(RanAll(TakenOut(q, now), ExpiredAt(q, now), adds), ExpiredAt(q, now), now))
  }

  /** One `handleRead`: the invariant holds again; exactly the expired timers ran, once each, in order of
      expiration; and the timerfd is armed for the earliest remaining timer. */
  lemma HandleKeeps(q: Queue, now: int, adds: seq<seq<Request>>)
    requires Inv(q) && Runnable(TakenOut(q, now), ExpiredAt(q, now), adds)
    ensures Live(RanAll(TakenOut(q, now), ExpiredAt(q, now), adds), ExpiredAt(q, now))
    ensures var d, expired := Handled(q, now, adds), ExpiredAt(q, now);
      && Inv(d)
      && !d.fired && (d.timers != [] ==> d.armed == Some(d.timers[0].when))
      && Live(q, expired) && d.runs == q.runs + Serials(q.heap, expired)
      && Asked(d) == Asked(q) + Flatten(adds)
  {
    var wait := q.waiting;
    ExpiredApart(q, now, wait);
    hide Consistent, RanAll, RestartedAll, Runnable, TakenOut, ExpiredAt, AddrSet, Serials, Rearmed, Live, Extends;
    hide ClockReady, Due, Asked, Flatten;
    var expired := ExpiredAt(q, now);
    TakeOutKeeps(q, now, wait);
    TakeOutShape(q, now);
    var q1 := TakenOut(q, now);
    assert wait + {} + AddrSet(expired) == wait + AddrSet(expired) && {} + AddrSet(expired) == AddrSet(expired);
    RunAllKeeps(q1, expired, adds, wait, {});
    RunAllRuns(q1, expired, adds);
    var q2 := RanAll(q1, expired, adds);
    LiveExtends(q1, q2, expired);
    DueExtends(q, q2, now);
    RestartAllKeeps(q2, expired, now, wait);
    RearmKeeps(RestartedAll(q2, expired, now));
  }

  /** The timers taken out are exactly those due: none is early and none is forgotten. */
  lemma ExpiredIffDue(q: Queue, now: int)
    requires Inv(q)
    ensures forall e | e in q.timers :: e in ExpiredAt(q, now) <==> e.when <= now
  {
    SplitMembers(q.timers, LowerBound(q.timers, now));
  }

  lemma {:induction false} RestartedUntouched(q: Queue, expired: seq<Entry>, now: int, a: Address)
    requires Live(q, expired) && a in q.heap && forall i | 0 <= i < |expired| :: expired[i].addr != a
    ensures a in RestartedAll(q, expired, now).heap && RestartedAll(q, expired, now).heap[a] == q.heap[a]
    decreases expired
  {
    if expired == [] {
    } else {
      RestartedUntouched(Restarted(q, expired[0].addr, now), expired[1..], now, a);
    }
  }

  /** After the handler a repeating timer is due one interval from now, and a one-shot timer is gone. */
  lemma {:induction false} DueAgain(q: Queue, expired: seq<Entry>, now: int, i: nat)
    requires Live(q, expired) && i < |expired|
    ensures var t, d := q.heap[expired[i].addr], RestartedAll(q, expired, now);
      if t.Repeat() then
        expired[i].addr in d.heap && d.heap[expired[i].addr] == t.(expiration := AddTime(now, t.interval))
      else expired[i].addr !in d.heap
    decreases expired
  {
    var q1 := Restarted(q, expired[0].addr, now);
    if i == 0 {
      if q.heap[expired[0].addr].Repeat() {
        RestartedUntouched(q1, expired[1..], now, expired[0].addr);
      } else {
        StaysGone(q1, expired[1..], now, expired[0].addr);
      }
    } else {
      DueAgain(q1, expired[1..], now, i - 1);
    }
  }

  lemma {:induction false} StaysGone(q: Queue, expired: seq<Entry>, now: int, a: Address)
    requires Live(q, expired) && a !in q.heap
    ensures a !in RestartedAll(q, expired, now).heap
    decreases expired
  {
    if expired == [] {
    } else {
      StaysGone(Restarted(q, expired[0].addr, now), expired[1..], now, a);
    }
  }

  lemma TakeOutShape(q: Queue, now: int)
    ensures var d := TakenOut(q, now);
      d.heap == q.heap && d.runs == q.runs && d.waiting == q.waiting && !d.fired && Asked(d) == Asked(q)
  {
  }

  // Runs.

  datatype Event =
    | AddEvent(request: Request)
    | PostEvent(request: Request)
    | LandEvent(addr: Address)
    | FireEvent
    | ReadEvent(now: int, adds: seq<seq<Request>>)

  /** `FireEvent` is the kernel's: an armed timerfd becomes readable and is armed no more. */
  ghost predicate Steps(q: Queue, e: Event, d: Queue) {
    match e
    case AddEvent(r) => r.addr !in q.heap && d == Added(q, r)
    case PostEvent(r) => r.addr !in q.heap && d == Posted(q, r)
    case LandEvent(a) => a in q.waiting && a in q.heap && d == Landed(q, a)
    case FireEvent => q.armed.Some? && d == q.(armed := None, fired := true)
    case ReadEvent(now, adds) =>
      && Runnable(TakenOut(q, now), ExpiredAt(q, now), adds)
      && Live(RanAll(TakenOut(q, now), ExpiredAt(q, now), adds), ExpiredAt(q, now))
      && d == Handled(q, now, adds)
  }

  const EMPTY := Queue([], map[], {}, None, false, [], [])

  ghost predicate IsRun(states: seq<Queue>, events: seq<Event>) {
    && |states| == |events| + 1 && states[0] == EMPTY
    && forall i | 0 <= i < |events| :: Steps(states[i], events[i], states[i + 1])
  }

  lemma StepKeeps(q: Queue, e: Event, d: Queue)
    requires Inv(q) && Steps(q, e, d)
    ensures Inv(d)
  {
    match e
    case AddEvent(r) =>
      AddKeeps(q, r, q.waiting, {});
    case PostEvent(r) =>
      PostKeeps(q, r);
    case LandEvent(a) =>
      LandKeeps(q, a);
    case FireEvent =>
    case ReadEvent(now, adds) =>
      HandleKeeps(q, now, adds);
  }

  lemma {:induction false} RunKeeps(states: seq<Queue>, events: seq<Event>, i: nat)
    requires IsRun(states, events) && i < |states|
    ensures Inv(states[i])
  {
    if i == 0 {
    } else {
      hide Inv, Steps;
      RunKeeps(states, events, i - 1);
      StepKeeps(states[i - 1], events[i - 1], states[i]);
    }
  }

  predicate QueuedOnce(q: Queue, addr: Address) {
    exists i :: 0 <= i < |q.timers| && q.timers[i].addr == addr
      && forall j | 0 <= j < |q.timers| && j != i :: q.timers[j].addr != addr
  }

  /** The fate of every timer ever added, between loop steps. */
  ghost predicate Accounted(q: Queue, s: nat)
    requires s < |q.lives|
  {
    var life := q.lives[s];
    if life.home.Some? && life.home.value in q.waiting then
      && (forall i | 0 <= i < |q.timers| :: q.timers[i].addr != life.home.value)
      && (!life.Repeat() ==> s !in q.runs)
    else if life.Repeat() then life.home.Some? && QueuedOnce(q, life.home.value)
    else if life.home.Some? then QueuedOnce(q, life.home.value) && s !in q.runs
    else multiset(q.runs)[s] == 1
  }

  lemma InvAccounts(q: Queue, s: nat)
    requires Inv(q) && s < |q.lives|
    ensures Accounted(q, s)
  {
    var life := q.lives[s];
    assert multiset(q.runs)[s] == 0 ==> s !in q.runs;
    if life.home.Some? && life.home.value !in q.waiting {
      var a := life.home.value;
      var e := Entry(q.heap[a].expiration, a);
      var i :| 0 <= i < |q.timers| && q.timers[i] == e;
      forall j | 0 <= j < |q.timers| && j != i
        ensures q.timers[j].addr != a
      {
        if i < j {
          DistinctAddresses(q, q.waiting, i, j);
        } else {
          DistinctAddresses(q, q.waiting, j, i);
        }
      }
    }
  }

  /** Timers are neither lost nor duplicated, over every run: a timer that another thread added and the
      loop did not insert yet is not queued; then a repeating timer is queued exactly once, and a one-shot
      timer is queued once and never ran, or ran exactly once and is freed; and whenever timers
      wait, the timerfd is armed for the earliest of them or has fired. */
  lemma NeitherLostNorDuplicated(states: seq<Queue>, events: seq<Event>, i: nat)
    requires IsRun(states, events) && i < |states|
    ensures ClockReady(states[i]) && Sorted(states[i].timers)
    ensures forall s | 0 <= s < |states[i].lives| :: Accounted(states[i], s)
  {
    RunKeeps(states, events, i);
    forall s | 0 <= s < |states[i].lives|
      ensures Accounted(states[i], s)
    {
      InvAccounts(states[i], s);
    }
  }

  /** The requests an event makes, in the order of the allocations. */
  function Requests(e: Event): seq<Request> {
    match e
    case AddEvent(r) => [r]
    case PostEvent(r) => [r]
    case ReadEvent(_, adds) => Flatten(adds)
    case _ => []
  }

  function AllRequests(events: seq<Event>): seq<Request> {
    if events == [] then [] else AllRequests(events[..|events| - 1]) + Requests(events[|events| - 1])
  }

  lemma StepAsks(q: Queue, e: Event, d: Queue)
    requires Inv(q) && Steps(q, e, d)
    ensures Asked(d) == Asked(q) + Requests(e)
  {
    match e
    case AddEvent(r) => AddedShape(q, r);
    case PostEvent(r) =>
    case LandEvent(_) =>
    case FireEvent =>
    case ReadEvent(now, adds) => HandleKeeps(q, now, adds);
  }

  /** In every run the allocations are what was asked for, call by call, from any thread and any callback. Hence
      a timer of `NeitherLostNorDuplicated` repeats exactly if its request had a positive interval. */
  lemma {:induction false} EveryRequestKept(states: seq<Queue>, events: seq<Event>, i: nat)
    requires IsRun(states, events) && i < |states|
    ensures Asked(states[i]) == AllRequests(events[..i])
  {
    hide Asked;
    if i == 0 {
      assert Asked(EMPTY) == [] by {
        NothingAsked();
      }
    } else {
      EveryRequestKept(states, events, i - 1);
      RunKeeps(states, events, i - 1);
      hide Inv, Steps;
      StepAsks(states[i - 1], events[i - 1], states[i]);
      assert events[..i][..i - 1] == events[..i - 1];
    }
  }

  lemma NothingAsked()
    ensures Asked(EMPTY) == []
  {
  }

  lemma {:induction false} SerialsNotEarly(q: Queue, es: seq<Entry>, now: int)
    requires Consistent(q, q.waiting, {}) && Due(q, es, now)
    ensures forall s | s in Serials(q.heap, es) :: s < |q.lives| && q.lives[s].asked.when <= now
  {
    if es == [] {
    } else {
      SerialsNotEarly(q, es[1..], now);
    }
  }

  /** In every run no timer is run before the time its request named. */
  lemma NeverEarly(states: seq<Queue>, events: seq<Event>, i: nat)
    requires IsRun(states, events) && i < |events| && events[i].ReadEvent?
    ensures var q, d := states[i], states[i + 1];
      && q.runs <= d.runs
      && forall s | s in d.runs[|q.runs|..] :: s < |q.lives| && q.lives[s].asked.when <= events[i].now
  {
    RunKeeps(states, events, i);
    var q, now, adds := states[i], events[i].now, events[i].adds;
    assert Steps(q, events[i], states[i + 1]);
    HandleKeeps(q, now, adds);
    DueExtends(q, q, now);
    SerialsNotEarly(q, ExpiredAt(q, now), now);
    assert states[i + 1].runs[|q.runs|..] == Serials(q.heap, ExpiredAt(q, now));
  }

  // Arming.

  datatype TimeSpec = TimeSpec(sec: int, nsec: int)

  function HowMuchTimeFromNow(when: int, now: int): TimeSpec {
    var microseconds := if when - now < 100 then 100 else when - now;
    TimeSpec(microseconds / 1000000, microseconds % 1000000 * 1000)
  }

  /** Arming never disarms (a zero `it_value` would), the nanoseconds are in range, and the delay is the
      time left, raised to 100 microseconds. */
  lemma ArmingArms(when: int, now: int)
    ensures var ts := HowMuchTimeFromNow(when, now);
      && ts != TimeSpec(0, 0) && 0 <= ts.sec && 0 <= ts.nsec <= 999999000
      && ts.sec * 1000000000 + ts.nsec == 1000 * (if 100 <= when - now then when - now else 100)
  {
  }

  /** A timer that becomes the earliest one, added or landed, sets the clock anew, which forgets an expiration not
      yet read; any other leaves the clock alone. */
  lemma EarliestRearms(q: Queue, r: Request, timer: Address)
    ensures var d := Added(q, r);
      && (q.timers == [] || r.when < q.timers[0].when ==> d.armed == Some(r.when) && !d.fired)
      && (q.timers != [] && q.timers[0].when <= r.when ==> d.armed == q.armed && d.fired == q.fired)
    ensures timer in q.heap ==>
      var d, when := Landed(q, timer), q.heap[timer].expiration;
      && (q.timers == [] || when < q.timers[0].when ==> d.armed == Some(when) && !d.fired)
      && (q.timers != [] && q.timers[0].when <= when ==> d.armed == q.armed && d.fired == q.fired)
  {
  }

  // The class.

  class TimerQueue {
    var timers: seq<Entry>
    var heap: map<Address, Timer>
    var waiting: set<Address>
    var armed: Option<int>
    var fired: bool
    var lives: seq<Life>
    var runs: seq<nat>

    ghost function View(): Queue
      reads this
    {
      Queue(timers, heap, waiting, armed, fired, lives, runs)
    }

    constructor ()
      ensures View() == EMPTY
    {
      timers, heap, waiting, armed, fired, lives, runs := [], map[], {}, None, false, [], [];
    }

    method ResetTimerfd(expiration: int)
      modifies this
      ensures View() == Armed(old(View()), expiration)
    {
      armed, fired := Some(expiration), false;
    }

    method Insert(timer: Address) returns (earliestChanged: bool)
      requires timer in heap
      modifies `timers
      ensures View() == Enqueued(old(View()), timer)
      ensures earliestChanged == EarliestChanged(old(View()), heap[timer].expiration)
    {
      var when := heap[timer].expiration;
      earliestChanged := timers == [] || when < timers[0].when;
      timers := Inserted(timers, Entry(when, timer));
    }

    method NewTimer(r: Request)
      modifies `heap, `lives
      ensures View() == Allocated(old(View()), r)
    {
      heap := heap[r.addr := Timer(|lives|, r.when, r.interval)];
      lives := lives + [Life(r, Some(r.addr))];
    }

    /** `addTimer` on another thread: the lambda waits in the loop's queue. */
    method PostTimer(r: Request)
      requires Inv(View()) && r.addr !in heap
      modifies this
      ensures Inv(View()) && View() == Posted(old(View()), r)
      ensures r.addr in heap && heap[r.addr] == Timer(|old(lives)|, r.when, r.interval)
    {
      PostKeeps(View(), r);
      hide Inv;
      NewTimer(r);
      waiting := waiting + {r.addr};
    }

    /** The lambda, later, on the loop thread. */
    method LandTimer(timer: Address)
      requires Inv(View()) && timer in waiting
      modifies this
      ensures Inv(View()) && timer in old(heap) && View() == Landed(old(View()), timer)
    {
      LandKeeps(View(), timer);
      var earliestChanged := Insert(timer);
      waiting := waiting - {timer};
      if earliestChanged {
        ResetTimerfd(heap[timer].expiration);
      }
    }

    /** `addTimer` on the loop thread. */
    method AddTimer(r: Request)
      requires r.addr !in heap
      modifies this
      ensures View() == Added(old(View()), r)
      ensures r.addr in heap && heap[r.addr] == Timer(|old(lives)|, r.when, r.interval)
    {
      NewTimer(r);
      var earliestChanged := Insert(r.addr);
      if earliestChanged {
        ResetTimerfd(heap[r.addr].expiration);
      }
    }

    /** `run` of one timer, whose callback adds the timers `rs`. */
    method Run(timer: Address, rs: seq<Request>)
      requires timer in heap && Addable(Called(View(), timer), rs)
      modifies this
      ensures View() == AddedAll(Called(old(View()), timer), rs)
    {
      runs := runs + [heap[timer].serial];
      ghost var start := View();
      for k := 0 to |rs|
        invariant Addable(View(), rs[k..])
        invariant AddedAll(View(), rs[k..]) == AddedAll(start, rs)
      {
        assert rs[k..][0] == rs[k] && rs[k..][1..] == rs[k + 1..];
        AddTimer(rs[k]);
      }
    }

    method GetExpired(now: int) returns (expired: seq<Entry>)
      modifies `timers
      ensures expired == ExpiredAt(old(View()), now)
      ensures View() == old(View()).(timers := TakenOut(old(View()), now).timers)
    {
      var it := LowerBound(timers, now);
      expired := timers[..it];
      timers := timers[it..];
    }

    /** `restart` and `insert`, or `delete`. */
    method RestartOrFree(timer: Address, now: int)
      requires timer in heap
      modifies this
      ensures View() == Restarted(old(View()), timer, now)
    {
      var t := heap[timer];
      if t.Repeat() {
        heap := heap[timer := t.(expiration := AddTime(now, t.interval))];
        var _ := Insert(timer);
      } else {
        heap := heap - {timer};
        if t.serial < |lives| {
          lives := lives[t.serial := lives[t.serial].(home := None)];
        }
      }
    }

    method Reset(expired: seq<Entry>, now: int)
      requires Live(View(), expired)
      modifies this
      ensures View() == Rearmed(RestartedAll(old(View()), expired, now))
    {
      ghost var start := View();
      for k := 0 to |expired|
        invariant Live(View(), expired[k..])
        invariant RestartedAll(View(), expired[k..], now) == RestartedAll(start, expired, now)
      {
        assert expired[k..][0] == expired[k] && expired[k..][1..] == expired[k + 1..];
        RestartOrFree(expired[k].addr, now);
      }
      if timers != [] {
        ResetTimerfd(timers[0].when);
      }
    }

    method HandleRead(now: int, adds: seq<seq<Request>>)
      requires Inv(View()) && Runnable(TakenOut(View(), now), ExpiredAt(View(), now), adds)
      modifies this
      ensures Steps(old(View()), ReadEvent(now, adds), View()) && Inv(View())
    {
      HandleKeeps(View(), now, adds);
      ghost var before := View();
      fired := false;
      var expired := GetExpired(now);
      RunExpired(expired, adds);
      Reset(expired, now);
    }

    method RunExpired(expired: seq<Entry>, adds: seq<seq<Request>>)
      requires Runnable(View(), expired, adds)
      modifies this
      ensures View() == RanAll(old(View()), expired, adds)
    {
      ghost var start := View();
      for k := 0 to |expired|
        invariant Runnable(View(), expired[k..], adds[k..])
        invariant RanAll(View(), expired[k..], adds[k..]) == RanAll(start, expired, adds)
      {
        assert expired[k..][0] == expired[k] && expired[k..][1..] == expired[k + 1..];
        assert adds[k..][0] == adds[k] && adds[k..][1..] == adds[k + 1..];
        Run(expired[k].addr, adds[k]);
      }
    }
  }
}
