/** Chat records are pushed onto a Redis list and moved to a table in batches by one periodic flush. */
module WriteBehind {

  /** `lrange 0 10000` includes both ends. */
  const BATCH: nat := 10001

  /** Where the flush is: it holds a batch it read, or stored `count` records it has not trimmed yet. */
  datatype Flush<T> = Idle | Holding(batch: seq<T>) | Stored(count: nat)

  /** `list` is the Redis list, `table` the rows, `history` every record ever pushed. */
  datatype Store<T> = Store(list: seq<T>, table: seq<T>, history: seq<T>, flush: Flush<T>)

  datatype Step<T> = Push(record: T) | Lrange | InsertList(ok: bool) | Ltrim

  predicate Enabled<T>(s: Store<T>, t: Step<T>) {
    match t
    case Push(_) => true
    case Lrange => s.flush.Idle?
    case InsertList(ok) => s.flush.Holding? && (s.flush.batch == [] ==> ok)
    case Ltrim => s.flush.Stored?
  }

  function FirstBatch<T>(list: seq<T>): seq<T> {
    if |list| <= BATCH then list else list[..BATCH]
  }

  /** The insert stores the whole batch or nothing; a failed one skips the trim. */
  function Next<T>(s: Store<T>, t: Step<T>): Store<T>
    requires Enabled(s, t)
  {
    match t
    case Push(r) => s.(list := s.list + [r], history := s.history + [r])
    case Lrange => s.(flush := Holding(FirstBatch(s.list)))
    case InsertList(ok) =>
      if ok then s.(table := s.table + s.flush.batch, flush := Stored(|s.flush.batch|)) else s.(flush := Idle)
    case Ltrim => s.(list := if s.flush.count <= |s.list| then s.list[s.flush.count..] else [], flush := Idle)
  }

  ghost predicate IsRun<T>(states: seq<Store<T>>, steps: seq<Step<T>>) {
    && |states| == |steps| + 1 && states[0] == Store([], [], [], Idle)
    && forall i | 0 <= i < |steps| :: Enabled(states[i], steps[i]) && states[i + 1] == Next(states[i], steps[i])
  }

  /** The part of the list whose records are not in the table yet. */
  function Unstored<T>(s: Store<T>): seq<T> {
    if s.flush.Stored? && s.flush.count <= |s.list| then s.list[s.flush.count..] else s.list
  }

  ghost predicate Inv<T>(s: Store<T>) {
    && s.table + Unstored(s) == s.history
    && (s.flush.Holding? ==> s.flush.batch <= s.list && |s.flush.batch| <= BATCH)
    && (s.flush.Stored? ==> s.flush.count <= |s.list|)
  }

  lemma NextKeeps<T>(s: Store<T>, t: Step<T>)
    requires Inv(s) && Enabled(s, t)
    ensures Inv(Next(s, t))
  {
    match t
    case Push(r) =>
      assert Unstored(Next(s, t)) == Unstored(s) + [r];
      assert s.table + (Unstored(s) + [r]) == s.history + [r];
    case Lrange =>
    case InsertList(ok) =>
      if ok {
        var b := s.flush.batch;
        assert s.list == b + s.list[|b|..];
        assert (s.table + b) + s.list[|b|..] == s.table + s.list;
      }
    case Ltrim =>
  }

  lemma {:induction false} RunKeeps<T>(states: seq<Store<T>>, steps: seq<Step<T>>, i: nat)
    requires IsRun(states, steps) && i < |states|
    ensures Inv(states[i])
  {
    if i == 0 {
    } else {
      RunKeeps(states, steps, i - 1);
      NextKeeps(states[i - 1], steps[i - 1]);
    }
  }

  /** Nothing is lost, duplicated or reordered: whatever is pushed while a flush is under way, and whether
      inserts succeed or fail, rows followed by the list's unstored part are the push history. */
  lemma NothingLost<T>(states: seq<Store<T>>, steps: seq<Step<T>>, i: nat)
    requires IsRun(states, steps) && i < |states|
    ensures states[i].table + Unstored(states[i]) == states[i].history
    ensures states[i].flush.Idle? ==> states[i].table + states[i].list == states[i].history
  {
    RunKeeps(states, steps, i);
  }

  /** One undisturbed successful flush moves the oldest records, at most one batch, and no others. */
  lemma FlushMovesOldest<T>(s: Store<T>)
    requires Inv(s) && s.flush.Idle?
    ensures var s1 := Next(s, Lrange);
      && Enabled(s1, InsertList(true))
      && var s2 := Next(s1, InsertList(true));
      && Enabled(s2, Ltrim)
      && var s3 := Next(s2, Ltrim);
      && s3.flush.Idle? && |s3.list| == (if |s.list| <= BATCH then 0 else |s.list| - BATCH)
      && s3.table + s3.list == s.table + s.list
  {
  }

  /** A flush whose insert fails changes nothing, and the next one starts afresh. */
  lemma FailedFlushChangesNothing<T>(s: Store<T>)
    requires s.flush.Idle? && s.list != []
    ensures var s1 := Next(s, Lrange);
      Enabled(s1, InsertList(false)) && Next(s1, InsertList(false)) == s
  {
  }

  /** One record that the database refuses stops everything behind it: as long as batches that contain it
      fail, no flush stores a row again. */
  lemma {:induction false} RefusedRecordBlocks<T(!new)>(states: seq<Store<T>>, steps: seq<Step<T>>, bad: T, i: nat,
                                                        j: nat)
    requires IsRun(states, steps) && i <= j < |states|
    requires states[i].flush.Idle? && bad in FirstBatch(states[i].list)
    requires forall k | i <= k < j ::
      steps[k].InsertList? && states[k].flush.Holding? && bad in states[k].flush.batch ==> !steps[k].ok
    ensures states[j].table == states[i].table && states[i].list <= states[j].list
    ensures !states[j].flush.Stored? && (states[j].flush.Holding? ==> bad in states[j].flush.batch)
  {
    if i == j {
    } else {
      RefusedRecordBlocks(states, steps, bad, i, j - 1);
      var s, t := states[j - 1], steps[j - 1];
      assert Enabled(s, t) && states[j] == Next(s, t);
      if t.Lrange? {
        BatchKeeps(states[i].list, s.list, bad);
      }
    }
  }

  lemma BatchKeeps<T>(old_: seq<T>, now: seq<T>, x: T)
    requires old_ <= now && x in FirstBatch(old_)
    ensures x in FirstBatch(now)
  {
  }

  // The class.

  /** One Redis list and the table it is flushed to. */
  class Archive<T> {
    var list: seq<T>
    var table: seq<T>

    constructor ()
      ensures list == table == []
    {
      list, table := [], [];
    }

    method Rpush(records: seq<T>)
      modifies `list
      ensures list == old(list) + records
    {
      list := list + records;
    }

    method Lrange() returns (messages: seq<T>)
      ensures messages == FirstBatch(list)
    {
      messages := if |list| <= BATCH then list else list[..BATCH];
    }

    method InsertList(rows: seq<T>, ok: bool)
      modifies `table
      ensures table == old(table) + if ok then rows else []
    {
      if ok {
        table := table + rows;
      }
    }

    method Ltrim(count: nat)
      requires count <= |list|
      modifies `list
      ensures list == old(list)[count..]
    {
      list := list[count..];
    }

    /** Other threads push `early` while the batch is held and `late` before it is trimmed. */
    method Flush(early: seq<T>, late: seq<T>, ok: bool)
      requires list == [] ==> ok
      modifies this
      ensures table == old(table) + if ok then FirstBatch(old(list)) else []
      ensures list == old(list)[if ok then |FirstBatch(old(list))| else 0..] + early + late
      ensures table + list == old(table) + old(list) + early + late
    {
      ghost var before := list;
      var messages := Lrange();
      var dataList: seq<T> := [];
      for i := 0 to |messages|
        invariant dataList == messages[..i]
      {
        dataList := dataList + [messages[i]];
      }
      Rpush(early);
      InsertList(dataList, ok);
      Rpush(late);
      if ok {
        Ltrim(|messages|);
      }
      assert before == FirstBatch(before) + before[|FirstBatch(before)|..];
      assert dataList == messages;
      FlushConserves(old(table), before, early, late, if ok then |messages| else 0);
    }
  }

  lemma FlushConserves<T>(table: seq<T>, list: seq<T>, early: seq<T>, late: seq<T>, k: nat)
    requires k <= |list|
    ensures (list + early + late)[k..] == list[k..] + early + late
    ensures (table + list[..k]) + (list[k..] + early + late) == table + list + early + late
  {
  }

  /** What other threads push onto one list: before its `lrange`, while the batch is held, between insert and
      trim, and after the trim. */
  datatype Arrivals<T> = Arrivals(before: seq<T>, early: seq<T>, late: seq<T>, after: seq<T>) {
    function All(): seq<T> { before + early + late + after }
  }

  /** `insertFromRedis`: private messages first, then group messages, with pushes anywhere onto both lists. */
  method InsertFromRedis<T>(messages: Archive<T>, groupMessages: Archive<T>, m: Arrivals<T>, g: Arrivals<T>,
                            ok: (bool, bool))
    requires messages != groupMessages
    requires messages.list + m.before == [] ==> ok.0
    requires groupMessages.list + g.before == [] ==> ok.1
    modifies messages, groupMessages
    ensures messages.table + messages.list == old(messages.table + messages.list) + m.All()
    ensures groupMessages.table + groupMessages.list == old(groupMessages.table + groupMessages.list) + g.All()
    ensures messages.table == old(messages.table) + if ok.0 then FirstBatch(old(messages.list) + m.before) else []
    ensures groupMessages.table ==
      old(groupMessages.table) + if ok.1 then FirstBatch(old(groupMessages.list) + g.before) else []
  {
    FlushOne(messages, m, ok.0);
    FlushOne(groupMessages, g, ok.1);
  }

  /** One of the two halves, with all pushes onto its list. */
  method FlushOne<T>(a: Archive<T>, p: Arrivals<T>, ok: bool)
    requires a.list + p.before == [] ==> ok
    modifies a
    ensures a.table + a.list == old(a.table + a.list) + p.All()
    ensures a.table == old(a.table) + if ok then FirstBatch(old(a.list) + p.before) else []
  {
    hide FirstBatch;
    a.Rpush(p.before);
    ghost var before := a.table + a.list;
    a.Flush(p.early, p.late, ok);
    ghost var list := a.list;
    a.Rpush(p.after);
    assert a.table + (list + p.after) == before + p.early + p.late + p.after;
    assert before == old(a.table + a.list) + p.before;
    assert old(a.table + a.list) + p.before + p.early + p.late + p.after == old(a.table + a.list) + p.All();
  }
}
