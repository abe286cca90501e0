/** Friendship: the `friends` table, the pending requests, and the Redis sets used for permission checks. */
module Friends {
  import opened Common
  import opened Redis

  const SYSTEM_ID: UserId := 1

  /** Table rows `(user_id, friend_id)`, requests `(from, to)`, and `friends:u` for each user `u`. */
  datatype Side = Side(rows: set<(UserId, UserId)>, requests: set<(UserId, UserId)>, cache: Cache)

  /** The foreign keys and the unique key decide; the handlers ignore a failed insert. */
  function InsertRow(users: set<UserId>, s: Side, u: UserId, f: UserId): Side {
    if u in users && f in users && (u, f) !in s.rows then s.(rows := s.rows + {(u, f)}) else s
  }

  function CacheAdd(s: Side, u: UserId, f: UserId): Side {
    s.(cache := Sadd(s.cache, u, f))
  }

  function CacheRemove(s: Side, u: UserId, f: UserId): Side {
    s.(cache := Srem(s.cache, u, f))
  }

  /** The system account befriends a new user: rows first, then the cache. */
  function Welcomed(users: set<UserId>, s: Side, u: UserId): Side {
    var s1 := InsertRow(users, InsertRow(users, s, u, SYSTEM_ID), SYSTEM_ID, u);
    CacheAdd(CacheAdd(s1, u, SYSTEM_ID), SYSTEM_ID, u)
  }

  /** The number answered to the client: 1 no such user, 2 oneself, 3 already friends, 4 already asked. */
  function AddErrno(users: set<UserId>, s: Side, from: UserId, to: UserId): int {
    if to !in users then 1
    else if to == from then 2
    else if to in Members(s.cache, from) then 3
    else if (from, to) in s.requests then 4
    else 0
  }

  function Asked(users: set<UserId>, s: Side, from: UserId, to: UserId): Side {
    if AddErrno(users, s, from, to) == 0 then s.(requests := s.requests + {(from, to)}) else s
  }

  function Befriended(users: set<UserId>, s: Side, from: UserId, to: UserId): Side {
    var s1 := CacheAdd(CacheAdd(s, from, to), to, from);
    InsertRow(users, InsertRow(users, s1, from, to), to, from)
  }

  function Answered(users: set<UserId>, s: Side, from: UserId, to: UserId, response: Response): Side {
    var s1 := if response == Accept then Befriended(users, s, from, to) else s;
    s1.(requests := s1.requests - {(from, to)})
  }

  function Unfriended(s: Side, from: UserId, to: UserId): Side {
    var s1 := CacheRemove(CacheRemove(s, from, to), to, from);
    s1.(rows := s1.rows - {(from, to)} - {(to, from)})
  }

  /** The friendship part of destroying the account `u`; `users` are the rows its loop reads. */
  function Erased(users: set<UserId>, s: Side, u: UserId): Side {
    Side((set p | p in s.rows && p.0 != u && p.1 != u),
         (set p | p in s.requests && p.0 != u && p.1 != u),
         SremAll(Del(s.cache, u), users, u))
  }

  // Invariants.

  ghost predicate RowsOk(users: set<UserId>, s: Side) {
    forall u: UserId, f: UserId :: (u, f) in s.rows ==> u in users && f in users && u != f && (f, u) in s.rows
  }

  ghost predicate RequestsOk(users: set<UserId>, s: Side) {
    forall u: UserId, f: UserId :: (u, f) in s.requests ==> u in users && f in users && u != f
  }

  /** Each Redis set is the set read from the table. */
  ghost predicate Agrees(s: Side) {
    forall u: UserId, f: UserId :: f in Members(s.cache, u) <==> (u, f) in s.rows
  }

  ghost predicate Inv(users: set<UserId>, s: Side) {
    RowsOk(users, s) && RequestsOk(users, s) && Agrees(s)
  }

  lemma WelcomeKeeps(users: set<UserId>, s: Side, u: UserId)
    requires Inv(users, s) && u !in users && SYSTEM_ID in users
    ensures Inv(users + {u}, Welcomed(users + {u}, s, u))
  {
    assert forall f: UserId :: (u, f) !in s.rows && (f, u) !in s.rows;
  }

  lemma AskKeeps(users: set<UserId>, s: Side, from: UserId, to: UserId)
    requires Inv(users, s) && from in users
    ensures Inv(users, Asked(users, s, from, to))
  {
  }

  lemma BefriendKeeps(users: set<UserId>, s: Side, from: UserId, to: UserId)
    requires Inv(users, s) && from in users && to in users && from != to
    ensures Inv(users, Befriended(users, s, from, to))
  {
    assert (from, to) in s.rows <==> (to, from) in s.rows;
  }

  lemma AnswerKeeps(users: set<UserId>, s: Side, from: UserId, to: UserId, response: Response)
    requires Inv(users, s) && (response == Accept ==> (from, to) in s.requests)
    ensures Inv(users, Answered(users, s, from, to, response))
  {
    if response == Accept {
      BefriendKeeps(users, s, from, to);
    }
  }

  lemma UnfriendKeeps(users: set<UserId>, s: Side, from: UserId, to: UserId)
    requires Inv(users, s)
    ensures Inv(users, Unfriended(s, from, to))
  {
  }

  lemma EraseKeeps(users: set<UserId>, left: set<UserId>, s: Side, u: UserId)
    requires Inv(users, s) && users - {u} <= left
    ensures Inv(left, Erased(users, s, u))
  {
    var d := Erased(users, s, u);
    forall v: UserId, f: UserId
      ensures f in Members(d.cache, v) <==> (v, f) in d.rows
    {
      assert f in Members(s.cache, v) <==> (v, f) in s.rows;
    }
  }

  /** An accept adds exactly the two directions, and ending the friendship takes exactly these away again. */
  lemma UnfriendUndoes(users: set<UserId>, s: Side, from: UserId, to: UserId)
    requires Inv(users, s) && (from, to) in s.requests && (from, to) !in s.rows
    ensures var d := Answered(users, s, from, to, Accept);
      && d.rows == s.rows + {(from, to), (to, from)} && (from, to) !in d.requests
      && AddErrno(users, d, from, to) == AddErrno(users, d, to, from) == 3
      && Unfriended(d, from, to).rows == s.rows
      && forall u: UserId :: Members(Unfriended(d, from, to).cache, u) == Members(s.cache, u)
  {
    assert (to, from) !in s.rows;
    var d := Unfriended(Answered(users, s, from, to, Accept), from, to);
    forall u: UserId
      ensures Members(d.cache, u) == Members(s.cache, u)
    {
      assert to in Members(s.cache, from) <==> (from, to) in s.rows;
      assert from in Members(s.cache, to) <==> (to, from) in s.rows;
    }
  }

  /** An accept that nobody checks keeps cache and table in agreement exactly when both users exist; only then
      the foreign keys let the rows in. */
  lemma AcceptAgreesIff(users: set<UserId>, s: Side, from: UserId, to: UserId)
    requires Inv(users, s)
    ensures Agrees(Answered(users, s, from, to, Accept)) <==> from in users && to in users
    ensures var d := Answered(users, s, from, to, Accept);
      && ((from, to) in d.rows <==> from in users && to in users)
      && ((to, from) in d.rows <==> from in users && to in users)
  {
  }

  /** And it keeps friendship symmetric and irreflexive exactly when, besides, nobody befriends himself. */
  lemma AcceptKeepsIff(users: set<UserId>, s: Side, from: UserId, to: UserId)
    requires Inv(users, s)
    ensures Inv(users, Answered(users, s, from, to, Accept)) <==> from in users && to in users && from != to
  {
    AcceptAgreesIff(users, s, from, to);
    var d := Answered(users, s, from, to, Accept);
    if from in users && to in users {
      if from == to {
        assert (from, to) in d.rows;
      } else {
        BefriendKeeps(users, s, from, to);
      }
    }
  }

  /** Registration keeps the agreement exactly when the system account still exists. */
  lemma WelcomeAgreesIff(users: set<UserId>, s: Side, u: UserId)
    requires Inv(users, s) && u !in users
    ensures u != SYSTEM_ID ==> (Agrees(Welcomed(users + {u}, s, u)) <==> SYSTEM_ID in users)
  {
  }
}
