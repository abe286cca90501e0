/** Groups: the `groups`, `group_members` and `group_requests` tables, and the Redis member sets. */
module Groups {
  import opened Common
  import opened Redis

  datatype Role = Member | Admin | Owner

  datatype Row = Row(group: GroupId, user: UserId, role: Role)

  datatype Request = Request(from: UserId, to: UserId, group: GroupId)

  /** `groups` maps a group to its creator; member rows are keyed by their own id, since nothing in the
      schema makes `(group_id, user_id)` unique. */
  datatype Side = Side(
    groups: map<GroupId, UserId>,
    nextGroup: GroupId,
    rows: map<nat, Row>,
    nextRow: nat,
    requests: set<Request>,
    cache: Cache)

  predicate RowOf(s: Side, id: nat, g: GroupId, u: UserId) {
    id in s.rows && s.rows[id].group == g && s.rows[id].user == u
  }

  ghost predicate HasRow(s: Side, g: GroupId, u: UserId) {
    exists id :: RowOf(s, id, g, u)
  }

  /** The role in `result[0]`; which of several rows comes first is up to the database. */
  ghost function RoleOf(s: Side, g: GroupId, u: UserId): Role
    requires HasRow(s, g, u)
  {
    var id :| RowOf(s, id, g, u);
    s.rows[id].role
  }

  function InsertRow(users: set<UserId>, s: Side, row: Row): Side {
    if row.group in s.groups && row.user in users
    then s.(rows := s.rows[s.nextRow := row], nextRow := s.nextRow + 1)
    else s
  }

  function DeleteRows(s: Side, g: GroupId, u: UserId): Side {
    s.(rows := map id | id in s.rows && !(s.rows[id].group == g && s.rows[id].user == u) :: s.rows[id])
  }

  function SetRole(s: Side, g: GroupId, u: UserId, role: Role): Side {
    s.(rows := map id | id in s.rows ::
         if s.rows[id].group == g && s.rows[id].user == u then s.rows[id].(role := role) else s.rows[id])
  }

  predicate Requested(s: Side, g: GroupId) {
    exists r :: r in s.requests && r.group == g
  }

  /** A `groups` row that nothing refers to yet. */
  function Founded(s: Side, creator: UserId): Side {
    s.(groups := s.groups[s.nextGroup := creator], nextGroup := s.nextGroup + 1)
  }

  function Created(users: set<UserId>, s: Side, creator: UserId): Side {
    var s1 := Founded(s, creator).(cache := Sadd(s.cache, s.nextGroup, creator));
    InsertRow(users, s1, Row(s.nextGroup, creator, Owner))
  }

  /** 1 no such group, 2 already a member, 3 already asked. */
  function JoinErrno(s: Side, from: UserId, g: GroupId): int {
    if g !in s.groups then 1
    else if from in Members(s.cache, g) then 2
    else if exists r :: r in s.requests && r.from == from && r.group == g then 3
    else 0
  }

  function Admins(s: Side, g: GroupId): set<UserId> {
    set id | id in s.rows && s.rows[id].group == g && s.rows[id].role != Member :: s.rows[id].user
  }

  function Joining(s: Side, from: UserId, g: GroupId): Side {
    if JoinErrno(s, from, g) != 0 then s
    else s.(requests := s.requests + set a | a in Admins(s, g) :: Request(from, a, g))
  }

  function Admitted(users: set<UserId>, s: Side, from: UserId, g: GroupId): Side {
    InsertRow(users, s.(cache := Sadd(s.cache, g, from)), Row(g, from, Member))
  }

  ghost function Answered(users: set<UserId>, s: Side, user: UserId, from: UserId, g: GroupId, response: Response): Side
  {
    if !HasRow(s, g, user) || RoleOf(s, g, user) == Member then s
    else
      var s1 := if response == Accept then Admitted(users, s, from, g) else s;
      s1.(requests := set r | r in s1.requests && !(r.from == from && r.group == g))
  }

  function Left(s: Side, user: UserId, g: GroupId): Side {
    DeleteRows(s.(cache := Srem(s.cache, g, user)), g, user)
  }

  function DeleteAllRows(s: Side, g: GroupId): Side {
    s.(rows := map id | id in s.rows && s.rows[id].group != g :: s.rows[id])
  }

  function DeleteGroup(s: Side, g: GroupId): Side {
    if Requested(s, g) then s else s.(groups := s.groups - {g})
  }

  /** The foreign key of `group_requests` can refuse to delete the `groups` row. */
  function Dissolved(s: Side, gs: set<GroupId>): Side {
    s.(cache := s.cache - gs,
       rows := (map id | id in s.rows && s.rows[id].group !in gs :: s.rows[id]),
       groups := (map g | g in s.groups && (g !in gs || Requested(s, g)) :: s.groups[g]))
  }

  ghost function Exited(s: Side, user: UserId, g: GroupId): Side
    requires HasRow(s, g, user)
  {
    if RoleOf(s, g, user) == Owner then Dissolved(s, {g}) else Left(s, user, g)
  }

  ghost function Kicked(s: Side, user: UserId, kick: UserId, g: GroupId): Side
    requires kick != user && HasRow(s, g, user) ==> HasRow(s, g, kick)
  {
    if kick == user || !HasRow(s, g, user) then s
    else
      var role, kickRole := RoleOf(s, g, user), RoleOf(s, g, kick);
      if (role != Member && kickRole == Member) || role == Owner then Left(s, kick, g) else s
  }

  ghost function Promoted(s: Side, user: UserId, to: UserId, g: GroupId): Side
    requires HasRow(s, g, to)
  {
    if g in s.groups && s.groups[g] == user && to != user && RoleOf(s, g, to) == Member
    then SetRole(s, g, to, Admin)
    else s
  }

  ghost function Demoted(s: Side, user: UserId, to: UserId, g: GroupId): Side
    requires HasRow(s, g, to)
  {
    if g in s.groups && s.groups[g] == user && to != user && RoleOf(s, g, to) == Admin
    then SetRole(s, g, to, Member)
    else s
  }

  function CreatedBy(s: Side, u: UserId): set<GroupId> {
    set g | g in s.groups && s.groups[g] == u
  }

  /** What is left of a user after his own groups were dissolved. */
  function Erased(s: Side, u: UserId): Side {
    s.(requests := (set r | r in s.requests && r.from != u && r.to != u),
       rows := (map id | id in s.rows && s.rows[id].user != u :: s.rows[id]),
       cache := SremAll(s.cache, s.groups.Keys, u))
  }

  // Invariants.

  ghost predicate TablesOk(users: set<UserId>, s: Side) {
    && (forall g | g in s.groups :: g < s.nextGroup && s.groups[g] in users)
    && (forall id | id in s.rows :: id < s.nextRow && s.rows[id].group in s.groups && s.rows[id].user in users)
  }

  /** No user is twice in a group. */
  ghost predicate Unique(s: Side) {
    forall i, j | i in s.rows && j in s.rows && i != j ::
      s.rows[i].group != s.rows[j].group || s.rows[i].user != s.rows[j].user
  }

  /** In a group with members the creator is one of them, and he alone is the owner. */
  ghost predicate Owned(s: Side) {
    forall id | id in s.rows ::
      && s.rows[id].group in s.groups
      && HasRow(s, s.rows[id].group, s.groups[s.rows[id].group])
      && (s.rows[id].role == Owner <==> s.rows[id].user == s.groups[s.rows[id].group])
  }

  ghost predicate Agrees(s: Side) {
    forall g: GroupId, u: UserId :: u in Members(s.cache, g) <==> HasRow(s, g, u)
  }

  /** A pending applicant is not a member. */
  ghost predicate RequestsOk(users: set<UserId>, s: Side) {
    forall r | r in s.requests ::
      r.from in users && r.to in users && r.group in s.groups && !HasRow(s, r.group, r.from)
  }

  ghost predicate Inv(users: set<UserId>, s: Side) {
    TablesOk(users, s) && Unique(s) && Owned(s) && Agrees(s) && RequestsOk(users, s)
  }

  lemma SameRows(s: Side, d: Side)
    requires d.rows == s.rows
    ensures forall g: GroupId, u: UserId :: HasRow(d, g, u) <==> HasRow(s, g, u)
  {
    assert forall id, g: GroupId, u: UserId :: RowOf(d, id, g, u) <==> RowOf(s, id, g, u);
  }

  lemma RoleIs(s: Side, id: nat, g: GroupId, u: UserId)
    requires Unique(s) && RowOf(s, id, g, u)
    ensures HasRow(s, g, u) && RoleOf(s, g, u) == s.rows[id].role
  {
  }

  // A new member.

  /** The common effect of founding a group and of being admitted to one. */
  function Joined(s: Side, row: Row): Side {
    s.(rows := s.rows[s.nextRow := row], nextRow := s.nextRow + 1, cache := Sadd(s.cache, row.group, row.user))
  }

  lemma JoinedRows(s: Side, row: Row, g: GroupId, u: UserId)
    requires s.nextRow !in s.rows
    ensures HasRow(Joined(s, row), g, u) <==> HasRow(s, g, u) || (g == row.group && u == row.user)
  {
    var d := Joined(s, row);
    if HasRow(s, g, u) {
      var id :| RowOf(s, id, g, u);
      assert RowOf(d, id, g, u);
    }
    if g == row.group && u == row.user {
      assert RowOf(d, s.nextRow, g, u);
    }
    if HasRow(d, g, u) {
      var id :| RowOf(d, id, g, u);
      assert id != s.nextRow ==> RowOf(s, id, g, u);
    }
  }

  lemma JoinedAgrees(s: Side, row: Row)
    requires Agrees(s) && s.nextRow !in s.rows
    ensures Agrees(Joined(s, row))
  {
    hide HasRow;
    forall g: GroupId, u: UserId
      ensures u in Members(Joined(s, row).cache, g) <==> HasRow(Joined(s, row), g, u)
    {
      JoinedRows(s, row, g, u);
      assert u in Members(s.cache, g) <==> HasRow(s, g, u);
    }
  }

  lemma JoinedUnique(s: Side, row: Row)
    requires Unique(s) && !HasRow(s, row.group, row.user)
    ensures Unique(Joined(s, row))
  {
    forall i | i in s.rows
      ensures s.rows[i].group != row.group || s.rows[i].user != row.user
    {
      assert !RowOf(s, i, row.group, row.user);
    }
  }

  lemma JoinedOwned(s: Side, row: Row)
    requires Owned(s) && row.group in s.groups && s.nextRow !in s.rows
    requires row.role == Owner <==> row.user == s.groups[row.group]
    requires HasRow(s, row.group, s.groups[row.group]) || row.user == s.groups[row.group]
    ensures Owned(Joined(s, row))
  {
    hide HasRow;
    forall id | id in Joined(s, row).rows
      ensures HasRow(Joined(s, row), Joined(s, row).rows[id].group, s.groups[Joined(s, row).rows[id].group])
    {
      var g := Joined(s, row).rows[id].group;
      JoinedRows(s, row, g, s.groups[g]);
    }
  }

  lemma JoinedRequests(users: set<UserId>, s: Side, row: Row)
    requires RequestsOk(users, s) && s.nextRow !in s.rows
    requires forall r | r in s.requests :: !(r.from == row.user && r.group == row.group)
    ensures RequestsOk(users, Joined(s, row))
  {
    hide HasRow;
    forall r | r in s.requests
      ensures !HasRow(Joined(s, row), r.group, r.from)
    {
      JoinedRows(s, row, r.group, r.from);
    }
  }

  lemma FoundKeeps(users: set<UserId>, s: Side, creator: UserId)
    requires Inv(users, s) && creator in users
    ensures Inv(users, Founded(s, creator)) && !HasRow(Founded(s, creator), s.nextGroup, creator)
    ensures forall r | r in s.requests :: r.group != s.nextGroup
  {
    SameRows(s, Founded(s, creator));
    assert forall id :: !RowOf(s, id, s.nextGroup, creator);
    hide HasRow;
  }

  lemma CreateKeeps(users: set<UserId>, s: Side, creator: UserId)
    requires Inv(users, s) && creator in users
    ensures Inv(users, Created(users, s, creator))
  {
    hide HasRow, Owned, Agrees, Unique, RequestsOk;
    FoundKeeps(users, s, creator);
    var s1, row := Founded(s, creator), Row(s.nextGroup, creator, Owner);
    assert Created(users, s, creator) == Joined(s1, row);
    JoinedAgrees(s1, row);
    JoinedUnique(s1, row);
    JoinedOwned(s1, row);
    JoinedRequests(users, s1, row);
  }

  lemma AdmitKeeps(users: set<UserId>, s: Side, from: UserId, g: GroupId)
    requires TablesOk(users, s) && Unique(s) && Owned(s) && Agrees(s) && RequestsOk(users, s)
    requires g in s.groups && from in users && !HasRow(s, g, from) && HasRow(s, g, s.groups[g])
    requires forall r | r in s.requests :: !(r.from == from && r.group == g)
    ensures Inv(users, Admitted(users, s, from, g))
  {
    hide HasRow, Owned, Agrees, Unique, RequestsOk;
    var row := Row(g, from, Member);
    assert Admitted(users, s, from, g) == Joined(s, row);
    JoinedAgrees(s, row);
    JoinedUnique(s, row);
    JoinedOwned(s, row);
    JoinedRequests(users, s, row);
  }

  // Fewer members.

  /** `d` is `s` with some rows deleted. */
  ghost predicate Shrunk(s: Side, d: Side) {
    forall id | id in d.rows :: id in s.rows && d.rows[id] == s.rows[id]
  }

  lemma RowsShrunk(s: Side, d: Side, g: GroupId, u: UserId, keep: bool)
    requires Shrunk(s, d)
    requires forall id | RowOf(s, id, g, u) :: id in d.rows <==> keep
    ensures HasRow(d, g, u) <==> HasRow(s, g, u) && keep
  {
    if HasRow(d, g, u) {
      var id :| RowOf(d, id, g, u);
      assert RowOf(s, id, g, u);
    }
    if HasRow(s, g, u) && keep {
      var id :| RowOf(s, id, g, u);
      assert RowOf(d, id, g, u);
    }
  }

  lemma ShrunkUnique(s: Side, d: Side)
    requires Shrunk(s, d) && Unique(s)
    ensures Unique(d)
  {
  }

  lemma LeaveShape(s: Side, user: UserId, g: GroupId, h: GroupId, v: UserId)
    ensures HasRow(Left(s, user, g), h, v) <==> HasRow(s, h, v) && !(h == g && v == user)
    ensures v in Members(Left(s, user, g).cache, h) <==> v in Members(s.cache, h) && !(h == g && v == user)
  {
    RowsShrunk(s, Left(s, user, g), h, v, !(h == g && v == user));
  }

  lemma LeaveKeeps(users: set<UserId>, s: Side, user: UserId, g: GroupId)
    requires Inv(users, s) && (g in s.groups ==> user != s.groups[g])
    ensures Inv(users, Left(s, user, g))
    ensures forall h: GroupId, v: UserId ::
      HasRow(Left(s, user, g), h, v) <==> HasRow(s, h, v) && !(h == g && v == user)
  {
    var d := Left(s, user, g);
    ShrunkUnique(s, d);
    hide HasRow, Members;
    forall h: GroupId, v: UserId
      ensures HasRow(d, h, v) <==> HasRow(s, h, v) && !(h == g && v == user)
      ensures v in Members(d.cache, h) <==> v in Members(s.cache, h) && !(h == g && v == user)
    {
      LeaveShape(s, user, g, h, v);
    }
    assert TablesOk(users, d);
    assert Agrees(d);
    assert RequestsOk(users, d);
    assert Owned(d);
  }

  lemma DissolveShape(s: Side, gs: set<GroupId>, g: GroupId, u: UserId)
    ensures HasRow(Dissolved(s, gs), g, u) <==> HasRow(s, g, u) && g !in gs
    ensures u in Members(Dissolved(s, gs).cache, g) <==> u in Members(s.cache, g) && g !in gs
  {
    RowsShrunk(s, Dissolved(s, gs), g, u, g !in gs);
  }

  lemma DissolveKeeps(users: set<UserId>, s: Side, gs: set<GroupId>)
    requires Inv(users, s)
    ensures Inv(users, Dissolved(s, gs))
  {
    var d := Dissolved(s, gs);
    ShrunkUnique(s, d);
    hide HasRow;
    assert TablesOk(users, d);
    assert Agrees(d) by {
      forall h: GroupId, v: UserId
        ensures v in Members(d.cache, h) <==> HasRow(d, h, v)
      {
        DissolveShape(s, gs, h, v);
        assert v in Members(s.cache, h) <==> HasRow(s, h, v);
      }
    }
    assert RequestsOk(users, d) by {
      forall r | r in d.requests
        ensures r.group in d.groups && !HasRow(d, r.group, r.from)
      {
        DissolveShape(s, gs, r.group, r.from);
        assert Requested(s, r.group);
      }
    }
    assert Owned(d) by {
      forall id | id in d.rows
        ensures d.rows[id].group in d.groups && HasRow(d, d.rows[id].group, d.groups[d.rows[id].group])
      {
        DissolveShape(s, gs, d.rows[id].group, s.groups[d.rows[id].group]);
      }
    }
  }

  lemma ExitKeeps(users: set<UserId>, s: Side, user: UserId, g: GroupId)
    requires Inv(users, s) && HasRow(s, g, user)
    ensures Inv(users, Exited(s, user, g))
    ensures RoleOf(s, g, user) == Owner <==> g in s.groups && s.groups[g] == user
  {
    var id :| RowOf(s, id, g, user);
    RoleIs(s, id, g, user);
    assert s.rows[id].role == Owner <==> user == s.groups[g];
    if RoleOf(s, g, user) == Owner {
      DissolveKeeps(users, s, {g});
    } else {
      LeaveKeeps(users, s, user, g);
    }
  }

  lemma KickKeeps(users: set<UserId>, s: Side, user: UserId, kick: UserId, g: GroupId)
    requires Inv(users, s) && (kick != user && HasRow(s, g, user) ==> HasRow(s, g, kick))
    ensures Inv(users, Kicked(s, user, kick, g))
  {
    if kick != user && HasRow(s, g, user) {
      var i :| RowOf(s, i, g, user);
      var j :| RowOf(s, j, g, kick);
      RoleIs(s, i, g, user);
      RoleIs(s, j, g, kick);
      assert s.rows[i].role == Owner <==> user == s.groups[g];
      assert s.rows[j].role == Owner <==> kick == s.groups[g];
      if (s.rows[i].role != Member && s.rows[j].role == Member) || s.rows[i].role == Owner {
        LeaveKeeps(users, s, kick, g);
      }
    }
  }

  // Other changes.

  lemma SetRoleRows(s: Side, g: GroupId, u: UserId, role: Role, h: GroupId, v: UserId)
    ensures HasRow(SetRole(s, g, u, role), h, v) <==> HasRow(s, h, v)
  {
    var d := SetRole(s, g, u, role);
    if HasRow(s, h, v) {
      var id :| RowOf(s, id, h, v);
      assert RowOf(d, id, h, v);
    }
    if HasRow(d, h, v) {
      var id :| RowOf(d, id, h, v);
      assert RowOf(s, id, h, v);
    }
  }

  lemma SetRoleKeeps(users: set<UserId>, s: Side, g: GroupId, u: UserId, role: Role)
    requires Inv(users, s) && role != Owner && g in s.groups && s.groups[g] != u
    ensures Inv(users, SetRole(s, g, u, role))
  {
    var d := SetRole(s, g, u, role);
    hide HasRow, Unique, Agrees, RequestsOk, TablesOk;
    forall id | id in s.rows
      ensures id in d.rows && d.rows[id].group == s.rows[id].group && d.rows[id].user == s.rows[id].user
      ensures d.rows[id].role == Owner <==> s.rows[id].role == Owner
    {
    }
    forall h: GroupId, v: UserId
      ensures HasRow(d, h, v) <==> HasRow(s, h, v)
    {
      SetRoleRows(s, g, u, role, h, v);
    }
    assert d.rows.Keys == s.rows.Keys;
    SameOwners(users, s, d);
  }

  /** Roles below the owner's may change freely. */
  lemma SameOwners(users: set<UserId>, s: Side, d: Side)
    requires Inv(users, s) && d == s.(rows := d.rows) && d.rows.Keys == s.rows.Keys
    requires forall id | id in s.rows ::
      d.rows[id].group == s.rows[id].group && d.rows[id].user == s.rows[id].user
      && (d.rows[id].role == Owner <==> s.rows[id].role == Owner)
    requires forall h: GroupId, v: UserId :: HasRow(d, h, v) <==> HasRow(s, h, v)
    ensures Inv(users, d)
  {
    hide HasRow, Members;
  }

  lemma JoinKeeps(users: set<UserId>, s: Side, from: UserId, g: GroupId)
    requires Inv(users, s) && from in users
    ensures Inv(users, Joining(s, from, g))
  {
    var d := Joining(s, from, g);
    SameRows(s, d);
    hide HasRow;
    assert from in Members(s.cache, g) <==> HasRow(s, g, from);
    assert TablesOk(users, d) && Unique(d) && Owned(d) && Agrees(d);
    assert RequestsOk(users, d);
  }

  lemma ForgetRequestsKeeps(users: set<UserId>, s: Side, rs: set<Request>)
    requires Inv(users, s) && rs <= s.requests
    ensures Inv(users, s.(requests := rs))
  {
    var d := s.(requests := rs);
    SameRows(s, d);
    hide HasRow;
  }

  /** Some row of `group_requests` asks to admit `from` to `g`. */
  predicate Pending(s: Side, from: UserId, g: GroupId) {
    exists r :: r in s.requests && r.from == from && r.group == g
  }

  lemma AnswerKeeps(users: set<UserId>, s: Side, user: UserId, from: UserId, g: GroupId, response: Response)
    requires Inv(users, s) && (response == Accept ==> Pending(s, from, g))
    ensures Inv(users, Answered(users, s, user, from, g, response))
  {
    if HasRow(s, g, user) && RoleOf(s, g, user) != Member {
      var rest := set r | r in s.requests && !(r.from == from && r.group == g);
      ForgetRequestsKeeps(users, s, rest);
      if response == Accept {
        var id :| RowOf(s, id, g, user);
        var s1 := s.(requests := rest);
        assert RowOf(s1, id, g, user);
        AdmitKeeps(users, s1, from, g);
        assert Answered(users, s, user, from, g, response) == Admitted(users, s1, from, g);
      }
    }
  }

  lemma EraseShape(users: set<UserId>, s: Side, u: UserId, g: GroupId, v: UserId)
    requires TablesOk(users, s) && Agrees(s)
    ensures HasRow(Erased(s, u), g, v) <==> HasRow(s, g, v) && v != u
    ensures v in Members(Erased(s, u).cache, g) <==> HasRow(s, g, v) && v != u
  {
    RowsShrunk(s, Erased(s, u), g, v, v != u);
    assert v in Members(s.cache, g) <==> HasRow(s, g, v);
    if HasRow(s, g, v) {
      var id :| RowOf(s, id, g, v);
      assert g in s.groups;
    }
  }

  lemma EraseKeeps(users: set<UserId>, left: set<UserId>, s: Side, u: UserId)
    requires Inv(users, s) && (forall id | id in s.rows :: s.groups[s.rows[id].group] != u)
    requires users - {u} <= left && forall g | g in s.groups :: s.groups[g] in left
    ensures Inv(left, Erased(s, u))
  {
    var d := Erased(s, u);
    ShrunkUnique(s, d);
    forall h: GroupId, v: UserId
      ensures HasRow(d, h, v) <==> HasRow(s, h, v) && v != u
      ensures v in Members(d.cache, h) <==> HasRow(s, h, v) && v != u
    {
      EraseShape(users, s, u, h, v);
    }
    hide HasRow, Members;
    assert TablesOk(left, d);
    assert Agrees(d);
    assert Owned(d);
    assert RequestsOk(left, d);
  }

  // What the environment must guarantee, exactly.

  /** An accept that nobody checks keeps every invariant exactly when the applicant exists and is not yet
      a member. */
  lemma AcceptKeepsIff(users: set<UserId>, s: Side, user: UserId, from: UserId, g: GroupId)
    requires Inv(users, s) && HasRow(s, g, user) && RoleOf(s, g, user) != Member
    ensures Inv(users, Answered(users, s, user, from, g, Accept)) <==> from in users && !HasRow(s, g, from)
  {
    var d := Answered(users, s, user, from, g, Accept);
    var rest := set r | r in s.requests && !(r.from == from && r.group == g);
    ForgetRequestsKeeps(users, s, rest);
    var s1 := s.(requests := rest);
    assert d == Admitted(users, s1, from, g);
    assert from in Members(d.cache, g);
    var id :| RowOf(s, id, g, user);
    assert RowOf(s1, id, g, user);
    if from !in users {
      assert d.rows == s1.rows;
      assert forall k :: !RowOf(d, k, g, from);
    } else if HasRow(s, g, from) {
      var k :| RowOf(s, k, g, from);
      assert RowOf(d, k, g, from) && RowOf(d, s.nextRow, g, from) && k != s.nextRow;
    } else {
      assert forall k :: RowOf(s1, k, g, from) ==> RowOf(s, k, g, from);
      AdmitKeeps(users, s1, from, g);
    }
  }

  // Who may do what.

  function Rank(role: Role): nat {
    match role
    case Member => 0
    case Admin => 1
    case Owner => 2
  }

  /** A kick takes effect exactly when the kicker outranks the other; then he alone leaves. */
  lemma KickIffOutranks(users: set<UserId>, s: Side, user: UserId, kick: UserId, g: GroupId)
    requires Inv(users, s) && HasRow(s, g, user) && HasRow(s, g, kick)
    ensures var d := Kicked(s, user, kick, g);
      && (!HasRow(d, g, kick) <==> Rank(RoleOf(s, g, user)) > Rank(RoleOf(s, g, kick)))
      && forall h: GroupId, v: UserId | !(h == g && v == kick) :: HasRow(d, h, v) <==> HasRow(s, h, v)
  {
    var i :| RowOf(s, i, g, user);
    var j :| RowOf(s, j, g, kick);
    RoleIs(s, i, g, user);
    RoleIs(s, j, g, kick);
    assert s.rows[i].role == Owner <==> user == s.groups[g];
    assert s.rows[j].role == Owner <==> kick == s.groups[g];
    if Kicked(s, user, kick, g) == Left(s, kick, g) {
      forall h: GroupId, v: UserId
        ensures HasRow(Left(s, kick, g), h, v) <==> HasRow(s, h, v) && !(h == g && v == kick)
      {
        LeaveShape(s, kick, g, h, v);
      }
    }
  }

  /** Only the owner promotes, and only a plain member; demoting him again restores the group. */
  lemma DemoteUndoesPromote(users: set<UserId>, s: Side, user: UserId, to: UserId, g: GroupId)
    requires Inv(users, s) && HasRow(s, g, user) && HasRow(s, g, to) && RoleOf(s, g, to) != Admin
    ensures var d := Promoted(s, user, to, g);
      && HasRow(d, g, to)
      && (RoleOf(d, g, to) == Admin <==> RoleOf(s, g, user) == Owner && user != to)
      && Demoted(d, user, to, g) == s
  {
    var i :| RowOf(s, i, g, user);
    var j :| RowOf(s, j, g, to);
    RoleIs(s, i, g, user);
    RoleIs(s, j, g, to);
    assert s.rows[i].role == Owner <==> user == s.groups[g];
    assert s.rows[j].role == Owner <==> to == s.groups[g];
    if user == s.groups[g] && to != user {
      var d := SetRole(s, g, to, Admin);
      assert RowOf(d, j, g, to) && Unique(d);
      RoleIs(d, j, g, to);
      assert forall id | RowOf(s, id, g, to) :: id == j;
      assert SetRole(d, g, to, Member).rows == s.rows;
    }
  }

  /** Asking and being accepted by an administrator makes a plain member, and settles every copy of the request. */
  lemma AskedAndAccepted(users: set<UserId>, s: Side, from: UserId, admin: UserId, g: GroupId)
    requires Inv(users, s) && from in users && JoinErrno(s, from, g) == 0
    requires HasRow(s, g, admin) && RoleOf(s, g, admin) != Member
    ensures var asked := Joining(s, from, g); var d := Answered(users, asked, admin, from, g, Accept);
      && Pending(asked, from, g)
      && HasRow(d, g, from) && RoleOf(d, g, from) == Member && !Pending(d, from, g)
      && d.requests == s.requests
  {
    var asked := Joining(s, from, g);
    var id :| RowOf(s, id, g, admin);
    RoleIs(s, id, g, admin);
    RoleIs(asked, id, g, admin);
    assert admin in Admins(s, g);
    assert Request(from, admin, g) in asked.requests;
    var d := Answered(users, asked, admin, from, g, Accept);
    assert RowOf(d, s.nextRow, g, from);
    JoinKeeps(users, s, from, g);
    AnswerKeeps(users, asked, admin, from, g, Accept);
    RoleIs(d, s.nextRow, g, from);
    assert d.requests == s.requests;
  }

  /** The owner rows before are the owner rows after. */
  ghost predicate OwnersUntouched(s: Side, d: Side) {
    && (forall id | id in s.rows && s.rows[id].role == Owner :: id in d.rows && d.rows[id] == s.rows[id])
    && (forall id | id in d.rows && d.rows[id].role == Owner :: id in s.rows && s.rows[id] == d.rows[id])
  }

  /** No kick, promotion or demotion ever removes, demotes or makes an owner. */
  lemma OwnerSafe(users: set<UserId>, s: Side, user: UserId, other: UserId, g: GroupId)
    requires Inv(users, s) && HasRow(s, g, other)
    ensures OwnersUntouched(s, Kicked(s, user, other, g))
    ensures OwnersUntouched(s, Promoted(s, user, other, g))
    ensures OwnersUntouched(s, Demoted(s, user, other, g))
  {
    var j :| RowOf(s, j, g, other);
    RoleIs(s, j, g, other);
    assert forall id | RowOf(s, id, g, other) :: id == j;
    if HasRow(s, g, user) {
      var i :| RowOf(s, i, g, user);
      RoleIs(s, i, g, user);
      assert s.rows[i].role == Owner <==> user == s.groups[g];
      assert s.rows[j].role == Owner <==> other == s.groups[g];
    }
  }
}
