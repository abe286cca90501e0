/** The handlers that change the social graph, each one an atomic step over the tables and the caches. */
module Server {
  import opened Common
  import opened Redis
  import Friends
  import Groups

  const SYSTEM_ID: UserId := Friends.SYSTEM_ID

  datatype World = World(users: map<UserId, string>, nextUser: UserId, friends: Friends.Side, groups: Groups.Side)

  predicate EmailTaken(w: World, email: string) {
    exists u | u in w.users :: w.users[u] == email
  }

  /** -1 the insert failed, 1 wrong code, 2 already registered. */
  function RegisterErrno(w: World, email: string, codeOk: bool, insertOk: bool): int {
    if EmailTaken(w, email) then 2
    else if !codeOk then 1
    else if !insertOk then -1
    else 0
  }

  function Registered(w: World, email: string, codeOk: bool, insertOk: bool): World {
    if RegisterErrno(w, email, codeOk, insertOk) != 0 then w
    else
      var u := w.nextUser;
      var users := w.users[u := email];
      World(users, u + 1, Friends.Welcomed(users.Keys, w.friends, u), w.groups)
  }

  /** Some row of another table still refers to the user. */
  predicate Referenced(f: Friends.Side, g: Groups.Side, u: UserId) {
    || (exists p | p in f.rows :: p.0 == u || p.1 == u)
    || (exists p | p in f.requests :: p.0 == u || p.1 == u)
    || (exists k | k in g.groups :: g.groups[k] == u)
    || (exists id | id in g.rows :: g.rows[id].user == u)
    || (exists r | r in g.requests :: r.from == u || r.to == u)
  }

  /** `AccountKiller`. Foreign keys may keep the `users` row: a group row that a pending request kept alive,
      or (`archived`) messages of the user in `group_messages`. */
  function Killed(w: World, u: UserId, archived: bool): World {
    var g := Groups.Erased(Groups.Dissolved(w.groups, Groups.CreatedBy(w.groups, u)), u);
    var f := Friends.Erased(w.users.Keys, w.friends, u);
    World(if archived || Referenced(f, g, u) then w.users else w.users - {u}, w.nextUser, f, g)
  }

  datatype Event =
    | Register(email: string, codeOk: bool, insertOk: bool)
    | AddFriend(from: UserId, to: UserId)
    | AnswerFriend(from: UserId, to: UserId, friendResponse: Response)
    | DeleteFriend(from: UserId, to: UserId)
    | CreateGroup(creator: UserId)
    | JoinGroup(from: UserId, group: GroupId)
    | AnswerJoin(user: UserId, from: UserId, group: GroupId, groupResponse: Response)
    | ExitGroup(user: UserId, group: GroupId)
    | Kick(user: UserId, kicked: UserId, group: GroupId)
    | Promote(user: UserId, to: UserId, group: GroupId)
    | Demote(user: UserId, to: UserId, group: GroupId)
    | Kill(user: UserId, archived: bool)

  /** What the handlers take for granted: senders exist, an accept answers a pending request, the rows read
      through `result[0]` exist, and nobody destroys the system account. */
  ghost predicate Enabled(w: World, e: Event) {
    match e
    case Register(_, _, _) => true
    case AddFriend(from, _) => from in w.users
    case AnswerFriend(from, to, response) => response.Accept? ==> (from, to) in w.friends.requests
    case DeleteFriend(_, _) => true
    case CreateGroup(creator) => creator in w.users
    case JoinGroup(from, _) => from in w.users
    case AnswerJoin(_, from, g, response) => response.Accept? ==> Groups.Pending(w.groups, from, g)
    case ExitGroup(user, g) => Groups.HasRow(w.groups, g, user)
    case Kick(user, kicked, g) =>
      kicked != user && Groups.HasRow(w.groups, g, user) ==> Groups.HasRow(w.groups, g, kicked)
    case Promote(_, to, g) => Groups.HasRow(w.groups, g, to)
    case Demote(_, to, g) => Groups.HasRow(w.groups, g, to)
    case Kill(u, _) =>
      u != SYSTEM_ID && forall g | g in Groups.CreatedBy(w.groups, u) :: Groups.HasRow(w.groups, g, u)
  }

  ghost function Next(w: World, e: Event): World
    requires Enabled(w, e)
  {
    match e
    case Register(email, codeOk, insertOk) => Registered(w, email, codeOk, insertOk)
    case AddFriend(from, to) => w.(friends := Friends.Asked(w.users.Keys, w.friends, from, to))
    case AnswerFriend(from, to, response) =>
      w.(friends := Friends.Answered(w.users.Keys, w.friends, from, to, response))
    case DeleteFriend(from, to) => w.(friends := Friends.Unfriended(w.friends, from, to))
    case CreateGroup(creator) => w.(groups := Groups.Created(w.users.Keys, w.groups, creator))
    case JoinGroup(from, g) => w.(groups := Groups.Joining(w.groups, from, g))
    case AnswerJoin(user, from, g, response) =>
      w.(groups := Groups.Answered(w.users.Keys, w.groups, user, from, g, response))
    case ExitGroup(user, g) => w.(groups := Groups.Exited(w.groups, user, g))
    case Kick(user, kicked, g) => w.(groups := Groups.Kicked(w.groups, user, kicked, g))
    case Promote(user, to, g) => w.(groups := Groups.Promoted(w.groups, user, to, g))
    case Demote(user, to, g) => w.(groups := Groups.Demoted(w.groups, user, to, g))
    case Kill(u, archived) => Killed(w, u, archived)
  }

  /** No e-mail address has two accounts, though no key of the table says so. */
  predicate OneAccountEach(users: map<UserId, string>) {
    forall u, v | u in users && v in users && u != v :: users[u] != users[v]
  }

  ghost predicate Inv(w: World) {
    && (forall u | u in w.users :: u < w.nextUser)
    && OneAccountEach(w.users)
    && SYSTEM_ID in w.users
    && Friends.Inv(w.users.Keys, w.friends)
    && Groups.Inv(w.users.Keys, w.groups)
  }

  lemma MoreUsers(users: set<UserId>, more: set<UserId>, f: Friends.Side, g: Groups.Side)
    requires users <= more
    ensures Friends.Inv(users, f) ==> Friends.Inv(more, f)
    ensures Groups.Inv(users, g) ==> Groups.Inv(more, g)
  {
  }

  lemma RegisterKeeps(w: World, email: string, codeOk: bool, insertOk: bool)
    requires Inv(w)
    ensures Inv(Registered(w, email, codeOk, insertOk))
  {
    var u := w.nextUser;
    assert w.users[u := email].Keys == w.users.Keys + {u};
    Friends.WelcomeKeeps(w.users.Keys, w.friends, u);
    MoreUsers(w.users.Keys, w.users.Keys + {u}, w.friends, w.groups);
  }

  lemma NoRowsUnderKilled(w: World, u: UserId)
    requires Groups.Inv(w.users.Keys, w.groups)
    ensures var d := Groups.Dissolved(w.groups, Groups.CreatedBy(w.groups, u));
      forall id | id in d.rows :: d.groups[d.rows[id].group] != u
  {
  }

  lemma KillKeeps(w: World, u: UserId, archived: bool)
    requires Inv(w) && Enabled(w, Kill(u, archived))
    ensures Inv(Killed(w, u, archived))
  {
    var users, d := w.users.Keys, Killed(w, u, archived);
    var gone := Groups.CreatedBy(w.groups, u);
    Groups.DissolveKeeps(users, w.groups, gone);
    NoRowsUnderKilled(w, u);
    var g1 := Groups.Dissolved(w.groups, gone);
    var left := d.users.Keys;
    assert users - {u} <= left;
    forall g | g in g1.groups
      ensures g1.groups[g] in left
    {
      assert d.groups.groups == g1.groups;
      if g1.groups[g] == u {
        assert Referenced(d.friends, d.groups, u);
      }
    }
    Groups.EraseKeeps(users, left, g1, u);
    Friends.EraseKeeps(users, left, w.friends, u);
  }

  lemma NextKeeps(w: World, e: Event)
    requires Inv(w) && Enabled(w, e)
    ensures Inv(Next(w, e))
  {
    hide Groups.Inv, Friends.Inv;
    var users := w.users.Keys;
    match e
    case Register(email, codeOk, insertOk) => RegisterKeeps(w, email, codeOk, insertOk);
    case AddFriend(from, to) => Friends.AskKeeps(users, w.friends, from, to);
    case AnswerFriend(from, to, response) => Friends.AnswerKeeps(users, w.friends, from, to, response);
    case DeleteFriend(from, to) => Friends.UnfriendKeeps(users, w.friends, from, to);
    case CreateGroup(creator) => Groups.CreateKeeps(users, w.groups, creator);
    case JoinGroup(from, g) => Groups.JoinKeeps(users, w.groups, from, g);
    case AnswerJoin(user, from, g, response) => Groups.AnswerKeeps(users, w.groups, user, from, g, response);
    case ExitGroup(user, g) => Groups.ExitKeeps(users, w.groups, user, g);
    case Kick(user, kicked, g) => Groups.KickKeeps(users, w.groups, user, kicked, g);
    case Promote(user, to, g) => PromoteKeeps(users, w.groups, user, to, g);
    case Demote(user, to, g) => PromoteKeeps(users, w.groups, user, to, g);
    case Kill(u, archived) => KillKeeps(w, u, archived);
  }

  lemma PromoteKeeps(users: set<UserId>, s: Groups.Side, user: UserId, to: UserId, g: GroupId)
    requires Groups.Inv(users, s) && Groups.HasRow(s, g, to)
    ensures Groups.Inv(users, Groups.Promoted(s, user, to, g))
    ensures Groups.Inv(users, Groups.Demoted(s, user, to, g))
  {
    hide Groups.Inv;
    if g in s.groups && s.groups[g] == user && to != user {
      Groups.SetRoleKeeps(users, s, g, to, Groups.Admin);
      Groups.SetRoleKeeps(users, s, g, to, Groups.Member);
    }
  }

  ghost predicate IsRun(states: seq<World>, events: seq<Event>) {
    && |states| == |events| + 1
    && forall i | 0 <= i < |events| :: Enabled(states[i], events[i]) && states[i + 1] == Next(states[i], events[i])
  }

  lemma {:induction false} RunKeeps(states: seq<World>, events: seq<Event>, i: nat)
    requires IsRun(states, events) && Inv(states[0]) && i < |states|
    ensures Inv(states[i])
  {
    hide Inv, Next, Enabled;
    if i == 0 {
    } else {
      RunKeeps(states, events, i - 1);
      NextKeeps(states[i - 1], events[i - 1]);
    }
  }

  /** The database as `init.sql` leaves it, with empty caches. */
  function Installed(email: string): World {
    World(map[SYSTEM_ID := email], SYSTEM_ID + 1, Friends.Side({}, {}, map[]),
          Groups.Side(map[], 1, map[], 1, {}, map[]))
  }

  lemma InstalledInv(email: string)
    ensures Inv(Installed(email))
  {
  }

  // The main results.

  /** After any sequence of handlers, every Redis set is the set read from its table, and friendship is
      symmetric and irreflexive. */
  lemma CacheAgreement(states: seq<World>, events: seq<Event>, i: nat)
    requires IsRun(states, events) && Inv(states[0]) && i < |states|
    ensures var f, g := states[i].friends, states[i].groups;
      && (forall u: UserId, v: UserId :: v in Members(f.cache, u) <==> (u, v) in f.rows)
      && (forall u: UserId, v: UserId :: (u, v) in f.rows ==> u != v && (v, u) in f.rows)
      && (forall k: GroupId, u: UserId :: u in Members(g.cache, k) <==> Groups.HasRow(g, k, u))
  {
    RunKeeps(states, events, i);
  }

  ghost predicate OwnerRow(g: Groups.Side, id: nat, k: GroupId) {
    id in g.rows && g.rows[id].group == k && g.rows[id].role == Groups.Owner
  }

  /** A group with members has exactly one owner row, and it is the creator's. */
  ghost predicate OneOwnerEach(g: Groups.Side) {
    && (forall id | id in g.rows :: exists o :: OwnerRow(g, o, g.rows[id].group))
    && (forall o, p, k: GroupId | OwnerRow(g, o, k) && OwnerRow(g, p, k) ::
          o == p && k in g.groups && g.rows[o].user == g.groups[k])
  }

  /** What `Owned` and `Unique` say of one owner row. */
  lemma OwnerIsCreator(users: set<UserId>, g: Groups.Side, o: nat, k: GroupId)
    requires Groups.Inv(users, g) && OwnerRow(g, o, k)
    ensures k in g.groups && g.rows[o].user == g.groups[k]
  {
    hide Groups.HasRow, Groups.Unique, Groups.Agrees, Groups.RequestsOk, Groups.TablesOk;
    assert g.rows[o].group in g.groups;
  }

  lemma CreatorHasOwnerRow(users: set<UserId>, g: Groups.Side, id: nat) returns (o: nat)
    requires Groups.Inv(users, g) && id in g.rows
    ensures OwnerRow(g, o, g.rows[id].group)
  {
    hide Groups.Unique, Groups.Agrees, Groups.RequestsOk, Groups.TablesOk;
    var k := g.rows[id].group;
    assert Groups.HasRow(g, k, g.groups[k]);
    o :| Groups.RowOf(g, o, k, g.groups[k]);
    hide Groups.HasRow;
    assert g.rows[o].role == Groups.Owner;
  }

  lemma OwnerRowsEqual(users: set<UserId>, g: Groups.Side, o: nat, p: nat, k: GroupId)
    requires Groups.Inv(users, g) && OwnerRow(g, o, k) && OwnerRow(g, p, k)
    ensures o == p
  {
    OwnerIsCreator(users, g, o, k);
    OwnerIsCreator(users, g, p, k);
    hide Groups.HasRow, Groups.Owned, Groups.Agrees, Groups.RequestsOk, Groups.TablesOk;
  }

  lemma OwnedMeansOneOwner(users: set<UserId>, g: Groups.Side)
    requires Groups.Inv(users, g)
    ensures OneOwnerEach(g)
  {
    hide Groups.Inv, OwnerRow;
    forall id | id in g.rows
      ensures exists o :: OwnerRow(g, o, g.rows[id].group)
    {
      var o := CreatorHasOwnerRow(users, g, id);
    }
    forall o, p, k: GroupId | OwnerRow(g, o, k) && OwnerRow(g, p, k)
      ensures o == p && k in g.groups && o in g.rows && g.rows[o].user == g.groups[k]
    {
      OwnerRowIn(g, o, k);
      OwnerIsCreator(users, g, o, k);
      OwnerRowsEqual(users, g, o, p, k);
    }
  }

  lemma OwnerRowIn(g: Groups.Side, o: nat, k: GroupId)
    requires OwnerRow(g, o, k)
    ensures o in g.rows
  {
  }

  /** After any sequence of handlers, an e-mail address still names one account. */
  lemma EmailsStayUnique(states: seq<World>, events: seq<Event>, i: nat)
    requires IsRun(states, events) && Inv(states[0]) && i < |states|
    ensures OneAccountEach(states[i].users)
  {
    hide OneAccountEach;
    RunKeeps(states, events, i);
  }

  /** After any sequence of handlers, ownership is single, and whoever waits for admission is not a member. */
  lemma GroupOwnership(states: seq<World>, events: seq<Event>, i: nat)
    requires IsRun(states, events) && Inv(states[0]) && i < |states|
    ensures OneOwnerEach(states[i].groups)
    ensures forall r | r in states[i].groups.requests :: !Groups.HasRow(states[i].groups, r.group, r.from)
  {
    RunKeeps(states, events, i);
    OwnedMeansOneOwner(states[i].users.Keys, states[i].groups);
  }

  // Destroying an account.

  /** `AccountKiller` reads `result[0]` of an existing row exactly when each group the user created still has
      some member. */
  lemma KillEnabledIff(w: World, u: UserId, archived: bool)
    requires Inv(w)
    ensures Enabled(w, Kill(u, archived)) <==>
      && u != SYSTEM_ID
      && forall g | g in Groups.CreatedBy(w.groups, u) ::
           exists id :: id in w.groups.rows && w.groups.rows[id].group == g
  {
    forall g | g in Groups.CreatedBy(w.groups, u)
      ensures Groups.HasRow(w.groups, g, u) <==> exists id :: id in w.groups.rows && w.groups.rows[id].group == g
    {
      MemberMeansCreator(w.users.Keys, w.groups, g);
    }
  }

  lemma MemberMeansCreator(users: set<UserId>, s: Groups.Side, g: GroupId)
    requires Groups.Inv(users, s) && g in s.groups
    ensures Groups.HasRow(s, g, s.groups[g]) <==> exists id :: id in s.rows && s.rows[id].group == g
  {
    hide Groups.Unique, Groups.Agrees, Groups.RequestsOk, Groups.TablesOk;
    if exists id :: id in s.rows && s.rows[id].group == g {
      var id :| id in s.rows && s.rows[id].group == g;
      assert Groups.HasRow(s, s.rows[id].group, s.groups[s.rows[id].group]);
    }
    if Groups.HasRow(s, g, s.groups[g]) {
      var id :| Groups.RowOf(s, id, g, s.groups[g]);
    }
  }

  /** The exception is reachable: a user founds a group, another asks to join, the founder dissolves it; the
      request keeps the `groups` row, and destroying the founder's account reads a row that is not there. */
  lemma HeadlessGroupReachable(w: World, u: UserId, v: UserId, archived: bool)
    requires Inv(w) && u in w.users && v in w.users && u != v
    ensures var g := w.groups.nextGroup;
      var w1 := Next(w, CreateGroup(u));
      && Enabled(w1, JoinGroup(v, g))
      && var w2 := Next(w1, JoinGroup(v, g));
      && Enabled(w2, ExitGroup(u, g))
      && var w3 := Next(w2, ExitGroup(u, g));
      && Inv(w3) && g in Groups.CreatedBy(w3.groups, u)
      && (forall id | id in w3.groups.rows :: w3.groups.rows[id].group != g)
      && !Enabled(w3, Kill(u, archived))
  {
    hide *;
    InvUnique(w);
    var g := w.groups.nextGroup;
    CreateStep(w, u);
    NextKeeps(w, CreateGroup(u));
    var w1 := Next(w, CreateGroup(u));
    JoinStep(w1, v, g);
    NextKeeps(w1, JoinGroup(v, g));
    var w2 := Next(w1, JoinGroup(v, g));
    var s2 := FoundedAndAsked(w.users.Keys, w.groups, u, v);
    ExitStep(w2, u, g);
    NextKeeps(w2, ExitGroup(u, g));
    KillEnabledIff(Next(w2, ExitGroup(u, g)), u, archived);
  }

  lemma CreateStep(w: World, u: UserId)
    requires u in w.users
    ensures Enabled(w, CreateGroup(u))
    ensures Next(w, CreateGroup(u)) == w.(groups := Groups.Created(w.users.Keys, w.groups, u))
  {
  }

  lemma JoinStep(w: World, v: UserId, g: GroupId)
    requires v in w.users
    ensures Enabled(w, JoinGroup(v, g)) && Next(w, JoinGroup(v, g)) == w.(groups := Groups.Joining(w.groups, v, g))
  {
  }

  lemma ExitStep(w: World, u: UserId, g: GroupId)
    requires Groups.HasRow(w.groups, g, u)
    ensures Enabled(w, ExitGroup(u, g)) && Next(w, ExitGroup(u, g)) == w.(groups := Groups.Exited(w.groups, u, g))
  {
  }

  lemma FoundedAndAsked(users: set<UserId>, s: Groups.Side, u: UserId, v: UserId) returns (d: Groups.Side)
    requires Groups.Inv(users, s) && u in users && v in users && u != v
    ensures d == Groups.Joining(Groups.Created(users, s, u), v, s.nextGroup)
    ensures Groups.HasRow(d, s.nextGroup, u)
    ensures var e := Groups.Exited(d, u, s.nextGroup);
      && s.nextGroup in Groups.CreatedBy(e, u)
      && forall id | id in e.rows :: e.rows[id].group != s.nextGroup
  {
    var g := s.nextGroup;
    Groups.CreateKeeps(users, s, u);
    Groups.FoundKeeps(users, s, u);
    var s1 := Groups.Created(users, s, u);
    assert Groups.RowOf(s1, s.nextRow, g, u) && s1.rows[s.nextRow].role == Groups.Owner;
    assert !Groups.HasRow(s1, g, v) by {
      assert forall id | id in s.rows :: s.rows[id].group != g;
    }
    assert v !in Members(s1.cache, g);
    assert u in Groups.Admins(s1, g);
    Groups.JoinKeeps(users, s1, v, g);
    d := Groups.Joining(s1, v, g);
    assert Groups.Request(v, u, g) in d.requests;
    assert Groups.Requested(d, g);
    assert Groups.RowOf(d, s.nextRow, g, u);
    Groups.RoleIs(d, s.nextRow, g, u);
  }

  /** A destroyed account leaves nothing behind in the graph, even where its `users` row has to stay; and
      that row stays exactly for archived messages or for a group of his that somebody asked to join. */
  lemma KillErases(w: World, u: UserId, archived: bool)
    requires Inv(w) && Enabled(w, Kill(u, archived))
    ensures var d := Killed(w, u, archived);
      && (forall v: UserId :: (u, v) !in d.friends.rows && (v, u) !in d.friends.rows)
      && (forall v: UserId :: u !in Members(d.friends.cache, v) && v !in Members(d.friends.cache, u))
      && (forall k: GroupId :: !Groups.HasRow(d.groups, k, u) && u !in Members(d.groups.cache, k))
      && (forall r | r in d.groups.requests :: r.from != u && r.to != u)
      && (u in d.users <==> u in w.users && (archived || OwnGroupRequested(w.groups, u)))
  {
    KillKeeps(w, u, archived);
    var d := Killed(w, u, archived);
    UsersRowStays(w, u);
    forall v: UserId
      ensures u !in Members(d.friends.cache, v) && v !in Members(d.friends.cache, u)
    {
      assert u in Members(d.friends.cache, v) <==> (v, u) in d.friends.rows;
      assert v in Members(d.friends.cache, u) <==> (u, v) in d.friends.rows;
    }
    forall k: GroupId
      ensures !Groups.HasRow(d.groups, k, u) && u !in Members(d.groups.cache, k)
    {
      assert u in Members(d.groups.cache, k) <==> Groups.HasRow(d.groups, k, u);
    }
  }

  predicate OwnGroupRequested(s: Groups.Side, u: UserId) {
    exists r :: r in s.requests && r.group in s.groups && s.groups[r.group] == u
  }

  /** Of the tables that refer to a user, only `groups` still does. */
  lemma UsersRowStays(w: World, u: UserId)
    ensures var g := Groups.Erased(Groups.Dissolved(w.groups, Groups.CreatedBy(w.groups, u)), u);
      var f := Friends.Erased(w.users.Keys, w.friends, u);
      Referenced(f, g, u) <==> OwnGroupRequested(w.groups, u)
  {
    var g := Groups.Erased(Groups.Dissolved(w.groups, Groups.CreatedBy(w.groups, u)), u);
    assert forall k :: k in g.groups && g.groups[k] == u <==>
      k in w.groups.groups && w.groups.groups[k] == u && Groups.Requested(w.groups, k);
    if OwnGroupRequested(w.groups, u) {
      var r :| r in w.groups.requests && r.group in w.groups.groups && w.groups.groups[r.group] == u;
      assert r.group in g.groups;
    }
  }

  // Filling the caches.

  /** `after` is `before` with every row of the two tables added to the caches. */
  ghost predicate LoadedFrom(before: World, after: World) {
    && after == before.(friends := before.friends.(cache := after.friends.cache),
                        groups := before.groups.(cache := after.groups.cache))
    && (forall u: UserId, v: UserId :: v in Members(after.friends.cache, u) <==>
          v in Members(before.friends.cache, u) || (u, v) in before.friends.rows)
    && (forall k: GroupId, u: UserId :: u in Members(after.groups.cache, k) <==>
          u in Members(before.groups.cache, k) || Groups.HasRow(before.groups, k, u))
  }

  /** Nothing is cached that the tables do not hold. */
  ghost predicate NothingStale(w: World) {
    && (forall u: UserId, v: UserId :: v in Members(w.friends.cache, u) ==> (u, v) in w.friends.rows)
    && (forall k: GroupId, u: UserId :: u in Members(w.groups.cache, k) ==> Groups.HasRow(w.groups, k, u))
  }

  /** Start-up makes caches and tables agree exactly when Redis held nothing stale: loading only adds. */
  lemma LoadAgreesIff(before: World, after: World)
    requires LoadedFrom(before, after)
    ensures Friends.Agrees(after.friends) && Groups.Agrees(after.groups) <==> NothingStale(before)
  {
    Groups.SameRows(before.groups, after.groups);
    hide Groups.HasRow;
    if Friends.Agrees(after.friends) && Groups.Agrees(after.groups) {
      forall u: UserId, v: UserId | v in Members(before.friends.cache, u)
        ensures (u, v) in before.friends.rows
      {
        assert v in Members(after.friends.cache, u);
      }
      forall k: GroupId, u: UserId | u in Members(before.groups.cache, k)
        ensures Groups.HasRow(before.groups, k, u)
      {
        assert u in Members(after.groups.cache, k);
      }
    }
  }

  lemma InvUnique(w: World)
    requires Inv(w)
    ensures Groups.Inv(w.users.Keys, w.groups) && Groups.Unique(w.groups)
  {
  }

  /** The order in which `AccountKiller` works. */
  lemma KillParts(w: World, u: UserId, archived: bool)
    requires Enabled(w, Kill(u, archived))
    ensures u != SYSTEM_ID
    ensures forall g | g in Groups.CreatedBy(w.groups, u) :: Groups.HasRow(w.groups, g, u)
    ensures var g := Groups.Erased(Groups.Dissolved(w.groups, Groups.CreatedBy(w.groups, u)), u);
      var f := Friends.Erased(w.users.Keys, w.friends, u);
      Next(w, Kill(u, archived)) == Killed(w, u, archived)
      == World(if archived || Referenced(f, g, u) then w.users else w.users - {u}, w.nextUser, f, g)
  {
  }

  // The class.

  class ChatServer {
    var users: map<UserId, string>
    var nextUser: UserId
    var friends: Friends.Side
    var groups: Groups.Side

    ghost function View(): World
      reads this
    {
      World(users, nextUser, friends, groups)
    }

    constructor (email: string)
      ensures View() == Installed(email)
    {
      users, nextUser := map[SYSTEM_ID := email], SYSTEM_ID + 1;
      friends := Friends.Side({}, {}, map[]);
      groups := Groups.Side(map[], 1, map[], 1, {}, map[]);
    }

    /** `initCache`: both tables into Redis, on top of whatever Redis held. */
    method InitCache()
      modifies `friends, `groups
      ensures LoadedFrom(old(View()), View())
    {
      var loaded := LoadSets(friends.rows, friends.cache);
      friends := friends.(cache := loaded);
      var pairs := set id | id in groups.rows :: (groups.rows[id].group, groups.rows[id].user);
      ghost var before := groups;
      loaded := LoadSets(pairs, groups.cache);
      groups := groups.(cache := loaded);
      forall k: GroupId, u: UserId
        ensures (k, u) in pairs <==> Groups.HasRow(before, k, u)
      {
        if Groups.HasRow(before, k, u) {
          ghost var id :| Groups.RowOf(before, id, k, u);
          assert (before.rows[id].group, before.rows[id].user) in pairs;
        }
        if (k, u) in pairs {
          ghost var id :| id in before.rows && (before.rows[id].group, before.rows[id].user) == (k, u);
          assert Groups.RowOf(before, id, k, u);
        }
      }
    }

    // Single statements of the handlers.

    method FriendsSadd(u: UserId, f: UserId)
      modifies `friends
      ensures friends == Friends.CacheAdd(old(friends), u, f)
    {
      friends := friends.(cache := Sadd(friends.cache, u, f));
    }

    method FriendsSrem(u: UserId, f: UserId)
      modifies `friends
      ensures friends == Friends.CacheRemove(old(friends), u, f)
    {
      friends := friends.(cache := Srem(friends.cache, u, f));
    }

    method InsertFriend(u: UserId, f: UserId)
      modifies `friends
      ensures friends == Friends.InsertRow(users.Keys, old(friends), u, f)
    {
      if u in users && f in users && (u, f) !in friends.rows {
        friends := friends.(rows := friends.rows + {(u, f)});
      }
    }

    method InsertMember(row: Groups.Row)
      modifies `groups
      ensures groups == Groups.InsertRow(users.Keys, old(groups), row)
    {
      if row.group in groups.groups && row.user in users {
        groups := groups.(rows := groups.rows[groups.nextRow := row], nextRow := groups.nextRow + 1);
      }
    }

    /** `select` of one membership, reading `result[0]`. */
    method SelectRole(g: GroupId, u: UserId) returns (found: bool, role: Groups.Role)
      requires Groups.Unique(groups)
      ensures found == Groups.HasRow(groups, g, u)
      ensures found ==> role == Groups.RoleOf(groups, g, u)
    {
      role := Groups.Member;
      var ids := set id | id in groups.rows && groups.rows[id].group == g && groups.rows[id].user == u;
      found := ids != {};
      if found {
        var id :| id in ids;
        assert Groups.RowOf(groups, id, g, u);
        role := groups.rows[id].role;
      }
      assert forall id | Groups.RowOf(groups, id, g, u) :: id in ids;
    }

    // The handlers.

    method RegisterAcker(email: string, codeOk: bool, insertOk: bool) returns (errno: int)
      requires Inv(View())
      modifies this
      ensures Inv(View()) && View() == Next(old(View()), Register(email, codeOk, insertOk))
      ensures errno == RegisterErrno(old(View()), email, codeOk, insertOk)
    {
      hide Inv;
      RegisterKeeps(View(), email, codeOk, insertOk);
      errno := if codeOk then 0 else 1;
      if exists u | u in users :: users[u] == email {
        errno := 2;
      }
      if errno == 0 {
        if insertOk {
          users, nextUser := users[nextUser := email], nextUser + 1;
          var userId :| userId in users && users[userId] == email;
          InsertFriend(userId, SYSTEM_ID);
          InsertFriend(SYSTEM_ID, userId);
          FriendsSadd(userId, SYSTEM_ID);
          FriendsSadd(SYSTEM_ID, userId);
        } else {
          errno := -1;
        }
      }
    }

    method FriendAdder(from: UserId, to: UserId) returns (errno: int)
      requires Inv(View()) && from in users
      modifies `friends
      ensures Inv(View()) && View() == Next(old(View()), AddFriend(from, to))
      ensures errno == Friends.AddErrno(users.Keys, old(friends), from, to)
    {
      hide Inv;
      NextKeeps(View(), AddFriend(from, to));
      if to !in users {
        errno := 1;
      } else if to == from {
        errno := 2;
      } else if to in Members(friends.cache, from) {
        errno := 3;
      } else if (from, to) in friends.requests {
        errno := 4;
      } else {
        friends := friends.(requests := friends.requests + {(from, to)});
        errno := 0;
      }
    }

    method FriendAddResponser(from: UserId, to: UserId, response: Response)
      requires Inv(View()) && Enabled(View(), AnswerFriend(from, to, response))
      modifies `friends
      ensures Inv(View()) && View() == Next(old(View()), AnswerFriend(from, to, response))
    {
      hide Inv;
      NextKeeps(View(), AnswerFriend(from, to, response));
      if response == Accept {
        FriendsSadd(from, to);
        FriendsSadd(to, from);
        InsertFriend(from, to);
        InsertFriend(to, from);
      }
      friends := friends.(requests := friends.requests - {(from, to)});
    }

    method FriendDeleter(from: UserId, to: UserId)
      requires Inv(View())
      modifies `friends
      ensures Inv(View()) && View() == Next(old(View()), DeleteFriend(from, to))
    {
      hide Inv;
      NextKeeps(View(), DeleteFriend(from, to));
      FriendsSrem(from, to);
      FriendsSrem(to, from);
      friends := friends.(rows := friends.rows - {(from, to)});
      friends := friends.(rows := friends.rows - {(to, from)});
    }

    method GroupCreater(creator: UserId) returns (group: GroupId)
      requires Inv(View()) && creator in users
      modifies `groups
      ensures Inv(View()) && View() == Next(old(View()), CreateGroup(creator))
      ensures group == old(groups).nextGroup
    {
      hide Inv;
      ghost var w := View();
      NextKeeps(w, CreateGroup(creator));
      assert Next(w, CreateGroup(creator)) == w.(groups := Groups.Created(users.Keys, groups, creator));
      hide Next, Enabled, Groups.InsertRow, Sadd;
      group := groups.nextGroup;
      groups := groups.(groups := groups.groups[group := creator], nextGroup := group + 1);
      groups := groups.(cache := Sadd(groups.cache, group, creator));
      InsertMember(Groups.Row(group, creator, Groups.Owner));
    }

    /** The loop of `GroupAdder`: one `group_requests` row per administrator. */
    method InsertGroupRequests(from: UserId, g: GroupId)
      modifies `groups
      ensures groups == old(groups).(requests :=
        old(groups).requests + set a | a in Groups.Admins(old(groups), g) :: Groups.Request(from, a, g))
    {
      ghost var before := groups;
      var admins := Groups.Admins(groups, g);
      var todo := admins;
      while todo != {}
        invariant todo <= admins
        invariant groups == before.(requests :=
          before.requests + set a | a in admins - todo :: Groups.Request(from, a, g))
      {
        var admin :| admin in todo;
        groups := groups.(requests := groups.requests + {Groups.Request(from, admin, g)});
        todo := todo - {admin};
        assert admins - todo == (admins - (todo + {admin})) + {admin};
      }
      assert admins - {} == admins;
    }

    method GroupAdder(from: UserId, g: GroupId) returns (errno: int)
      requires Inv(View()) && from in users
      modifies `groups
      ensures Inv(View()) && View() == Next(old(View()), JoinGroup(from, g))
      ensures errno == Groups.JoinErrno(old(groups), from, g)
    {
      hide Inv;
      NextKeeps(View(), JoinGroup(from, g));
      if g !in groups.groups {
        errno := 1;
      } else if from in Members(groups.cache, g) {
        errno := 2;
      } else if exists r | r in groups.requests :: r.from == from && r.group == g {
        errno := 3;
      } else {
        InsertGroupRequests(from, g);
        errno := 0;
      }
    }

    method GroupAddResponser(user: UserId, from: UserId, g: GroupId, response: Response)
      requires Inv(View()) && Enabled(View(), AnswerJoin(user, from, g, response))
      modifies `groups
      ensures Inv(View()) && View() == Next(old(View()), AnswerJoin(user, from, g, response))
    {
      hide Inv, Groups.Unique;
      ghost var w := View();
      InvUnique(w);
      NextKeeps(w, AnswerJoin(user, from, g, response));
      assert Next(w, AnswerJoin(user, from, g, response)) ==
        w.(groups := Groups.Answered(users.Keys, groups, user, from, g, response));
      var found, role := SelectRole(g, user);
      hide Next, Enabled, Groups.HasRow, Groups.RoleOf, Groups.InsertRow, Sadd;
      if !found {
        return;
      }
      if role == Groups.Member {
        return;
      }
      if response == Accept {
        groups := groups.(cache := Sadd(groups.cache, g, from));
        InsertMember(Groups.Row(g, from, Groups.Member));
      }
      groups := groups.(requests := set r | r in groups.requests && !(r.from == from && r.group == g));
    }

    method GroupExiter(user: UserId, g: GroupId)
      requires Inv(View()) && Groups.HasRow(groups, g, user)
      modifies `groups
      ensures Inv(View()) && View() == Next(old(View()), ExitGroup(user, g))
    {
      hide Inv, Groups.Unique;
      ghost var w := View();
      InvUnique(w);
      NextKeeps(w, ExitGroup(user, g));
      assert Next(w, ExitGroup(user, g)) == w.(groups := Groups.Exited(groups, user, g));
      DissolveOne(groups, g);
      var _, role := SelectRole(g, user);
      hide Next, Enabled, Groups.Dissolved, Groups.DeleteRows, Groups.DeleteAllRows, Groups.HasRow, Groups.RoleOf, Srem;
      if role == Groups.Member || role == Groups.Admin {
        groups := groups.(cache := Srem(groups.cache, g, user));
        groups := Groups.DeleteRows(groups, g, user);
      } else {
        groups := groups.(cache := Del(groups.cache, g));
        groups := Groups.DeleteAllRows(groups, g);
        if !Groups.Requested(groups, g) {
          groups := groups.(groups := groups.groups - {g});
        }
      }
    }

    method MemberKicker(user: UserId, kicked: UserId, g: GroupId)
      requires Inv(View()) && Enabled(View(), Kick(user, kicked, g))
      modifies `groups
      ensures Inv(View()) && View() == Next(old(View()), Kick(user, kicked, g))
    {
      hide Inv, Groups.Unique;
      ghost var w := View();
      InvUnique(w);
      NextKeeps(w, Kick(user, kicked, g));
      assert Next(w, Kick(user, kicked, g)) == w.(groups := Groups.Kicked(groups, user, kicked, g));
      if kicked == user {
        return;
      }
      var found, role := SelectRole(g, user);
      if !found {
        return;
      }
      var _, kickRole := SelectRole(g, kicked);
      hide Next, Enabled, Groups.HasRow, Groups.RoleOf, Groups.DeleteRows, Srem;
      if (role != Groups.Member && kickRole == Groups.Member) || role == Groups.Owner {
        groups := groups.(cache := Srem(groups.cache, g, kicked));
        groups := Groups.DeleteRows(groups, g, kicked);
      }
    }

    method AdminAdder(user: UserId, to: UserId, g: GroupId)
      requires Inv(View()) && Groups.HasRow(groups, g, to)
      modifies `groups
      ensures Inv(View()) && View() == Next(old(View()), Promote(user, to, g))
    {
      hide Inv, Groups.Unique;
      ghost var w := View();
      InvUnique(w);
      NextKeeps(w, Promote(user, to, g));
      assert Next(w, Promote(user, to, g)) == w.(groups := Groups.Promoted(groups, user, to, g));
      var _, role := SelectRole(g, to);
      hide Next, Enabled, Groups.HasRow, Groups.RoleOf, Groups.SetRole;
      if g in groups.groups && groups.groups[g] == user && to != user && role == Groups.Member {
        groups := Groups.SetRole(groups, g, to, Groups.Admin);
      }
    }

    method AdminRemover(user: UserId, to: UserId, g: GroupId)
      requires Inv(View()) && Groups.HasRow(groups, g, to)
      modifies `groups
      ensures Inv(View()) && View() == Next(old(View()), Demote(user, to, g))
    {
      hide Inv, Groups.Unique;
      ghost var w := View();
      InvUnique(w);
      NextKeeps(w, Demote(user, to, g));
      assert Next(w, Demote(user, to, g)) == w.(groups := Groups.Demoted(groups, user, to, g));
      var _, role := SelectRole(g, to);
      hide Next, Enabled, Groups.HasRow, Groups.RoleOf, Groups.SetRole;
      if g in groups.groups && groups.groups[g] == user && to != user && role == Groups.Admin {
        groups := Groups.SetRole(groups, g, to, Groups.Member);
      }
    }

    method AccountKiller(u: UserId, archived: bool)
      requires Inv(View()) && Enabled(View(), Kill(u, archived))
      modifies this
      ensures Inv(View()) && View() == Next(old(View()), Kill(u, archived))
    {
      hide Inv, Enabled, Next, Killed, Referenced;
      hide Groups.Dissolved, Groups.CreatedBy, Groups.Erased, Groups.HasRow, Friends.Erased;
      KillParts(View(), u, archived);
      KillKeeps(View(), u, archived);
      DissolveOwnGroups(u);
      EraseFriends(u);
      EraseGroups(u);
      if !(archived || Referenced(friends, groups, u)) {
        users := users - {u};
      }
    }

    /** Requests and friendships of the account, in tables and caches. */
    method EraseFriends(u: UserId)
      modifies `friends
      ensures friends == Friends.Erased(users.Keys, old(friends), u)
    {
      friends := friends.(requests := set p | p in friends.requests && p.0 != u && p.1 != u);
      friends := friends.(rows := set p | p in friends.rows && p.0 != u && p.1 != u);
      friends := friends.(cache := Del(friends.cache, u));
      ForgetFriend(u);
    }

    /** Group requests and memberships of the account, in tables and caches. */
    method EraseGroups(u: UserId)
      modifies `groups
      ensures groups == Groups.Erased(old(groups), u)
    {
      groups := groups.(requests := set r | r in groups.requests && r.from != u && r.to != u);
      groups := groups.(rows := map id | id in groups.rows && groups.rows[id].user != u :: groups.rows[id]);
      ForgetMember(u);
    }

    /** The first loop of `AccountKiller`: `GroupExiter` on every group the user created. */
    method DissolveOwnGroups(u: UserId)
      requires Inv(View()) && forall g | g in Groups.CreatedBy(groups, u) :: Groups.HasRow(groups, g, u)
      modifies `groups
      ensures groups == Groups.Dissolved(old(groups), Groups.CreatedBy(old(groups), u))
    {
      ghost var before := groups;
      var mine := Groups.CreatedBy(groups, u);
      hide Groups.Inv, Friends.Inv, Groups.Dissolved, Groups.Exited, Groups.HasRow, Groups.CreatedBy;
      DissolveNone(before);
      var todo := mine;
      assert mine - todo == {};
      while todo != {}
        invariant todo <= mine
        invariant Inv(View()) && groups == Groups.Dissolved(before, mine - todo)
      {
        var g :| g in todo;
        OwnGroupExit(users.Keys, before, mine - todo, g, u);
        GroupExiter(u, g);
        assert mine - (todo - {g}) == (mine - todo) + {g};
        todo := todo - {g};
      }
      assert mine - {} == mine;
    }

    /** The loop over `users` that removes the account from every friend's Redis set. */
    method ForgetFriend(u: UserId)
      modifies `friends
      ensures friends == old(friends).(cache := SremAll(old(friends).cache, users.Keys, u))
    {
      ghost var before := friends;
      var todo := users.Keys;
      while todo != {}
        invariant todo <= users.Keys
        invariant friends == before.(cache := SremAll(before.cache, users.Keys - todo, u))
      {
        var id :| id in todo;
        FriendsSrem(id, u);
        todo := todo - {id};
        assert users.Keys - todo == (users.Keys - (todo + {id})) + {id};
      }
      assert users.Keys - {} == users.Keys;
    }

    /** The loop over `groups` that removes the account from every group's Redis set. */
    method ForgetMember(u: UserId)
      modifies `groups
      ensures groups == old(groups).(cache := SremAll(old(groups).cache, old(groups).groups.Keys, u))
    {
      ghost var before := groups;
      var all := groups.groups.Keys;
      var todo := all;
      while todo != {}
        invariant todo <= all
        invariant groups == before.(cache := SremAll(before.cache, all - todo, u))
      {
        var g :| g in todo;
        groups := groups.(cache := Srem(groups.cache, g, u));
        todo := todo - {g};
        assert all - todo == (all - (todo + {g})) + {g};
      }
      assert all - {} == all;
    }
  }

  /** Leaving one more of his own groups is dissolving one more group. */
  lemma OwnGroupExit(users: set<UserId>, s: Groups.Side, done: set<GroupId>, g: GroupId, u: UserId)
    requires Groups.Inv(users, s) && g in Groups.CreatedBy(s, u) && g !in done && Groups.HasRow(s, g, u)
    ensures var d := Groups.Dissolved(s, done);
      Groups.HasRow(d, g, u) && Groups.Exited(d, u, g) == Groups.Dissolved(s, done + {g})
  {
    var d := Groups.Dissolved(s, done);
    Groups.DissolveKeeps(users, s, done);
    Groups.DissolveShape(s, done, g, u);
    assert g in d.groups && d.groups[g] == u;
    Groups.ExitKeeps(users, d, u, g);
    DissolveMore(s, done, g);
  }

  lemma DissolveNone(s: Groups.Side)
    ensures Groups.Dissolved(s, {}) == s
  {
  }

  lemma DissolveOne(s: Groups.Side, g: GroupId)
    ensures Groups.Dissolved(s, {g}) ==
      Groups.DeleteGroup(Groups.DeleteAllRows(s.(cache := Del(s.cache, g)), g), g)
  {
  }

  lemma DissolveMore(s: Groups.Side, gs: set<GroupId>, g: GroupId)
    ensures Groups.Dissolved(Groups.Dissolved(s, gs), {g}) == Groups.Dissolved(s, gs + {g})
  {
  }
}
