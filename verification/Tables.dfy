/** What each handler does to the tables, row by row: a second definition of the handlers, against which the
    first one, in order of their statements, is checked. */
module Tables {
  import opened Common
  import opened Redis
  import Friends
  import Groups
  import opened Server

  type GroupRequest = Groups.Request

  ghost predicate IsMember(w: World, g: GroupId, u: UserId) {
    Groups.HasRow(w.groups, g, u)
  }

  ghost predicate HasRole(w: World, g: GroupId, u: UserId, role: Groups.Role) {
    Groups.HasRow(w.groups, g, u) && Groups.RoleOf(w.groups, g, u) == role
  }

  /** Administrators and the owner. */
  ghost predicate Leads(w: World, g: GroupId, u: UserId) {
    HasRole(w, g, u, Groups.Admin) || HasRole(w, g, u, Groups.Owner)
  }

  predicate Registers(w: World, e: Event) {
    e.Register? && (forall u | u in w.users :: w.users[u] != e.email) && e.codeOk && e.insertOk
  }

  predicate SamePair(a: UserId, b: UserId, c: UserId, d: UserId) {
    (a == c && b == d) || (a == d && b == c)
  }

  /** Who are friends after `e`. */
  predicate FriendsThen(w: World, e: Event, u: UserId, v: UserId) {
    var now := (u, v) in w.friends.rows;
    match e
    case Register(_, _, _) => now || (Registers(w, e) && SamePair(u, v, w.nextUser, SYSTEM_ID))
    case AnswerFriend(from, to, response) => now || (response.Accept? && SamePair(u, v, from, to))
    case DeleteFriend(from, to) => now && !SamePair(u, v, from, to)
    case Kill(x, _) => now && u != x && v != x
    case _ => now
  }

  /** Who waits for whose friendship after `e`. */
  predicate AsksThen(w: World, e: Event, u: UserId, v: UserId) {
    var now := (u, v) in w.friends.requests;
    match e
    case AddFriend(from, to) => now || (u == from && v == to && v in w.users && u != v && (u, v) !in w.friends.rows)
    case AnswerFriend(from, to, _) => now && !(u == from && v == to)
    case Kill(x, _) => now && u != x && v != x
    case _ => now
  }

  /** Who is in which group after `e`. */
  ghost predicate MemberThen(w: World, e: Event, k: GroupId, u: UserId) {
    var now := IsMember(w, k, u);
    match e
    case CreateGroup(creator) => now || (k == w.groups.nextGroup && u == creator)
    case AnswerJoin(user, from, g, response) => now || (response.Accept? && k == g && u == from && Leads(w, g, user))
    case ExitGroup(user, g) => now && !(k == g && (u == user || HasRole(w, g, user, Groups.Owner)))
    case Kick(user, kicked, g) => now && !(k == g && u == kicked && Outranks(w, g, user, kicked))
    case Kill(x, _) => now && u != x && !(k in w.groups.groups && w.groups.groups[k] == x)
    case _ => now
  }

  ghost predicate Outranks(w: World, g: GroupId, u: UserId, v: UserId) {
    || (Leads(w, g, u) && HasRole(w, g, v, Groups.Member))
    || (HasRole(w, g, u, Groups.Owner) && HasRole(w, g, v, Groups.Admin))
  }

  /** In which role. */
  ghost predicate RoleThen(w: World, e: Event, k: GroupId, u: UserId, role: Groups.Role) {
    match e
    case CreateGroup(creator) => if k == w.groups.nextGroup then role == Groups.Owner else HasRole(w, k, u, role)
    case AnswerJoin(_, from, g, _) => if IsMember(w, k, u) then HasRole(w, k, u, role) else role == Groups.Member
    case Promote(user, to, g) =>
      if k == g && u == to && HasRole(w, g, user, Groups.Owner) && HasRole(w, g, to, Groups.Member)
      then role == Groups.Admin
      else HasRole(w, k, u, role)
    case Demote(user, to, g) =>
      if k == g && u == to && HasRole(w, g, user, Groups.Owner) && HasRole(w, g, to, Groups.Admin)
      then role == Groups.Member
      else HasRole(w, k, u, role)
    case _ => HasRole(w, k, u, role)
  }

  /** Which requests for admission wait after `e`. */
  ghost predicate JoinsThen(w: World, e: Event, r: GroupRequest) {
    var now := r in w.groups.requests;
    match e
    case JoinGroup(from, g) => now || (r.from == from && r.group == g && MayAsk(w, from, g) && Leads(w, g, r.to))
    case AnswerJoin(user, from, g, _) => now && !(r.from == from && r.group == g && Leads(w, g, user))
    case Kill(x, _) => now && r.from != x && r.to != x
    case _ => now
  }

  ghost predicate MayAsk(w: World, from: UserId, g: GroupId) {
    && g in w.groups.groups && !IsMember(w, g, from)
    && !exists r :: r in w.groups.requests && r.from == from && r.group == g
  }

  predicate AskedFor(w: World, k: GroupId) {
    exists r :: r in w.groups.requests && r.group == k
  }

  /** Which groups have a row, and whose they are. */
  ghost predicate GroupThen(w: World, e: Event, k: GroupId, creator: UserId) {
    var now := k in w.groups.groups && w.groups.groups[k] == creator;
    match e
    case CreateGroup(c) => if k == w.groups.nextGroup then creator == c else now
    case ExitGroup(user, g) => now && !(k == g && HasRole(w, g, user, Groups.Owner) && !AskedFor(w, k))
    case Kill(x, _) => now && !(creator == x && !AskedFor(w, k))
    case _ => now
  }

  /** Which accounts exist, and with which address. */
  predicate AccountThen(w: World, e: Event, u: UserId, email: string) {
    var now := u in w.users && w.users[u] == email;
    match e
    case Register(mail, _, _) => now || (Registers(w, e) && u == w.nextUser && email == mail)
    case Kill(x, archived) => now && (u != x || archived || OwnGroupRequested(w.groups, x))
    case _ => now
  }

  // Friends.

  /** The two tables of the friendship side are as defined above. */
  ghost predicate FriendsMatch(w: World, e: Event, d: Friends.Side) {
    && (forall u: UserId, v: UserId :: (u, v) in d.rows <==> FriendsThen(w, e, u, v))
    && (forall u: UserId, v: UserId :: (u, v) in d.requests <==> AsksThen(w, e, u, v))
  }

  lemma RegisterMatches(w: World, e: Event)
    requires Inv(w) && e.Register?
    ensures FriendsMatch(w, e, Registered(w, e.email, e.codeOk, e.insertOk).friends)
  {
    hide Groups.Inv;
  }

  lemma AskMatches(w: World, e: Event)
    requires Inv(w) && e.AddFriend?
    ensures FriendsMatch(w, e, Friends.Asked(w.users.Keys, w.friends, e.from, e.to))
  {
    hide Groups.Inv;
  }

  lemma AnswerMatches(w: World, e: Event)
    requires Inv(w) && e.AnswerFriend? && (e.friendResponse.Accept? ==> (e.from, e.to) in w.friends.requests)
    ensures FriendsMatch(w, e, Friends.Answered(w.users.Keys, w.friends, e.from, e.to, e.friendResponse))
  {
    hide Groups.Inv;
  }

  lemma UnfriendMatches(w: World, e: Event)
    requires e.DeleteFriend?
    ensures FriendsMatch(w, e, Friends.Unfriended(w.friends, e.from, e.to))
  {
  }

  lemma KillMatches(w: World, e: Event)
    requires e.Kill?
    ensures FriendsMatch(w, e, Killed(w, e.user, e.archived).friends)
  {
    hide Groups.Dissolved, Groups.Erased, Groups.CreatedBy, Referenced;
  }

  lemma OthersMatch(w: World, e: Event)
    requires !e.Register? && !e.AddFriend? && !e.AnswerFriend? && !e.DeleteFriend? && !e.Kill?
    ensures FriendsMatch(w, e, w.friends)
  {
  }

  lemma FriendsAfter(w: World, e: Event)
    requires Inv(w) && Enabled(w, e)
    ensures forall u: UserId, v: UserId :: (u, v) in Next(w, e).friends.rows <==> FriendsThen(w, e, u, v)
    ensures forall u: UserId, v: UserId :: (u, v) in Next(w, e).friends.requests <==> AsksThen(w, e, u, v)
  {
    hide Inv, FriendsThen, AsksThen;
    hide Registered, Killed, Friends.Asked, Friends.Answered, Friends.Unfriended;
    match e
    case Register(_, _, _) => RegisterMatches(w, e);
    case AddFriend(_, _) => AskMatches(w, e);
    case AnswerFriend(_, _, _) => AnswerMatches(w, e);
    case DeleteFriend(_, _) => UnfriendMatches(w, e);
    case Kill(_, _) => KillMatches(w, e);
    case _ => OthersMatch(w, e);
  }

  // Accounts.

  lemma AccountsAfter(w: World, e: Event)
    requires Inv(w) && Enabled(w, e)
    ensures forall u: UserId, email: string ::
      u in Next(w, e).users && Next(w, e).users[u] == email <==> AccountThen(w, e, u, email)
    ensures Next(w, e).nextUser == w.nextUser + if Registers(w, e) then 1 else 0
  {
    hide Groups.Inv, Friends.Inv;
    if e.Kill? {
      UsersRowStays(w, e.user);
    }
  }

  // Groups.

  ghost predicate MembersMatch(w: World, e: Event, d: Groups.Side) {
    forall k: GroupId, u: UserId :: Groups.HasRow(d, k, u) <==> MemberThen(w, e, k, u)
  }

  ghost predicate RolesMatch(w: World, e: Event, d: Groups.Side) {
    forall k: GroupId, u: UserId | Groups.HasRow(d, k, u) :: RoleThen(w, e, k, u, Groups.RoleOf(d, k, u))
  }

  ghost predicate JoinsMatch(w: World, e: Event, d: Groups.Side) {
    forall r: GroupRequest :: r in d.requests <==> JoinsThen(w, e, r)
  }

  ghost predicate GroupsMatch(w: World, e: Event, d: Groups.Side) {
    && (forall k: GroupId :: k in d.groups ==> GroupThen(w, e, k, d.groups[k]))
    && (forall k: GroupId, c: UserId :: GroupThen(w, e, k, c) ==> k in d.groups && d.groups[k] == c)
  }

  ghost predicate GroupSideMatches(w: World, e: Event, d: Groups.Side) {
    MembersMatch(w, e, d) && RolesMatch(w, e, d) && JoinsMatch(w, e, d) && GroupsMatch(w, e, d)
  }

  lemma RolesStay(w: World, e: Event, d: Groups.Side)
    requires !e.CreateGroup? && !e.Promote? && !e.Demote?
    requires forall k: GroupId, u: UserId | Groups.HasRow(d, k, u) ::
      Groups.HasRow(w.groups, k, u) && Groups.RoleOf(d, k, u) == Groups.RoleOf(w.groups, k, u)
    ensures RolesMatch(w, e, d)
  {
    hide Groups.HasRow, Groups.RoleOf;
  }

  lemma JoinsStay(w: World, e: Event, d: Groups.Side)
    requires !e.JoinGroup? && !e.AnswerJoin? && !e.Kill? && d.requests == w.groups.requests
    ensures JoinsMatch(w, e, d)
  {
  }

  lemma GroupsStay(w: World, e: Event, d: Groups.Side)
    requires !e.CreateGroup? && !e.ExitGroup? && !e.Kill? && d.groups == w.groups.groups
    ensures GroupsMatch(w, e, d)
  {
  }

  /** A member whose rows are old ones has his old role. */
  lemma RoleKept(s: Groups.Side, d: Groups.Side, k: GroupId, u: UserId)
    requires Groups.Unique(s) && Groups.Unique(d) && Groups.HasRow(d, k, u)
    requires forall id | Groups.RowOf(d, id, k, u) :: Groups.RowOf(s, id, k, u) && s.rows[id].role == d.rows[id].role
    ensures Groups.HasRow(s, k, u) && Groups.RoleOf(d, k, u) == Groups.RoleOf(s, k, u)
  {
    var id :| Groups.RowOf(d, id, k, u);
    Groups.RoleIs(d, id, k, u);
    Groups.RoleIs(s, id, k, u);
  }

  /** Where only rows were deleted, roles stay. */
  lemma RolesShrunk(s: Groups.Side, d: Groups.Side)
    requires Groups.Unique(s) && Groups.Unique(d) && Groups.Shrunk(s, d)
    ensures forall k: GroupId, u: UserId | Groups.HasRow(d, k, u) ::
      Groups.HasRow(s, k, u) && Groups.RoleOf(d, k, u) == Groups.RoleOf(s, k, u)
  {
    hide Groups.Unique;
    forall k: GroupId, u: UserId | Groups.HasRow(d, k, u)
      ensures Groups.HasRow(s, k, u) && Groups.RoleOf(d, k, u) == Groups.RoleOf(s, k, u)
    {
      RoleKept(s, d, k, u);
    }
  }

  /** One more member: the others keep their roles. */
  lemma RolesJoined(s: Groups.Side, row: Groups.Row)
    requires Groups.Unique(s) && s.nextRow !in s.rows && !Groups.HasRow(s, row.group, row.user)
    ensures var d := Groups.Joined(s, row);
      && Groups.HasRow(d, row.group, row.user) && Groups.RoleOf(d, row.group, row.user) == row.role
      && forall k: GroupId, u: UserId | Groups.HasRow(d, k, u) && !(k == row.group && u == row.user) ::
           Groups.HasRow(s, k, u) && Groups.RoleOf(d, k, u) == Groups.RoleOf(s, k, u)
  {
    var d := Groups.Joined(s, row);
    Groups.JoinedUnique(s, row);
    assert Groups.RowOf(d, s.nextRow, row.group, row.user);
    Groups.RoleIs(d, s.nextRow, row.group, row.user);
    hide Groups.Unique;
    forall k: GroupId, u: UserId | Groups.HasRow(d, k, u) && !(k == row.group && u == row.user)
      ensures Groups.HasRow(s, k, u) && Groups.RoleOf(d, k, u) == Groups.RoleOf(s, k, u)
    {
      RoleKept(s, d, k, u);
    }
  }

  /** In a group of which `u` has the owner's role, he is the creator; and the creator has it. */
  lemma OwnerMeansCreator(w: World, g: GroupId, u: UserId)
    requires Inv(w) && Groups.HasRow(w.groups, g, u)
    ensures g in w.groups.groups && (Groups.RoleOf(w.groups, g, u) == Groups.Owner <==> w.groups.groups[g] == u)
  {
    var id :| Groups.RowOf(w.groups, id, g, u);
    Groups.RoleIs(w.groups, id, g, u);
    assert w.groups.rows[id].role == Groups.Owner <==> u == w.groups.groups[g];
  }

  lemma InvUniqueRows(w: World)
    requires Inv(w)
    ensures Groups.Inv(w.users.Keys, w.groups) && Groups.Unique(w.groups)
  {
  }

  // Founding.

  lemma CreatedRows(w: World, creator: UserId)
    requires Inv(w) && creator in w.users
    ensures var s, d, g := w.groups, Groups.Created(w.users.Keys, w.groups, creator), w.groups.nextGroup;
      && d.requests == s.requests && d.groups == s.groups[g := creator] && g !in s.groups
      && (forall k: GroupId, u: UserId ::
            Groups.HasRow(d, k, u) <==> Groups.HasRow(s, k, u) || (k == g && u == creator))
      && (forall u: UserId :: !Groups.HasRow(s, g, u))
      && Groups.RoleOf(d, g, creator) == Groups.Owner
      && (forall k: GroupId, u: UserId | Groups.HasRow(s, k, u) :: Groups.RoleOf(d, k, u) == Groups.RoleOf(s, k, u))
  {
    InvUniqueRows(w);
    hide Inv, Groups.RoleOf;
    var users, s, g := w.users.Keys, w.groups, w.groups.nextGroup;
    Groups.FoundKeeps(users, s, creator);
    NoRowsYet(users, s);
    var s1, row := Groups.Founded(s, creator), Groups.Row(g, creator, Groups.Owner);
    var d := Groups.Created(users, s, creator);
    assert d == Groups.Joined(s1, row);
    Groups.SameRows(s, s1);
    FoundedRoles(s, creator);
    hide Groups.HasRow, Groups.Inv;
    RolesJoined(s1, row);
    forall k: GroupId, u: UserId
      ensures Groups.HasRow(d, k, u) <==> Groups.HasRow(s1, k, u) || (k == g && u == creator)
    {
      Groups.JoinedRows(s1, row, k, u);
    }
  }

  lemma NoRowsYet(users: set<UserId>, s: Groups.Side)
    requires Groups.Inv(users, s)
    ensures s.nextGroup !in s.groups && forall u: UserId :: !Groups.HasRow(s, s.nextGroup, u)
  {
    assert forall id | id in s.rows :: s.rows[id].group != s.nextGroup;
  }

  lemma FoundedRoles(s: Groups.Side, creator: UserId)
    requires Groups.Unique(s)
    ensures forall k: GroupId, u: UserId | Groups.HasRow(Groups.Founded(s, creator), k, u) ::
      Groups.HasRow(s, k, u) && Groups.RoleOf(Groups.Founded(s, creator), k, u) == Groups.RoleOf(s, k, u)
  {
    RolesShrunk(s, Groups.Founded(s, creator));
  }

  lemma CreateMatches(w: World, e: Event)
    requires Inv(w) && e.CreateGroup? && e.creator in w.users
    ensures GroupSideMatches(w, e, Groups.Created(w.users.Keys, w.groups, e.creator))
  {
    hide Groups.HasRow, Groups.RoleOf, Groups.Created, Inv;
    CreatedRows(w, e.creator);
  }

  // Asking.

  lemma AdminsLead(w: World, g: GroupId, u: UserId)
    requires Inv(w)
    ensures u in Groups.Admins(w.groups, g) <==> Leads(w, g, u)
  {
    var s := w.groups;
    if u in Groups.Admins(s, g) {
      var id :| id in s.rows && s.rows[id].group == g && s.rows[id].role != Groups.Member && s.rows[id].user == u;
      Groups.RoleIs(s, id, g, u);
    }
    if Leads(w, g, u) {
      var id :| Groups.RowOf(s, id, g, u);
      Groups.RoleIs(s, id, g, u);
    }
  }

  lemma CacheTells(w: World, g: GroupId, u: UserId)
    requires Inv(w)
    ensures u in Members(w.groups.cache, g) <==> Groups.HasRow(w.groups, g, u)
  {
  }

  lemma JoiningRows(w: World, from: UserId, g: GroupId)
    requires Inv(w)
    ensures var s, d := w.groups, Groups.Joining(w.groups, from, g);
      && d.groups == s.groups && d.rows == s.rows
      && (forall r: GroupRequest :: r in d.requests <==>
            r in s.requests || (r.from == from && r.group == g && MayAsk(w, from, g) && Leads(w, g, r.to)))
  {
    CacheTells(w, g, from);
    forall u: UserId
      ensures u in Groups.Admins(w.groups, g) <==> Leads(w, g, u)
    {
      AdminsLead(w, g, u);
    }
    hide Inv, Groups.Admins, Leads, Groups.HasRow, Members;
  }

  /** The same rows say the same. */
  lemma SameSide(s: Groups.Side, d: Groups.Side)
    requires Groups.Unique(s) && d.rows == s.rows
    ensures forall k: GroupId, u: UserId :: Groups.HasRow(d, k, u) <==> Groups.HasRow(s, k, u)
    ensures forall k: GroupId, u: UserId | Groups.HasRow(d, k, u) :: Groups.RoleOf(d, k, u) == Groups.RoleOf(s, k, u)
  {
    Groups.SameRows(s, d);
    RolesShrunk(s, d);
  }

  lemma JoinMatches(w: World, e: Event)
    requires Inv(w) && e.JoinGroup?
    ensures GroupSideMatches(w, e, Groups.Joining(w.groups, e.from, e.group))
  {
    InvUniqueRows(w);
    hide Groups.HasRow, Groups.RoleOf, Groups.Joining, Inv, Leads, MayAsk, Groups.Unique;
    JoiningRows(w, e.from, e.group);
    SameSide(w.groups, Groups.Joining(w.groups, e.from, e.group));
  }

  // Answering.

  lemma AdmittedRows(w: World, from: UserId, g: GroupId)
    requires Inv(w) && Groups.Pending(w.groups, from, g)
    ensures var s, d := w.groups, Groups.Admitted(w.users.Keys, w.groups, from, g);
      && d.requests == s.requests && d.groups == s.groups && !Groups.HasRow(s, g, from) && Groups.Unique(d)
      && (forall k: GroupId, u: UserId :: Groups.HasRow(d, k, u) <==> Groups.HasRow(s, k, u) || (k == g && u == from))
      && Groups.RoleOf(d, g, from) == Groups.Member
      && (forall k: GroupId, u: UserId | Groups.HasRow(s, k, u) :: Groups.RoleOf(d, k, u) == Groups.RoleOf(s, k, u))
  {
    var s, row := w.groups, Groups.Row(g, from, Groups.Member);
    assert Groups.Admitted(w.users.Keys, s, from, g) == Groups.Joined(s, row);
    InvUniqueRows(w);
    hide Inv, Groups.RoleOf, Groups.HasRow, Groups.Admitted;
    RolesJoined(s, row);
    Groups.JoinedUnique(s, row);
    forall k: GroupId, u: UserId
      ensures Groups.HasRow(Groups.Joined(s, row), k, u) <==> Groups.HasRow(s, k, u) || (k == g && u == from)
    {
      Groups.JoinedRows(s, row, k, u);
    }
  }

  lemma AnsweredParts(w: World, e: Event)
    requires e.AnswerJoin?
    ensures var s := w.groups;
      var d := Groups.Answered(w.users.Keys, s, e.user, e.from, e.group, e.groupResponse);
      var s1 := if e.groupResponse.Accept? then Groups.Admitted(w.users.Keys, s, e.from, e.group) else s;
      && (!Leads(w, e.group, e.user) ==> d == s)
      && (Leads(w, e.group, e.user) ==>
            && d.rows == s1.rows && d.groups == s1.groups
            && forall r: GroupRequest ::
                 r in d.requests <==> r in s.requests && !(r.from == e.from && r.group == e.group))
  {
    hide Groups.HasRow, Groups.RoleOf, Groups.InsertRow;
    AdmitKeepsRequests(w.users.Keys, w.groups, e.from, e.group);
  }

  lemma AdmitKeepsRequests(users: set<UserId>, s: Groups.Side, from: UserId, g: GroupId)
    ensures Groups.Admitted(users, s, from, g).requests == s.requests
  {
  }

  lemma AdmitMatches(w: World, e: Event)
    requires Inv(w) && e.AnswerJoin? && e.groupResponse.Accept? && Groups.Pending(w.groups, e.from, e.group)
    requires Leads(w, e.group, e.user)
    ensures var d := Groups.Answered(w.users.Keys, w.groups, e.user, e.from, e.group, e.groupResponse);
      MembersMatch(w, e, d) && RolesMatch(w, e, d)
  {
    var s1 := Groups.Admitted(w.users.Keys, w.groups, e.from, e.group);
    var d := Groups.Answered(w.users.Keys, w.groups, e.user, e.from, e.group, e.groupResponse);
    AnsweredParts(w, e);
    hide Groups.HasRow, Groups.RoleOf, Groups.Answered, Groups.Admitted, Inv, Leads, Groups.Unique;
    AdmittedRows(w, e.from, e.group);
    SameSide(s1, d);
    AdmitMembers(w, e, s1, d);
    AdmitRoles(w, e, s1, d);
  }

  lemma AdmitMembers(w: World, e: Event, s1: Groups.Side, d: Groups.Side)
    requires e.AnswerJoin? && e.groupResponse.Accept? && Leads(w, e.group, e.user)
    requires forall k: GroupId, u: UserId ::
      Groups.HasRow(s1, k, u) <==> Groups.HasRow(w.groups, k, u) || (k == e.group && u == e.from)
    requires forall k: GroupId, u: UserId :: Groups.HasRow(d, k, u) <==> Groups.HasRow(s1, k, u)
    ensures MembersMatch(w, e, d)
  {
    hide Groups.HasRow, Groups.RoleOf, Leads;
  }

  lemma AdmitRoles(w: World, e: Event, s1: Groups.Side, d: Groups.Side)
    requires e.AnswerJoin? && !Groups.HasRow(w.groups, e.group, e.from)
    requires forall k: GroupId, u: UserId ::
      Groups.HasRow(s1, k, u) <==> Groups.HasRow(w.groups, k, u) || (k == e.group && u == e.from)
    requires Groups.RoleOf(s1, e.group, e.from) == Groups.Member
    requires forall k: GroupId, u: UserId | Groups.HasRow(w.groups, k, u) ::
      Groups.RoleOf(s1, k, u) == Groups.RoleOf(w.groups, k, u)
    requires forall k: GroupId, u: UserId :: Groups.HasRow(d, k, u) <==> Groups.HasRow(s1, k, u)
    requires forall k: GroupId, u: UserId | Groups.HasRow(d, k, u) :: Groups.RoleOf(d, k, u) == Groups.RoleOf(s1, k, u)
    ensures RolesMatch(w, e, d)
  {
    hide Groups.HasRow, Groups.RoleOf;
  }

  /** A rejection, or the answer of one who does not lead. */
  lemma RefuseMatches(w: World, e: Event)
    requires Inv(w) && e.AnswerJoin? && !(Leads(w, e.group, e.user) && e.groupResponse.Accept?)
    ensures var d := Groups.Answered(w.users.Keys, w.groups, e.user, e.from, e.group, e.groupResponse);
      MembersMatch(w, e, d) && RolesMatch(w, e, d)
  {
    var d := Groups.Answered(w.users.Keys, w.groups, e.user, e.from, e.group, e.groupResponse);
    InvUniqueRows(w);
    AnsweredParts(w, e);
    hide Groups.HasRow, Groups.RoleOf, Groups.Answered, Inv, Leads, Groups.Unique, RolesMatch;
    SameSide(w.groups, d);
    RolesStay(w, e, d);
  }

  lemma AnswerJoinMatches(w: World, e: Event)
    requires Inv(w) && e.AnswerJoin? && (e.groupResponse.Accept? ==> Groups.Pending(w.groups, e.from, e.group))
    ensures GroupSideMatches(w, e, Groups.Answered(w.users.Keys, w.groups, e.user, e.from, e.group, e.groupResponse))
  {
    var d := Groups.Answered(w.users.Keys, w.groups, e.user, e.from, e.group, e.groupResponse);
    hide Groups.Answered, Inv, MembersMatch, RolesMatch, GroupsMatch, Leads;
    if Leads(w, e.group, e.user) && e.groupResponse.Accept? {
      AdmitMatches(w, e);
    } else {
      RefuseMatches(w, e);
    }
    AnsweredParts(w, e);
    AdmitKeepsGroups(w.users.Keys, w.groups, e.from, e.group);
    GroupsStay(w, e, d);
  }

  lemma AdmitKeepsGroups(users: set<UserId>, s: Groups.Side, from: UserId, g: GroupId)
    ensures Groups.Admitted(users, s, from, g).groups == s.groups
  {
  }

  // Leaving, and being made to.

  lemma LeftRows(w: World, user: UserId, g: GroupId)
    requires Inv(w) && (g in w.groups.groups ==> user != w.groups.groups[g])
    ensures var s, d := w.groups, Groups.Left(w.groups, user, g);
      && d.requests == s.requests && d.groups == s.groups
      && (forall k: GroupId, u: UserId :: Groups.HasRow(d, k, u) <==> Groups.HasRow(s, k, u) && !(k == g && u == user))
      && (forall k: GroupId, u: UserId | Groups.HasRow(d, k, u) :: Groups.RoleOf(d, k, u) == Groups.RoleOf(s, k, u))
  {
    InvUniqueRows(w);
    var s, d := w.groups, Groups.Left(w.groups, user, g);
    Groups.ShrunkUnique(s, d);
    RolesShrunk(s, d);
    hide Inv, Groups.HasRow, Groups.RoleOf, Groups.Unique;
    forall k: GroupId, u: UserId
      ensures Groups.HasRow(d, k, u) <==> Groups.HasRow(s, k, u) && !(k == g && u == user)
    {
      Groups.LeaveShape(s, user, g, k, u);
    }
  }

  lemma DissolvedRows(w: World, gs: set<GroupId>)
    requires Inv(w)
    ensures var s, d := w.groups, Groups.Dissolved(w.groups, gs);
      && d.requests == s.requests
      && (forall k: GroupId :: k in d.groups <==> k in s.groups && (k !in gs || AskedFor(w, k)))
      && (forall k: GroupId | k in d.groups :: d.groups[k] == s.groups[k])
      && (forall k: GroupId, u: UserId :: Groups.HasRow(d, k, u) <==> Groups.HasRow(s, k, u) && k !in gs)
      && (forall k: GroupId, u: UserId | Groups.HasRow(d, k, u) :: Groups.RoleOf(d, k, u) == Groups.RoleOf(s, k, u))
  {
    InvUniqueRows(w);
    var s, d := w.groups, Groups.Dissolved(w.groups, gs);
    Groups.ShrunkUnique(s, d);
    RolesShrunk(s, d);
    hide Inv, Groups.HasRow, Groups.RoleOf, Groups.Unique;
    forall k: GroupId, u: UserId
      ensures Groups.HasRow(d, k, u) <==> Groups.HasRow(s, k, u) && k !in gs
    {
      Groups.DissolveShape(s, gs, k, u);
    }
  }

  lemma OwnerExitMembers(w: World, e: Event, d: Groups.Side)
    requires e.ExitGroup? && HasRole(w, e.group, e.user, Groups.Owner)
    requires forall k: GroupId, u: UserId ::
      Groups.HasRow(d, k, u) <==> Groups.HasRow(w.groups, k, u) && k !in {e.group}
    ensures MembersMatch(w, e, d)
  {
    hide Groups.HasRow, HasRole;
  }

  lemma OwnerExitGroups(w: World, e: Event, d: Groups.Side)
    requires e.ExitGroup? && HasRole(w, e.group, e.user, Groups.Owner)
    requires forall k: GroupId :: k in d.groups <==> k in w.groups.groups && (k !in {e.group} || AskedFor(w, k))
    requires forall k: GroupId | k in d.groups :: d.groups[k] == w.groups.groups[k]
    ensures GroupsMatch(w, e, d)
  {
    hide Groups.HasRow, HasRole, AskedFor;
  }

  lemma OwnerExitMatches(w: World, e: Event)
    requires Inv(w) && e.ExitGroup? && HasRole(w, e.group, e.user, Groups.Owner)
    ensures GroupSideMatches(w, e, Groups.Dissolved(w.groups, {e.group}))
  {
    var d := Groups.Dissolved(w.groups, {e.group});
    hide Groups.HasRow, HasRole, Groups.RoleOf, Groups.Dissolved, Inv, AskedFor;
    hide MembersMatch, JoinsMatch, RolesMatch, GroupsMatch;
    DissolvedRows(w, {e.group});
    OwnerExitMembers(w, e, d);
    OwnerExitGroups(w, e, d);
    RolesStay(w, e, d);
    JoinsStay(w, e, d);
  }

  lemma MemberExitMatches(w: World, e: Event)
    requires Inv(w) && e.ExitGroup? && !HasRole(w, e.group, e.user, Groups.Owner)
    requires e.group in w.groups.groups ==> e.user != w.groups.groups[e.group]
    ensures GroupSideMatches(w, e, Groups.Left(w.groups, e.user, e.group))
  {
    var d := Groups.Left(w.groups, e.user, e.group);
    hide Groups.HasRow, HasRole, Groups.RoleOf, Groups.Left, Inv, AskedFor, JoinsMatch, RolesMatch;
    LeftRows(w, e.user, e.group);
    RolesStay(w, e, d);
    JoinsStay(w, e, d);
  }

  lemma ExitMatches(w: World, e: Event)
    requires Inv(w) && e.ExitGroup? && Groups.HasRow(w.groups, e.group, e.user)
    ensures GroupSideMatches(w, e, Groups.Exited(w.groups, e.user, e.group))
  {
    OwnerMeansCreator(w, e.group, e.user);
    hide Groups.HasRow, Groups.RoleOf, Groups.Left, Groups.Dissolved, Inv, GroupSideMatches;
    if HasRole(w, e.group, e.user, Groups.Owner) {
      OwnerExitMatches(w, e);
    } else {
      MemberExitMatches(w, e);
    }
  }

  lemma KickMembers(w: World, e: Event, d: Groups.Side)
    requires e.Kick? && Outranks(w, e.group, e.user, e.kicked)
    requires forall k: GroupId, u: UserId ::
      Groups.HasRow(d, k, u) <==> Groups.HasRow(w.groups, k, u) && !(k == e.group && u == e.kicked)
    ensures MembersMatch(w, e, d)
  {
    hide Groups.HasRow, Outranks;
  }

  lemma KickSucceeds(w: World, e: Event)
    requires Inv(w) && e.Kick? && (e.group in w.groups.groups ==> e.kicked != w.groups.groups[e.group])
    requires Outranks(w, e.group, e.user, e.kicked)
    ensures GroupSideMatches(w, e, Groups.Left(w.groups, e.kicked, e.group))
  {
    var d := Groups.Left(w.groups, e.kicked, e.group);
    hide Groups.HasRow, Outranks, Groups.RoleOf, Groups.Left, Inv, MembersMatch, JoinsMatch, RolesMatch, GroupsMatch;
    LeftRows(w, e.kicked, e.group);
    KickMembers(w, e, d);
    RolesStay(w, e, d);
    JoinsStay(w, e, d);
    GroupsStay(w, e, d);
  }

  lemma KickFails(w: World, e: Event)
    requires e.Kick? && !Outranks(w, e.group, e.user, e.kicked)
    ensures GroupSideMatches(w, e, w.groups)
  {
    hide Groups.HasRow, Outranks, Groups.RoleOf, JoinsMatch, RolesMatch, GroupsMatch;
    RolesStay(w, e, w.groups);
    JoinsStay(w, e, w.groups);
    GroupsStay(w, e, w.groups);
  }

  lemma KickWorksIf(w: World, e: Event)
    requires Inv(w) && e.Kick?
    requires e.kicked != e.user && IsMember(w, e.group, e.user) ==> IsMember(w, e.group, e.kicked)
    ensures var s := w.groups;
      Groups.Kicked(s, e.user, e.kicked, e.group)
      == if Outranks(w, e.group, e.user, e.kicked) then Groups.Left(s, e.kicked, e.group) else s
    ensures Outranks(w, e.group, e.user, e.kicked) ==>
      e.group in w.groups.groups && w.groups.groups[e.group] != e.kicked
  {
    var s, g := w.groups, e.group;
    if Groups.HasRow(s, g, e.user) && Groups.HasRow(s, g, e.kicked) {
      OwnerMeansCreator(w, g, e.user);
      OwnerMeansCreator(w, g, e.kicked);
    }
    hide Groups.HasRow, Groups.RoleOf, Groups.Left, Inv;
  }

  lemma KickMatches(w: World, e: Event)
    requires Inv(w) && e.Kick?
    requires e.kicked != e.user && IsMember(w, e.group, e.user) ==> IsMember(w, e.group, e.kicked)
    ensures GroupSideMatches(w, e, Groups.Kicked(w.groups, e.user, e.kicked, e.group))
  {
    hide Groups.Kicked, Groups.HasRow, Groups.Left, Inv, Outranks, GroupSideMatches;
    KickWorksIf(w, e);
    if Outranks(w, e.group, e.user, e.kicked) {
      KickSucceeds(w, e);
    } else {
      KickFails(w, e);
    }
  }

  // Roles.

  lemma SetRoleUnique(s: Groups.Side, g: GroupId, to: UserId, role: Groups.Role)
    requires Groups.Unique(s)
    ensures Groups.Unique(Groups.SetRole(s, g, to, role))
  {
  }

  lemma SetRoleOne(s: Groups.Side, g: GroupId, to: UserId, role: Groups.Role, k: GroupId, u: UserId)
    requires Groups.Unique(s) && Groups.HasRow(s, k, u)
    ensures Groups.HasRow(Groups.SetRole(s, g, to, role), k, u)
    ensures Groups.RoleOf(Groups.SetRole(s, g, to, role), k, u)
      == if k == g && u == to then role else Groups.RoleOf(s, k, u)
  {
    SetRoleUnique(s, g, to, role);
    var id :| Groups.RowOf(s, id, k, u);
    var d := Groups.SetRole(s, g, to, role);
    assert Groups.RowOf(d, id, k, u);
    hide Groups.Unique, Groups.RoleOf;
    Groups.RoleIs(s, id, k, u);
    Groups.RoleIs(d, id, k, u);
  }

  lemma SetRoleMatches(w: World, g: GroupId, to: UserId, role: Groups.Role)
    requires Inv(w)
    ensures var s, d := w.groups, Groups.SetRole(w.groups, g, to, role);
      && d.requests == s.requests && d.groups == s.groups
      && (forall k: GroupId, u: UserId :: Groups.HasRow(d, k, u) <==> Groups.HasRow(s, k, u))
      && (forall k: GroupId, u: UserId | Groups.HasRow(s, k, u) ::
            Groups.RoleOf(d, k, u) == if k == g && u == to then role else Groups.RoleOf(s, k, u))
  {
    InvUniqueRows(w);
    hide Inv, Groups.HasRow, Groups.RoleOf, Groups.Unique;
    forall k: GroupId, u: UserId
      ensures Groups.HasRow(Groups.SetRole(w.groups, g, to, role), k, u) <==> Groups.HasRow(w.groups, k, u)
      ensures Groups.HasRow(w.groups, k, u) ==>
        Groups.RoleOf(Groups.SetRole(w.groups, g, to, role), k, u)
        == if k == g && u == to then role else Groups.RoleOf(w.groups, k, u)
    {
      Groups.SetRoleRows(w.groups, g, to, role, k, u);
      if Groups.HasRow(w.groups, k, u) {
        SetRoleOne(w.groups, g, to, role, k, u);
      }
    }
  }

  /** A group with a member has its creator as owner. */
  lemma CreatorOwns(w: World, g: GroupId, u: UserId, other: UserId)
    requires Inv(w) && Groups.HasRow(w.groups, g, other)
    ensures g in w.groups.groups && (w.groups.groups[g] == u <==> HasRole(w, g, u, Groups.Owner))
  {
    OwnerMeansCreator(w, g, other);
    MemberMeansCreator(w.users.Keys, w.groups, g);
    var id :| Groups.RowOf(w.groups, id, g, other);
    if Groups.HasRow(w.groups, g, u) {
      OwnerMeansCreator(w, g, u);
    }
  }

  lemma PromoteMatches(w: World, e: Event)
    requires Inv(w) && (e.Promote? || e.Demote?) && Groups.HasRow(w.groups, e.group, e.to)
    ensures e.Promote? ==> GroupSideMatches(w, e, Groups.Promoted(w.groups, e.user, e.to, e.group))
    ensures e.Demote? ==> GroupSideMatches(w, e, Groups.Demoted(w.groups, e.user, e.to, e.group))
  {
    hide Groups.HasRow, Groups.RoleOf, Groups.SetRole, Inv;
    CreatorOwns(w, e.group, e.user, e.to);
    CreatorOwns(w, e.group, e.to, e.to);
    SetRoleMatches(w, e.group, e.to, if e.Promote? then Groups.Admin else Groups.Member);
  }

  // Destroying an account.

  lemma ErasedRows(users: set<UserId>, s: Groups.Side, u: UserId)
    requires Groups.Inv(users, s)
    ensures var d := Groups.Erased(s, u);
      && d.groups == s.groups
      && (forall r: GroupRequest :: r in d.requests <==> r in s.requests && r.from != u && r.to != u)
      && (forall k: GroupId, v: UserId :: Groups.HasRow(d, k, v) <==> Groups.HasRow(s, k, v) && v != u)
      && (forall k: GroupId, v: UserId | Groups.HasRow(d, k, v) :: Groups.RoleOf(d, k, v) == Groups.RoleOf(s, k, v))
  {
    var d := Groups.Erased(s, u);
    Groups.ShrunkUnique(s, d);
    RolesShrunk(s, d);
    hide Groups.HasRow, Groups.RoleOf, Groups.Unique;
    forall k: GroupId, v: UserId
      ensures Groups.HasRow(d, k, v) <==> Groups.HasRow(s, k, v) && v != u
    {
      Groups.EraseShape(users, s, u, k, v);
    }
  }

  lemma KillMembers(w: World, e: Event, s1: Groups.Side, d: Groups.Side)
    requires e.Kill?
    requires forall k: GroupId, u: UserId ::
      Groups.HasRow(s1, k, u) <==> Groups.HasRow(w.groups, k, u) && k !in Groups.CreatedBy(w.groups, e.user)
    requires forall k: GroupId, u: UserId :: Groups.HasRow(d, k, u) <==> Groups.HasRow(s1, k, u) && u != e.user
    ensures MembersMatch(w, e, d)
  {
    hide Groups.HasRow;
  }

  lemma KillJoins(w: World, e: Event, s1: Groups.Side, d: Groups.Side)
    requires e.Kill? && s1.requests == w.groups.requests
    requires forall r: GroupRequest :: r in d.requests <==> r in s1.requests && r.from != e.user && r.to != e.user
    ensures JoinsMatch(w, e, d)
  {
  }

  lemma KillGroupRows(w: World, e: Event, s1: Groups.Side, d: Groups.Side)
    requires e.Kill? && d.groups == s1.groups
    requires forall k: GroupId :: k in s1.groups <==>
      k in w.groups.groups && (k !in Groups.CreatedBy(w.groups, e.user) || AskedFor(w, k))
    requires forall k: GroupId | k in s1.groups :: s1.groups[k] == w.groups.groups[k]
    ensures GroupsMatch(w, e, d)
  {
    hide AskedFor;
  }

  lemma KillGroupsMatch(w: World, e: Event)
    requires Inv(w) && e.Kill?
    ensures GroupSideMatches(w, e, Killed(w, e.user, e.archived).groups)
  {
    InvUniqueRows(w);
    var s, gs := w.groups, Groups.CreatedBy(w.groups, e.user);
    var s1 := Groups.Dissolved(s, gs);
    var d := Groups.Erased(s1, e.user);
    assert Killed(w, e.user, e.archived).groups == d;
    hide Groups.HasRow, Groups.RoleOf, Groups.Dissolved, Groups.Erased, Groups.Inv, Inv, AskedFor, Killed;
    hide MembersMatch, RolesMatch, JoinsMatch, GroupsMatch;
    Groups.DissolveKeeps(w.users.Keys, s, gs);
    DissolvedRows(w, gs);
    ErasedRows(w.users.Keys, s1, e.user);
    RolesStay(w, e, d);
    KillMembers(w, e, s1, d);
    KillJoins(w, e, s1, d);
    KillGroupRows(w, e, s1, d);
  }

  lemma OtherGroupsMatch(w: World, e: Event)
    requires e.Register? || e.AddFriend? || e.AnswerFriend? || e.DeleteFriend?
    ensures GroupSideMatches(w, e, w.groups)
  {
    hide Groups.HasRow, Groups.RoleOf;
  }

  /** Members, roles, requests and groups after every handler. */
  lemma GroupsAfter(w: World, e: Event)
    requires Inv(w) && Enabled(w, e)
    ensures GroupSideMatches(w, e, Next(w, e).groups)
  {
    hide Inv, GroupSideMatches, Groups.HasRow;
    hide Registered, Killed, Groups.Created, Groups.Joining, Groups.Answered, Groups.Exited, Groups.Kicked;
    hide Groups.Promoted, Groups.Demoted;
    match e
    case CreateGroup(_) => CreateMatches(w, e);
    case JoinGroup(_, _) => JoinMatches(w, e);
    case AnswerJoin(_, _, _, _) => AnswerJoinMatches(w, e);
    case ExitGroup(_, _) => ExitMatches(w, e);
    case Kick(_, _, _) => KickMatches(w, e);
    case Promote(_, _, _) => PromoteMatches(w, e);
    case Demote(_, _, _) => PromoteMatches(w, e);
    case Kill(_, _) => KillGroupsMatch(w, e);
    case Register(_, _, _) => RegisterLeavesGroups(w, e); OtherGroupsMatch(w, e);
    case _ => OtherGroupsMatch(w, e);
  }

  lemma RegisterLeavesGroups(w: World, e: Event)
    requires e.Register?
    ensures Registered(w, e.email, e.codeOk, e.insertOk).groups == w.groups
  {
  }

  // The numbers answered.

  /** The answer to a friend request, read off the tables; 0 exactly when a new request is stored. */
  lemma AddErrnoMeans(w: World, from: UserId, to: UserId)
    requires Inv(w)
    ensures var n, d := Friends.AddErrno(w.users.Keys, w.friends, from, to),
                        Friends.Asked(w.users.Keys, w.friends, from, to);
      && (n == 0 <==> (from, to) !in w.friends.requests && (from, to) in d.requests)
      && (n == 1 <==> to !in w.users)
      && (n == 2 <==> from == to && to in w.users)
      && (n == 3 <==> (from, to) in w.friends.rows)
      && (n == 4 <==> (from, to) in w.friends.requests && (from, to) !in w.friends.rows)
  {
    hide Groups.Inv;
  }

  /** The answer to a registration; 0 exactly when the address has an account only afterwards. */
  lemma RegisterErrnoMeans(w: World, email: string, codeOk: bool, insertOk: bool)
    requires Inv(w)
    ensures var n, d := RegisterErrno(w, email, codeOk, insertOk), Registered(w, email, codeOk, insertOk);
      && (n == 0 <==> !EmailTaken(w, email) && EmailTaken(d, email))
      && (n == 2 <==> EmailTaken(w, email) && EmailTaken(d, email))
      && (n == 1 <==> !EmailTaken(d, email) && !codeOk)
      && (n == -1 <==> !EmailTaken(d, email) && codeOk)
  {
    hide Groups.Inv, Friends.Inv;
    if RegisterErrno(w, email, codeOk, insertOk) == 0 {
      assert Registered(w, email, codeOk, insertOk).users[w.nextUser] == email;
    }
  }

  lemma MembersHaveLeader(w: World, g: GroupId, u: UserId)
    requires Inv(w) && IsMember(w, g, u)
    ensures g in w.groups.groups && Leads(w, g, w.groups.groups[g])
  {
    var id :| Groups.RowOf(w.groups, id, g, u);
    CreatorOwns(w, g, w.groups.groups[g], u);
  }

  /** The answer to a request for admission, read off the tables; after a 0 the request waits exactly when the
      group has a member, since it is stored for the administrators. */
  lemma JoinErrnoMeans(w: World, from: UserId, g: GroupId)
    requires Inv(w)
    ensures var n, d := Groups.JoinErrno(w.groups, from, g), Groups.Joining(w.groups, from, g);
      && (n == 0 || n == 1 || n == 2 || n == 3)
      && (n == 1 <==> g !in w.groups.groups)
      && (n == 2 <==> IsMember(w, g, from))
      && (n == 3 <==> Groups.Pending(w.groups, from, g))
      && (n == 0 ==> (Groups.Pending(d, from, g) <==> exists u: UserId :: IsMember(w, g, u)))
  {
    var n, d := Groups.JoinErrno(w.groups, from, g), Groups.Joining(w.groups, from, g);
    CacheTells(w, g, from);
    JoiningRows(w, from, g);
    MemberGroups(w, g, from);
    hide Inv, Groups.HasRow, Groups.Joining, Leads, Members;
    if u: UserId :| IsMember(w, g, u) {
      MembersHaveLeader(w, g, u);
      var r := Groups.Request(from, w.groups.groups[g], g);
      assert MayAsk(w, from, g) ==> r in d.requests;
    } else {
      NobodyLeads(w, g);
    }
  }

  lemma NobodyLeads(w: World, g: GroupId)
    requires forall u: UserId :: !IsMember(w, g, u)
    ensures forall u: UserId :: !Leads(w, g, u)
  {
    forall u: UserId ensures !Leads(w, g, u) {
      assert !IsMember(w, g, u);
    }
  }

  lemma MemberGroups(w: World, g: GroupId, u: UserId)
    requires Inv(w)
    ensures IsMember(w, g, u) ==> g in w.groups.groups && !Groups.Pending(w.groups, u, g)
    ensures Groups.Pending(w.groups, u, g) ==> g in w.groups.groups
  {
  }
}
