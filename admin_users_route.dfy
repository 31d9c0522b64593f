/** app/api/admin/users/route.ts: the administrator's user list (GET) and role
    change (PATCH). Each handler is a chain of early returns: 401 without a
    signed-in user, 403 unless the caller's users row says 'admin', then 500
    or 200 from the query; anything thrown on the way gives 500 '服务器错误'.
    The Supabase calls are inputs: what each call returned, or that it threw. */
module AdminUsersRoute {
  import opened Wrappers
  import opened Records

  /** An awaited call: its value, or the exception it threw. */
  datatype Call<+T> = Returned(value: T) | Threw

  datatype Body =
    | ErrorMessage(msg: string)
    | UserList(users: seq<UserRow>)
    | UpdatedUser(user: UserRow)

  datatype Reply = Reply(status: nat, body: Body)

  const Unauthenticated: Reply := Reply(401, ErrorMessage("未认证"))
  const Forbidden: Reply := Reply(403, ErrorMessage("权限不足"))
  const ServerError: Reply := Reply(500, ErrorMessage("服务器错误"))

  /** What the backend answers. `auth` is `getUser()`: the user's id, or None
      when it reported an error or no user. `roleQueryFailed` says that the
      caller's-row query came back without data. `queryFailed` is the error of
      the list query (GET) or of the update (PATCH). `users` is the table. */
  datatype Backend = Backend(
    auth: Call<Option<string>>,
    roleQueryFailed: Call<bool>,
    queryFailed: Call<bool>,
    users: seq<UserRow>)

  /** `currentUser?.role === 'admin'`, once the row query has returned: the
      caller's row, the first with their id, says 'admin'. */
  predicate CallerIsAdmin(users: seq<UserRow>, id: string, queryFailed: bool) {
    !queryFailed && var k := FindById(users, id, UserId); k.Some? && users[k.value].role == Admin
  }

  /** The backend let the caller past both guards: signed in, and the row
      query returned a row that says 'admin'. */
  predicate AdminCall(b: Backend) {
    b.auth.Returned? && b.auth.value.Some? && b.roleQueryFailed.Returned?
    && CallerIsAdmin(b.users, b.auth.value.value, b.roleQueryFailed.value)
  }

  /** Newest first: `created_at` never increases along the list. */
  predicate NewestFirst(s: seq<UserRow>) {
    forall i, j :: 0 <= i < j < |s| ==> s[i].createdAt >= s[j].createdAt
  }

  function InsertNewestFirst(x: UserRow, s: seq<UserRow>): (r: seq<UserRow>)
    requires NewestFirst(s)
    ensures NewestFirst(r)
    ensures multiset(r) == multiset(s) + multiset{x}
    ensures |r| == |s| + 1
    ensures r[0] == x || (|s| > 0 && r[0] == s[0])
  {
    if |s| == 0 then [x]
    else if x.createdAt >= s[0].createdAt then [x] + s
    else
      var rest := InsertNewestFirst(x, s[1..]);
      assert s == [s[0]] + s[1..];
      assert s[0].createdAt >= rest[0].createdAt;
      [s[0]] + rest
  }

  /** `.order('created_at', { ascending: false })`. */
  function OrderByCreatedDesc(s: seq<UserRow>): (r: seq<UserRow>)
    ensures NewestFirst(r)
    ensures multiset(r) == multiset(s)
  {
    if |s| == 0 then []
    else
      assert s == [s[0]] + s[1..];
      InsertNewestFirst(s[0], OrderByCreatedDesc(s[1..]))
  }

  /** `GET`. */
  function Get(b: Backend): (r: Reply)
    ensures b.auth.Threw? ==> r == ServerError
    ensures b.auth == Returned(None) ==> r == Unauthenticated
    ensures b.auth.Returned? && b.auth.value.Some? && b.roleQueryFailed.Threw? ==> r == ServerError
    ensures b.auth.Returned? && b.auth.value.Some? && b.roleQueryFailed.Returned?
            && !CallerIsAdmin(b.users, b.auth.value.value, b.roleQueryFailed.value)
            ==> r == Forbidden
    ensures AdminCall(b) && b.queryFailed.Threw? ==> r == ServerError
    ensures AdminCall(b) && b.queryFailed == Returned(true) ==> r == Reply(500, ErrorMessage("获取用户列表失败"))
    ensures AdminCall(b) && b.queryFailed == Returned(false) ==> r == Reply(200, UserList(OrderByCreatedDesc(b.users)))
    ensures r.status == 200 ==> r.body.UserList? && NewestFirst(r.body.users)
                                && multiset(r.body.users) == multiset(b.users)
    ensures r.status == 200 ==> AdminCall(b)
    ensures r.status in {200, 401, 403, 500}
  {
    match b.auth
    case Threw => ServerError
    case Returned(user) =>
      if user.None? then Unauthenticated
      else match b.roleQueryFailed
        case Threw => ServerError
        case Returned(roleFailed) =>
          if !CallerIsAdmin(b.users, user.value, roleFailed) then Forbidden
          else match b.queryFailed
            case Threw => ServerError
            case Returned(failed) =>
              if failed then Reply(500, ErrorMessage("获取用户列表失败"))
              else Reply(200, UserList(OrderByCreatedDesc(b.users)))
  }

  /** The 401 check comes first, the 403 check second: a caller who is signed
      in but not an administrator is refused whatever the list query would do. */
  lemma GetGuardOrder(b: Backend, id: string, roleFailed: bool)
    requires b.auth == Returned(Some(id)) && b.roleQueryFailed == Returned(roleFailed)
    requires !CallerIsAdmin(b.users, id, roleFailed)
    ensures Get(b) == Forbidden
  {
  }

  /** The body of `PATCH`: `body.userId` and `body.role`. */
  datatype PatchBody = PatchBody(userId: string, role: string)

  /** The result of a handler that may write: the reply and the table after it. */
  datatype Outcome = Outcome(reply: Reply, users: seq<UserRow>)

  /** `update({ role, updated_at: now }).eq('id', userId)`. */
  function SetRole(users: seq<UserRow>, userId: string, role: Role, now: int): (r: seq<UserRow>)
    ensures |r| == |users|
    ensures forall i :: 0 <= i < |users| && users[i].id == userId ==>
      r[i] == users[i].(role := role, updatedAt := now)
    ensures forall i :: 0 <= i < |users| && users[i].id != userId ==> r[i] == users[i]
  {
    UpdateWhere(users, (u: UserRow) => u.id == userId, (u: UserRow) => u.(role := role, updatedAt := now))
  }

  /** How many rows have this id: `.single()` fails unless it is exactly one. */
  function CountId(users: seq<UserRow>, id: string): (n: nat)
    ensures n <= |users|
  {
    if |users| == 0 then 0 else (if users[0].id == id then 1 else 0) + CountId(users[1..], id)
  }

  /** A row counted is a row found. */
  lemma {:induction false} CountedIsFound(users: seq<UserRow>, id: string)
    requires CountId(users, id) > 0
    ensures FindById(users, id, UserId).Some?
  {
    if users[0].id != id {
      CountedIsFound(users[1..], id);
    }
  }

  /** An update whose id matches no row leaves the table as it was. */
  lemma NoMatchingRowNoChange(users: seq<UserRow>, id: string, role: Role, now: int)
    requires FindById(users, id, UserId).None?
    ensures CountId(users, id) == 0
    ensures SetRole(users, id, role, now) == users
  {
    if CountId(users, id) > 0 {
      CountedIsFound(users, id);
    }
  }

  const UpdateFailed: Reply := Reply(500, ErrorMessage("更新用户角色失败"))

  /** `PATCH`. The request body is read before anything else, so a body that is
      not JSON gives 500 even to a caller who is not signed in. The role column
      takes only the three values (types/database.ts:17 types it as that union),
      so a role outside them is modelled as a failed update. `.single()` fails
      unless exactly one row was updated; `id` is the table's key, so that means
      no row has the id, and then `SetRole` changes nothing
      (`NoMatchingRowNoChange`). */
  function Patch(b: Backend, body: Call<PatchBody>, now: int): (r: Outcome)
    ensures body.Threw? ==> r == Outcome(ServerError, b.users)
    ensures body.Returned? && b.auth.Threw? ==> r == Outcome(ServerError, b.users)
    ensures body.Returned? && b.auth == Returned(None) ==> r == Outcome(Unauthenticated, b.users)
    ensures body.Returned? && b.auth.Returned? && b.auth.value.Some? && b.roleQueryFailed.Threw?
            ==> r == Outcome(ServerError, b.users)
    ensures body.Returned? && b.auth.Returned? && b.auth.value.Some? && b.roleQueryFailed.Returned?
            && !CallerIsAdmin(b.users, b.auth.value.value, b.roleQueryFailed.value)
            ==> r == Outcome(Forbidden, b.users)
    ensures body.Returned? && AdminCall(b) && b.queryFailed.Threw? ==> r == Outcome(ServerError, b.users)
    ensures body.Returned? && AdminCall(b) && b.queryFailed.Returned?
            && (b.queryFailed.value || ParseRole(body.value.role).None?)
            ==> r == Outcome(UpdateFailed, b.users)
    ensures body.Returned? && AdminCall(b) && b.queryFailed == Returned(false)
            && ParseRole(body.value.role).Some? && CountId(b.users, body.value.userId) != 1
            ==> r == Outcome(UpdateFailed, SetRole(b.users, body.value.userId, ParseRole(body.value.role).value, now))
    ensures body.Returned? && AdminCall(b) && b.queryFailed == Returned(false)
            && ParseRole(body.value.role).Some? && CountId(b.users, body.value.userId) == 1
            ==> r.reply.status == 200
                && r.users == SetRole(b.users, body.value.userId, ParseRole(body.value.role).value, now)
    ensures r.reply.status == 200
            ==> (body.Returned? && FindById(b.users, body.value.userId, UserId).Some?
                 && ParseRole(body.value.role).Some?
                 && r.reply == Reply(200, UpdatedUser(b.users[FindById(b.users, body.value.userId, UserId).value]
                                       .(role := ParseRole(body.value.role).value, updatedAt := now))))
    ensures r.reply.status != 200 && r.users != b.users ==> r.reply.status == 500
    ensures r.users != b.users ==> (body.Returned? && AdminCall(b)
      && ParseRole(body.value.role).Some?
      && r.users == SetRole(b.users, body.value.userId, ParseRole(body.value.role).value, now))
    ensures r.reply.status == 200 ==> (r.reply.body.UpdatedUser?
      && r.reply.body.user.id == body.value.userId && r.reply.body.user.updatedAt == now
      && RoleKey(r.reply.body.user.role) == body.value.role)
    ensures r.reply.status in {200, 401, 403, 500}
  {
    match body
    case Threw => Outcome(ServerError, b.users)
    case Returned(req) =>
      match b.auth
      case Threw => Outcome(ServerError, b.users)
      case Returned(user) =>
        if user.None? then Outcome(Unauthenticated, b.users)
        else match b.roleQueryFailed
          case Threw => Outcome(ServerError, b.users)
          case Returned(roleFailed) =>
            if !CallerIsAdmin(b.users, user.value, roleFailed) then Outcome(Forbidden, b.users)
            else match b.queryFailed
              case Threw => Outcome(ServerError, b.users)
              case Returned(failed) =>
                var role := ParseRole(req.role);
                if failed || role.None? then Outcome(UpdateFailed, b.users)
                else
                  var updated := SetRole(b.users, req.userId, role.value, now);
                  if CountId(b.users, req.userId) != 1 then Outcome(UpdateFailed, updated)
                  else
                    CountedIsFound(b.users, req.userId);
                    var row := b.users[FindById(b.users, req.userId, UserId).value];
                    Outcome(Reply(200, UpdatedUser(row.(role := role.value, updatedAt := now))), updated)
  }

  /** A refused caller changes nothing, whatever the body asks for. */
  lemma RefusedPatchWritesNothing(b: Backend, body: Call<PatchBody>, now: int)
    requires Patch(b, body, now).reply.status in {401, 403}
    ensures Patch(b, body, now).users == b.users
  {
  }

  /** A role change touches only the row with the requested id, and only its
      role and update time. */
  lemma PatchTouchesOneRow(b: Backend, body: Call<PatchBody>, now: int, i: nat)
    requires i < |b.users|
    ensures |Patch(b, body, now).users| == |b.users|
    ensures body.Returned? && b.users[i].id != body.value.userId ==> Patch(b, body, now).users[i] == b.users[i]
    ensures var u := Patch(b, body, now).users[i];
      u.id == b.users[i].id && u.email == b.users[i].email && u.name == b.users[i].name
      && u.createdAt == b.users[i].createdAt
  {
  }
}
