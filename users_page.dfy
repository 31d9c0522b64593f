/** app/dashboard/users/page.tsx: the administrator's user list. A role change
    marks the user as being updated, sends the update, replaces that user's
    role in the local list when the update succeeded, and clears the mark on
    every path. The page sits behind `AuthGuard` with the admin requirement. */
module UsersPage {
  import opened Wrappers
  import opened Records
  import UseAuth
  import AuthGuard

  /** `roleNames`. */
  function RoleName(r: Role): (name: string)
    ensures r == Admin ==> name == "管理员"
    ensures r == Researcher ==> name == "研究员"
    ensures r == Viewer ==> name == "访客"
  {
    match r
    case Admin => "管理员"
    case Researcher => "研究员"
    case Viewer => "访客"
  }

  /** The three names are distinct: the badge tells the role. */
  lemma RoleNameInjective(a: Role, b: Role)
    ensures RoleName(a) == RoleName(b) <==> a == b
  {
    assert "管理员"[0] != "研究员"[0] && "研究员"[0] != "访客"[0] && "管理员"[0] != "访客"[0];
  }

  /** `users.map(user => user.id === userId ? { ...user, role: newRole } : user)`. */
  function ReplaceRole(users: seq<UserRow>, userId: string, role: Role): (r: seq<UserRow>)
    ensures |r| == |users|
    ensures forall i :: 0 <= i < |users| && users[i].id == userId ==> r[i] == users[i].(role := role)
    ensures forall i :: 0 <= i < |users| && users[i].id != userId ==> r[i] == users[i]
  {
    UpdateWhere(users, (u: UserRow) => u.id == userId, (u: UserRow) => u.(role := role))
  }

  /** The replacement changes roles and nothing else: ids, names, e-mail
      addresses and times stay in place, and the matching users end up with
      the new role. */
  lemma ReplaceRoleOnlyRoles(users: seq<UserRow>, userId: string, role: Role, i: nat)
    requires i < |users|
    ensures var u, v := users[i], ReplaceRole(users, userId, role)[i];
      v.(role := u.role) == u && (u.id == userId ==> v.role == role)
  {
  }

  /** Setting the role a user already has gives back the same list. */
  lemma {:induction false} ReplaceSameRole(users: seq<UserRow>, userId: string, role: Role)
    requires forall i :: 0 <= i < |users| && users[i].id == userId ==> users[i].role == role
    ensures ReplaceRole(users, userId, role) == users
  {
    var r := ReplaceRole(users, userId, role);
    forall i | 0 <= i < |users|
      ensures r[i] == users[i]
    {
      if users[i].id == userId {
        assert users[i].(role := role) == users[i];
      }
    }
  }

  datatype Toast = Toast(title: string, description: string, destructive: bool)

  /** The `users` table as the update sees it: `failure` is the error the next
      update reports, if any; `observed` records, for each update request, the
      user id the page had marked as being updated when the request was sent. */
  class UsersTable {
    var rows: seq<UserRow>
    var failure: Option<string>
    var observed: seq<Option<string>>

    constructor (rows: seq<UserRow>, failure: Option<string>)
      ensures this.rows == rows && this.failure == failure && observed == []
    {
      this.rows := rows;
      this.failure := failure;
      observed := [];
    }

    /** `update({ role: newRole }).eq('id', userId)`. */
    method UpdateRole(userId: string, role: Role, marked: Option<string>) returns (error: Option<string>)
      modifies this
      ensures error == failure && failure == old(failure)
      ensures rows == (if error.None? then ReplaceRole(old(rows), userId, role) else old(rows))
      ensures observed == old(observed) + [marked]
    {
      error := failure;
      if error.None? {
        rows := ReplaceRole(rows, userId, role);
      }
      observed := observed + [marked];
    }
  }

  /** The page's state: the listed users and the id being updated. */
  class Page {
    var users: seq<UserRow>
    var updating: Option<string>

    constructor (users: seq<UserRow>)
      ensures this.users == users && updating == None
    {
      this.users := users;
      updating := None;
    }

    /** `updateUserRole`. The request is sent while `updating` holds the user's
        id; afterwards `updating` is null again. The local list changes only on
        success, and then exactly as the table did. */
    method UpdateUserRole(userId: string, newRole: Role, table: UsersTable) returns (toast: Toast)
      modifies this, table
      ensures table.observed == old(table.observed) + [Some(userId)]
      ensures table.failure == old(table.failure)
      ensures updating == None
      ensures old(table.failure).None? ==> users == ReplaceRole(old(users), userId, newRole)
                                           && toast == Toast("更新成功", "用户角色已更新", false)
      ensures old(table.failure).Some? ==> users == old(users)
                                           && toast == Toast("更新失败", old(table.failure).value, true)
      ensures table.rows == (if old(table.failure).None? then ReplaceRole(old(table.rows), userId, newRole)
                             else old(table.rows))
    {
      updating := Some(userId);
      var error := table.UpdateRole(userId, newRole, updating);
      if error.None? {
        toast := Toast("更新成功", "用户角色已更新", false);
        users := ReplaceRole(users, userId, newRole);
      } else {
        toast := Toast("更新失败", error.value, true);
      }
      updating := None;
    }
  }

  /** A page whose list mirrors the table stays in step with it through a
      role change, whether the change succeeds or fails. */
  method UpdateKeepsMirror(page: Page, table: UsersTable, userId: string, newRole: Role)
    requires page.users == table.rows
    modifies page, table
    ensures page.users == table.rows && page.updating == None
  {
    var _ := page.UpdateUserRole(userId, newRole, table);
  }

  /** `<AuthGuard requiredRole="admin">`. */
  const Requirement: Option<UseAuth.Requirement> := Some(UseAuth.One(Admin))

  /** The list is shown to administrators only; every other signed-in user is
      sent to the dashboard. */
  lemma AdminsOnly(s: AuthGuard.AuthState)
    requires !s.loading && s.userPresent
    ensures AuthGuard.Render(s, Requirement) == AuthGuard.Children <==> s.userRole == Some(Admin)
    ensures s.userRole != Some(Admin) ==> AuthGuard.Redirect(s, Requirement, None) == Some("/dashboard")
  {
    UseAuth.Capabilities(s.userRole);
  }
}
