/** hooks/use-auth.ts: the role of the signed-in user and the role checks the
    pages ask of it. Roles are ranked admin 3 > researcher 2 > viewer 1; a
    requirement of several roles is met by reaching the lowest of them. */
module UseAuth {
  import opened Wrappers
  import opened Records

  /** `roleHierarchy`. */
  function Level(r: Role): nat {
    match r
    case Admin => 3
    case Researcher => 2
    case Viewer => 1
  }

  /** `hasRole`'s argument: one role, or an array of roles. */
  datatype Requirement = One(role: Role) | AnyOf(roles: seq<Role>)

  function RolesOf(req: Requirement): (rs: seq<Role>)
    ensures req.One? ==> rs == [req.role]
    ensures req.AnyOf? ==> rs == req.roles
  {
    match req
    case One(r) => [r]
    case AnyOf(rs) => rs
  }

  /** `Math.min(...levels)`; None stands for `Math.min()` of nothing, +Infinity. */
  function MinLevel(roles: seq<Role>): (m: Option<nat>)
    ensures m.None? <==> |roles| == 0
    ensures m.Some? ==> exists i :: 0 <= i < |roles| && Level(roles[i]) == m.value
    ensures m.Some? ==> forall i :: 0 <= i < |roles| ==> m.value <= Level(roles[i])
  {
    if |roles| == 0 then None
    else
      var rest := MinLevel(roles[1..]);
      if rest.None? || Level(roles[0]) <= rest.value then
        Some(Level(roles[0]))
      else
        assert forall i :: 1 <= i < |roles| ==> roles[i] == roles[1..][i - 1];
        rest
  }

  /** `hasRole(requiredRole)` for the current `userRole`. */
  function HasRole(userRole: Option<Role>, req: Requirement): (b: bool)
    ensures b <==> userRole.Some? && exists i :: 0 <= i < |RolesOf(req)| && Level(userRole.value) >= Level(RolesOf(req)[i])
  {
    userRole.Some? && var m := MinLevel(RolesOf(req));
    m.Some? && Level(userRole.value) >= m.value
  }

  /** No role, no access. */
  lemma NoRoleNoAccess(req: Requirement)
    ensures !HasRole(None, req)
  {
  }

  /** A single role is met by that role and every higher one. */
  lemma OneRoleIff(u: Role, r: Role)
    ensures HasRole(Some(u), One(r)) <==> Level(u) >= Level(r)
  {
    assert RolesOf(One(r))[0] == r;
  }

  /** A list is met exactly when some role of the list is met: the user ranks at
      least as high as one of them. An empty list is never met. */
  lemma AnyOfIff(u: Role, rs: seq<Role>)
    ensures HasRole(Some(u), AnyOf(rs)) <==> exists i :: 0 <= i < |rs| && Level(u) >= Level(rs[i])
    ensures |rs| == 0 ==> !HasRole(Some(u), AnyOf(rs))
  {
  }

  /** A list of roles is the same requirement as its lowest role alone. */
  lemma AnyOfIsLowest(u: Role, rs: seq<Role>, k: nat)
    requires k < |rs|
    requires forall i :: 0 <= i < |rs| ==> Level(rs[k]) <= Level(rs[i])
    ensures HasRole(Some(u), AnyOf(rs)) == HasRole(Some(u), One(rs[k]))
  {
    OneRoleIff(u, rs[k]);
  }

  /** A higher role meets every requirement a lower role meets. */
  lemma HasRoleMonotone(u: Role, v: Role, req: Requirement)
    requires Level(u) >= Level(v)
    ensures HasRole(Some(v), req) ==> HasRole(Some(u), req)
  {
  }

  /** The ranking is strict: the three roles have three levels. */
  lemma LevelInjective(u: Role, v: Role)
    ensures Level(u) == Level(v) <==> u == v
  {
  }

  const EditorRoles: seq<Role> := [Admin, Researcher]

  function CanEdit(userRole: Option<Role>): (b: bool)
    ensures b <==> userRole == Some(Admin) || userRole == Some(Researcher)
  {
    assert EditorRoles[1] == Researcher;
    HasRole(userRole, AnyOf(EditorRoles))
  }

  function CanDelete(userRole: Option<Role>): (b: bool)
    ensures b <==> userRole == Some(Admin)
  {
    HasRole(userRole, One(Admin))
  }

  function CanUpload(userRole: Option<Role>): (b: bool)
    ensures b <==> userRole == Some(Admin) || userRole == Some(Researcher)
  {
    assert EditorRoles[1] == Researcher;
    HasRole(userRole, AnyOf(EditorRoles))
  }

  function CanExport(userRole: Option<Role>): (b: bool)
    ensures b <==> userRole == Some(Admin) || userRole == Some(Researcher)
  {
    assert EditorRoles[1] == Researcher;
    HasRole(userRole, AnyOf(EditorRoles))
  }

  function CanManageUsers(userRole: Option<Role>): (b: bool)
    ensures b <==> userRole == Some(Admin)
  {
    HasRole(userRole, One(Admin))
  }

  /** Deleting and user management are for administrators only; editing,
      uploading and exporting for administrators and researchers. */
  lemma Capabilities(userRole: Option<Role>)
    ensures CanDelete(userRole) <==> userRole == Some(Admin)
    ensures CanManageUsers(userRole) <==> userRole == Some(Admin)
    ensures CanEdit(userRole) <==> userRole == Some(Admin) || userRole == Some(Researcher)
    ensures CanUpload(userRole) == CanEdit(userRole) && CanExport(userRole) == CanEdit(userRole)
  {
    if userRole.Some? {
      OneRoleIff(userRole.value, Admin);
      AnyOfIsLowest(userRole.value, EditorRoles, 1);
      OneRoleIff(userRole.value, Researcher);
    }
  }

  /** The role the hook settles on once the fetch is over: none without a
      signed-in user; the stored role, when the users row could be read (its
      role column may be empty); viewer when the query failed. */
  function ResolveRole(userPresent: bool, fetch: Result<Option<Role>, string>): (r: Option<Role>)
    ensures !userPresent ==> r == None
    ensures userPresent && fetch.Failure? ==> r == Some(Viewer)
    ensures userPresent && fetch.Success? ==> r == fetch.value
  {
    if !userPresent then None
    else match fetch
      case Failure(_) => Some(Viewer)
      case Success(role) => role
  }

  /** A failed role lookup never grants more than a viewer has. */
  lemma FailedFetchIsViewer(req: Requirement, e: string)
    ensures HasRole(ResolveRole(true, Failure(e)), req) ==> HasRole(Some(Viewer), req)
    ensures !CanEdit(ResolveRole(true, Failure(e))) && !CanDelete(ResolveRole(true, Failure(e)))
  {
    Capabilities(Some(Viewer));
  }
}
