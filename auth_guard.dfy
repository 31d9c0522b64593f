/** components/auth/auth-guard.tsx: what the guard shows and where it sends
    the browser, from the hook's `loading`, `user` and `hasRole`. The effect
    (the redirect) and the render are two separate pieces of code; the model
    keeps them apart and proves they agree. */
module AuthGuard {
  import opened Wrappers
  import opened Records
  import opened UseAuth

  datatype View = Spinner | Blank | Children

  /** The hook's state as the guard sees it. */
  datatype AuthState = AuthState(loading: bool, userPresent: bool, userRole: Option<Role>)

  /** `fallbackUrl = '/login'`: the default applies only when the prop is absent. */
  function Fallback(fallbackUrl: Option<string>): string {
    fallbackUrl.GetOr("/login")
  }

  /** `requiredRole && !hasRole(requiredRole)`: any given requirement is truthy,
      an empty array included. */
  predicate Denied(s: AuthState, requiredRole: Option<Requirement>) {
    requiredRole.Some? && !HasRole(s.userRole, requiredRole.value)
  }

  /** The effect: the page it navigates to, if any. */
  function Redirect(s: AuthState, requiredRole: Option<Requirement>, fallbackUrl: Option<string>): (r: Option<string>)
    ensures s.loading ==> r == None
    ensures !s.loading && !s.userPresent ==> r == Some(Fallback(fallbackUrl))
    ensures !s.loading && s.userPresent ==> (r == Some("/dashboard") <==> Denied(s, requiredRole))
    ensures !s.loading && s.userPresent && !Denied(s, requiredRole) ==> r == None
  {
    if !s.loading then
      if !s.userPresent then Some(Fallback(fallbackUrl))
      else if Denied(s, requiredRole) then Some("/dashboard")
      else None
    else None
  }

  /** The render. */
  function Render(s: AuthState, requiredRole: Option<Requirement>): (v: View)
    ensures v == Spinner <==> s.loading
    ensures v == Children <==> !s.loading && s.userPresent && (requiredRole.None? || HasRole(s.userRole, requiredRole.value))
  {
    if s.loading then Spinner
    else if !s.userPresent || Denied(s, requiredRole) then Blank
    else Children
  }

  /** The two agree: the children are shown exactly when loading is over and
      no redirect is issued; a redirect always comes with a blank page. */
  lemma RenderMatchesRedirect(s: AuthState, requiredRole: Option<Requirement>, fallbackUrl: Option<string>)
    ensures Render(s, requiredRole) == Children <==> !s.loading && Redirect(s, requiredRole, fallbackUrl).None?
    ensures Redirect(s, requiredRole, fallbackUrl).Some? ==> Render(s, requiredRole) == Blank
  {
  }

  /** Without a role requirement every signed-in user passes. */
  lemma NoRequirementAdmitsAll(s: AuthState, fallbackUrl: Option<string>)
    requires !s.loading && s.userPresent
    ensures Render(s, None) == Children && Redirect(s, None, fallbackUrl) == None
  {
  }

  /** An empty role list is a requirement nobody meets: a signed-in user is
      sent to the dashboard. */
  lemma EmptyRequirementDenies(s: AuthState, fallbackUrl: Option<string>)
    requires !s.loading && s.userPresent
    ensures Redirect(s, Some(AnyOf([])), fallbackUrl) == Some("/dashboard")
    ensures Render(s, Some(AnyOf([]))) == Blank
  {
    if s.userRole.Some? {
      AnyOfIff(s.userRole.value, []);
    }
  }
}
