/** The routing decision of frontend/src/components/ProtectedRoute.js: a chain of guarded
    early returns over the route's props, the auth state and the current location. */
module ProtectedRoute {
  import opened Wrappers

  /** The props, defaulting to `requireAuth = true`, `allowedRoles = []`,
      `redirectTo = '/login'`. */
  datatype Props = Props(requireAuth: bool, allowedRoles: seq<string>, redirectTo: string)

  const Defaults := Props(true, [], "/login")

  /** The signed-in user as the context holds it; its role may be missing. */
  datatype SessionUser = SessionUser(role: Option<string>)

  datatype AuthState = AuthState(isAuthenticated: bool, user: Option<SessionUser>, loading: bool)

  /** The current location: its path, and `state.from.pathname` when a redirect saved one. */
  datatype Location = Location(pathname: string, from: Option<string>)

  /** What the route renders: the loading spinner, a redirect (carrying `state.from` when the
      source passes one), the "Access Denied" panel, or the children. */
  datatype View = Spinner | Redirect(to: string, from: Option<string>) | AccessDenied | Children

  /** `allowedRoles.includes(user.role)`: an absent role is never included. */
  predicate HasAllowedRole(allowed: seq<string>, user: SessionUser) {
    user.role.Some? && user.role.value in allowed
  }

  function Decide(p: Props, auth: AuthState, here: Location): (v: View)
    ensures auth.loading ==> v == Spinner
    ensures !auth.loading && p.requireAuth && !auth.isAuthenticated ==> v == Redirect(p.redirectTo, Some(here.pathname))
    ensures !auth.loading && !p.requireAuth && auth.isAuthenticated ==>
              v == Redirect(if here.from.Some? && here.from.value != "" then here.from.value else "/dashboard", None)
    ensures v == AccessDenied <==> && !auth.loading && p.requireAuth && auth.isAuthenticated
                                   && |p.allowedRoles| > 0 && auth.user.Some?
                                   && !HasAllowedRole(p.allowedRoles, auth.user.value)
    ensures v == Children <==> && !auth.loading && p.requireAuth == auth.isAuthenticated
                               && (p.requireAuth && |p.allowedRoles| > 0 && auth.user.Some? ==> HasAllowedRole(p.allowedRoles, auth.user.value))
  {
    if auth.loading then Spinner
    else if p.requireAuth && !auth.isAuthenticated then Redirect(p.redirectTo, Some(here.pathname))
    else if !p.requireAuth && auth.isAuthenticated then
      Redirect(if here.from.Some? && here.from.value != "" then here.from.value else "/dashboard", None)
    else if p.requireAuth && |p.allowedRoles| > 0 && auth.user.Some? && !HasAllowedRole(p.allowedRoles, auth.user.value) then
      AccessDenied
    else Children
  }

  /** With the default props, a signed-in user sees the children whatever their role, and a
      signed-out one goes to /login. */
  lemma DefaultsAdmitAnySignedInUser(auth: AuthState, here: Location)
    requires !auth.loading
    ensures Decide(Defaults, auth, here) == if auth.isAuthenticated then Children else Redirect("/login", Some(here.pathname))
  {
  }

  /** A token without a loaded user passes a role-restricted route: the role check needs a
      user and is skipped without one. */
  lemma NoUserSkipsRoleCheck(roles: seq<string>, here: Location)
    ensures Decide(Props(true, roles, "/login"), AuthState(true, None, false), here) == Children
  {
  }

  /** On a public page (login, register), the children show only to signed-out visitors;
      the role list is not consulted. */
  lemma PublicPagesForSignedOut(roles: seq<string>, auth: AuthState, here: Location)
    requires !auth.loading
    ensures Decide(Props(false, roles, "/login"), auth, here) == Children <==> !auth.isAuthenticated
  {
  }
}
