/** The guard wrapped around admin routes: a loading indicator, a redirect to the login
    page, a redirect to the "unauthorized" page, or the protected page itself. */
module RouteGuard {
  import opened Wrappers
  import opened Accounts

  const UnauthorizedPath := "/admin/unauthorized"

  datatype Outcome =
    | Loading
    | RedirectToLogin(target: string, from: string)
    | RedirectToUnauthorized(target: string)
    | RenderChildren

  /** The decision, checked in a fixed priority: loading, then authentication, then role.
      `userRole` is `user?.role`, None when there is no user; `requiredRole` None means the
      route asks for no particular role. */
  function Guard(isLoading: bool, isAuthenticated: bool, userRole: Option<Role>,
                 requiredRole: Option<Role>, location: string): (o: Outcome)
    ensures isLoading ==> o == Loading
    ensures !isLoading && !isAuthenticated ==> o == RedirectToLogin(LoginPath, location)
    ensures !isLoading && isAuthenticated && requiredRole.Some? && userRole != requiredRole
            ==> o == RedirectToUnauthorized(UnauthorizedPath)
    ensures o == RenderChildren
            <==> !isLoading && isAuthenticated && (requiredRole.None? || userRole == requiredRole)
  {
    if isLoading then Loading
    else if !isAuthenticated then RedirectToLogin(LoginPath, location)
    else if requiredRole.Some? && userRole != requiredRole then RedirectToUnauthorized(UnauthorizedPath)
    else RenderChildren
  }

  /** The only protected route of the application, `/admin`, names no role: once the
      check has finished, every signed-in user sees the dashboard, managers and customers
      included, and every visitor without a user is sent to the login page. */
  lemma AdminRouteIgnoresRole(isLoading: bool, user: Option<User>, location: string)
    ensures !isLoading && user.Some? ==> Guard(isLoading, user.Some?, if user.Some? then Some(user.value.role) else None, None, location) == RenderChildren
    ensures !isLoading && user.None? ==> Guard(isLoading, user.Some?, None, None, location).RedirectToLogin?
  {
  }
}
