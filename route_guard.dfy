/** The route guard: which screen a protected route shows, from the stored token and role. */
module RouteGuard {
  import opened Wrappers
  import AuthStore

  datatype Decision = RedirectToLogin | RedirectToHome | RenderChildren

  /**
   * `ProtectedRoute`: no truthy token sends to "/login"; a truthy `requiredRole`
   * that differs from the stored role (a missing role never equals one) sends to
   * "/"; otherwise the children are rendered.
   */
  function Guard(token: Option<string>, role: Option<string>, requiredRole: Option<string>): (d: Decision)
    ensures d == RedirectToLogin <==> token.None? || token.value == ""
    ensures d == RedirectToHome <==>
      token.Some? && token.value != "" && requiredRole.Some? && requiredRole.value != "" && role != requiredRole
    ensures d == RenderChildren <==>
      token.Some? && token.value != "" && (requiredRole.None? || requiredRole.value == "" || role == requiredRole)
  {
    if token.None? || token.value == "" then RedirectToLogin
    else if requiredRole.Some? && requiredRole.value != "" && role != requiredRole then RedirectToHome
    else RenderChildren
  }

  /** The guard applied to what a store holds. */
  function GuardStore(m: map<string, string>, requiredRole: Option<string>): (d: Decision)
    ensures d == RedirectToLogin <==> !AuthStore.LoggedIn(m)
  {
    Guard(AuthStore.Lookup(m, AuthStore.TOKEN_KEY), AuthStore.Lookup(m, AuthStore.ROLE_KEY), requiredRole)
  }

  /** After a successful login saves a non-empty token, the routes open to its role and to everyone are reachable. */
  lemma SavedLoginOpensRoutes(m: map<string, string>, token: string, role: string, other: string)
    requires token != "" && other != "" && other != role
    ensures GuardStore(AuthStore.AfterSave(m, token, role), None) == RenderChildren
    ensures GuardStore(AuthStore.AfterSave(m, token, role), Some(role)) == RenderChildren
    ensures GuardStore(AuthStore.AfterSave(m, token, role), Some(other)) == RedirectToHome
  {
  }

  /** After `logout`, every protected route redirects to the login page, whatever role it requires. */
  lemma LogoutClosesRoutes(m: map<string, string>, requiredRole: Option<string>)
    ensures GuardStore(AuthStore.AfterLogout(m), requiredRole) == RedirectToLogin
  {
    AuthStore.LogoutClears(m);
  }
}
