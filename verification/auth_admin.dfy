/** The admin guard placed in front of the admin routes. */
module AuthAdmin {
  import opened JsRuntime
  import opened UserModel
  import opened Express
  import Auth

  /** `requireAdmin`: anonymous requests go to the login page; a user whose
      role, read as `role || "user"`, is not "admin" gets 403; only a user
      whose role is exactly "admin" reaches `next()`. */
  function RequireAdmin(user: Option<User>): (o: Outcome)
    ensures o == Redirect("/login") <==> user.None?
    ensures o == Status(403) <==> user.Some? && user.value.role != Some("admin")
    ensures o == Next <==> user.Some? && user.value.role == Some("admin")
    ensures user.Some? && user.value.role.None? ==> o == Status(403)
  {
    if user.None? then Redirect("/login")
    else if EffectiveRole(user.value.role) != "admin" then Status(403)
    else Next
  }

  /** Whoever passes the admin guard also passes both authenticated guards. */
  lemma AdminIsAuthenticated(user: Option<User>)
    requires RequireAdmin(user) == Next
    ensures Auth.EnsureAuthenticated(user) == Next && Auth.EnsureAuthenticatedPage(user) == Next
  {
  }
}
