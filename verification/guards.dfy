/**
 * Role guards (`src/lib/auth/guards.ts`). The session lookup happens first;
 * its result is an input here. Redirects and error responses are values.
 */
module Guards {
  import opened Wrappers
  import opened Store
  import opened Http
  import opened Session

  /** `hasRole`: no list (or an empty one) admits every role. */
  function HasRole(role: Role, allowedRoles: Option<seq<Role>>): (r: bool)
    ensures allowedRoles.None? || |allowedRoles.value| == 0 ==> r
    ensures allowedRoles.Some? && |allowedRoles.value| > 0 ==> (r <==> role in allowedRoles.value)
  {
    if allowedRoles.None? || |allowedRoles.value| == 0 then true else role in allowedRoles.value
  }

  /** What `requireApiUser` returns: either a user or an error response, never both. */
  datatype ApiAuth = ApiAuth(user: Option<SessionUser>, response: Option<ApiError>)

  /** `requireApiUser`: 401 without a session, 403 with the wrong role, else the user. */
  function RequireApiUser(session: Option<SessionUser>, allowedRoles: Option<seq<Role>>): (r: ApiAuth)
    ensures r.user.Some? <==> r.response.None?
    ensures session.None? ==> r.response == Some(ApiError(Unauthorized, 401, NoDetail))
    ensures session.Some? && !HasRole(session.value.role, allowedRoles) ==> r.response == Some(ApiError(Forbidden, 403, NoDetail))
    ensures r.user.Some? ==> r.user == session && HasRole(session.value.role, allowedRoles)
    ensures session.Some? && HasRole(session.value.role, allowedRoles) ==> r == ApiAuth(session, None)
  {
    if session.None? then ApiAuth(None, Some(ApiError(Unauthorized, 401, NoDetail)))
    else if !HasRole(session.value.role, allowedRoles) then ApiAuth(None, Some(ApiError(Forbidden, 403, NoDetail)))
    else ApiAuth(session, None)
  }

  /** What `requireServerUser` does: redirect, or go on with the user. */
  datatype ServerAuth = Redirect(location: string) | Proceed(user: SessionUser)

  /** `requireServerUser`: to the login page without a session, to the dashboard with the wrong role. */
  function RequireServerUser(session: Option<SessionUser>, allowedRoles: Option<seq<Role>>): (r: ServerAuth)
    ensures session.None? ==> r == Redirect("/login")
    ensures session.Some? && !HasRole(session.value.role, allowedRoles) ==> r == Redirect("/dashboard")
    ensures r.Proceed? ==> session == Some(r.user) && HasRole(r.user.role, allowedRoles)
    ensures session.Some? && HasRole(session.value.role, allowedRoles) ==> r == Proceed(session.value)
  {
    if session.None? then Redirect("/login")
    else if !HasRole(session.value.role, allowedRoles) then Redirect("/dashboard")
    else Proceed(session.value)
  }

  /** The API guard and the page guard let through exactly the same sessions. */
  lemma GuardsAgree(session: Option<SessionUser>, allowedRoles: Option<seq<Role>>)
    ensures RequireApiUser(session, allowedRoles).user.Some? <==> RequireServerUser(session, allowedRoles).Proceed?
  {
  }
}
