/**
 * `POST /api/auth/logout` (`src/app/api/auth/logout/route.ts`): revoke the
 * caller's session if it is still open, log the logout and clear the cookie.
 */
module Logout {
  import opened Wrappers
  import opened Store
  import opened Audit
  import opened Utils
  import opened RequestMeta
  import opened Session
  import opened Guards
  import opened Http

  /**
   * `session.updateMany` on `{ id: sid, revokedAt: null }`: the session is
   * stamped with `now` when it exists and is still open; otherwise nothing
   * matches and nothing changes.
   */
  function Revoked(sessions: seq<SessionRow>, sid: nat, now: int): (r: seq<SessionRow>)
    ensures |r| == |sessions|
    ensures forall k | 0 <= k < |r| && k != sid :: r[k] == sessions[k]
    ensures sid < |r| ==> r[sid].revokedAt.Some?
    ensures sid < |r| ==> r[sid] == sessions[sid].(revokedAt := Some(sessions[sid].revokedAt.GetOr(now)))
  {
    if sid < |sessions| && sessions[sid].revokedAt.None? then
      sessions[sid := sessions[sid].(revokedAt := Some(now))]
    else
      sessions
  }

  /** Logging out twice is logging out once: the first revocation time stays. */
  lemma RevokeIsIdempotent(sessions: seq<SessionRow>, sid: nat, first: int, second: int)
    ensures Revoked(Revoked(sessions, sid, first), sid, second) == Revoked(sessions, sid, first)
  {
  }

  /** The reply of a successful logout: `{ data: { ok: true } }`. */
  datatype LogoutReply = LogoutReply(ok: bool)

  /**
   * The route. `session` is what `requireApiUser` read from the request
   * (any role is admitted); `sha` and `salt` hash the request metadata.
   */
  method LogoutRoute(db: AuthDb, session: Option<SessionUser>, headers: Headers, sha: Sha256Hex, salt: string,
                     now: int, production: bool)
    returns (response: Response<LogoutReply>, cookie: Option<Cookie>)
    modifies db
    ensures db.users == old(db.users) && db.otpCodes == old(db.otpCodes) && db.allowedEmails == old(db.allowedEmails)
    ensures old(db.Valid()) ==> db.Valid()
    ensures session.None? ==>
      && response == Fail(ApiError(Unauthorized, 401, NoDetail)) && cookie.None?
      && db.sessions == old(db.sessions) && db.events == old(db.events)
    ensures session.Some? ==>
      var user := session.value;
      var meta := GetRequestMeta(headers, sha, salt);
      && response == Ok(LogoutReply(true))
      && cookie == Some(ClearSessionCookie(production))
      && db.sessions == Revoked(old(db.sessions), user.sessionId, now)
      && db.events == old(db.events) + [EventRecord(AuditEventInput(LogoutEvent, Success, Some(user.email), Some(user.id),
                                                                    Some(meta.ipHash), Some(meta.userAgentHash), Some(0), None))]
  {
    var auth := RequireApiUser(session, None);
    if auth.response.Some? {
      response := Fail(auth.response.value);
      cookie := None;
      return;
    }
    var user := auth.user.value;
    var meta := GetRequestMeta(headers, sha, salt);
    db.sessions := Revoked(db.sessions, user.sessionId, now);
    LogAuthEvent(db, AuditEventInput(LogoutEvent, Success, Some(user.email), Some(user.id),
                                     Some(meta.ipHash), Some(meta.userAgentHash), Some(0), None));
    response := Ok(LogoutReply(true));
    cookie := Some(ClearSessionCookie(production));
  }

  /**
   * After a logout the session is never live again, for any user at any
   * time (so no token naming it loads, see `Session.LoadSessionFromToken`),
   * while every other session is exactly as live as before.
   */
  lemma LogoutEndsOnlyThatSession(sessions: seq<SessionRow>, sid: nat, now: int, other: nat, userId: nat, at: int)
    ensures !IsLiveSession(Revoked(sessions, sid, now), sid, userId, at)
    ensures other != sid ==>
      (IsLiveSession(Revoked(sessions, sid, now), other, userId, at) <==> IsLiveSession(sessions, other, userId, at))
  {
  }
}
