/**
 * Sessions (`src/lib/auth/session.ts`): issuing one stores a row and signs a
 * token naming it; loading one needs a token that verifies, names a row of
 * the right user, and that row neither revoked nor expired. Token signing
 * and verification are parameters of the model.
 */
module Session {
  import opened Wrappers
  import opened Store
  import opened Dates

  const SessionCookie: string := "ba_session"
  const SessionTtlSeconds: int := 60 * 60 * 24 * 7

  /**
   * The claims of a session token. `sub` and `sid` are None when the claim
   * is missing or empty.
   */
  datatype TokenPayload = TokenPayload(sub: Option<nat>, role: Role, email: string, sid: Option<nat>)

  /** `signSessionToken`. */
  type Signer = TokenPayload -> string

  /** `verifySessionToken`: the claims of a token whose signature and expiry check out. */
  type Verifier = string -> Option<TokenPayload>

  /** Verification accepts every token the signer produced and gives back its claims. */
  ghost predicate SignedTokensVerify(sign: Signer, verify: Verifier) {
    forall p :: verify(sign(p)) == Some(p)
  }

  /** `SessionUser`. */
  datatype SessionUser = SessionUser(id: nat, email: string, role: Role, sessionId: nat)

  /** What `issueSession` returns. */
  datatype IssuedSession = IssuedSession(token: string, sessionId: nat, expiresAt: int)

  /**
   * `issueSession`: store a live session for the user that ends seven days
   * from now, and sign a token naming the user and that session.
   */
  method IssueSession(db: AuthDb, userId: nat, email: string, role: Role, ipHash: Option<string>,
                      userAgentHash: Option<string>, now: int, sign: Signer)
    returns (issued: IssuedSession)
    modifies db
    ensures issued.expiresAt == AddSeconds(now, SessionTtlSeconds) == now + 604800000
    ensures issued.sessionId == |old(db.sessions)|
    ensures db.sessions == old(db.sessions) + [SessionRow(userId, issued.expiresAt, ipHash, userAgentHash, None)]
    ensures issued.token == sign(TokenPayload(Some(userId), role, email, Some(issued.sessionId)))
    ensures db.users == old(db.users) && db.otpCodes == old(db.otpCodes)
    ensures db.events == old(db.events) && db.allowedEmails == old(db.allowedEmails)
    ensures old(db.Valid()) && userId < |db.users| ==> db.Valid()
  {
    var expiresAt := AddSeconds(now, SessionTtlSeconds);
    var sessionId := |db.sessions|;
    db.sessions := db.sessions + [SessionRow(userId, expiresAt, ipHash, userAgentHash, None)];
    var token := sign(TokenPayload(Some(userId), role, email, Some(sessionId)));
    issued := IssuedSession(token, sessionId, expiresAt);
  }

  /** The stored session `sid` exists, belongs to `userId`, is not revoked and has not expired. */
  predicate IsLiveSession(sessions: seq<SessionRow>, sid: nat, userId: nat, now: int) {
    sid < |sessions| && sessions[sid].userId == userId && sessions[sid].revokedAt.None? && sessions[sid].expiresAt > now
  }

  /**
   * `loadSessionFromToken`: the user of a token that verifies, carries both
   * ids and names a live session of that user; the identity comes from the
   * stored user, not from the token's claims.
   */
  function LoadSessionFromToken(db: AuthDb, verify: Verifier, token: string, now: int): (r: Option<SessionUser>)
    reads db
    requires db.Valid()
    ensures r.Some? <==>
      (verify(token).Some? && verify(token).value.sid.Some? && verify(token).value.sub.Some? &&
       IsLiveSession(db.sessions, verify(token).value.sid.value, verify(token).value.sub.value, now))
    ensures r.Some? ==>
      && r.value.sessionId == verify(token).value.sid.value
      && r.value.id == verify(token).value.sub.value
      && r.value.id < |db.users|
      && r.value.email == db.users[r.value.id].email
      && r.value.role == db.users[r.value.id].role
  {
    var payload := verify(token);
    if payload.None? || payload.value.sid.None? || payload.value.sub.None? then None
    else
      var sid := payload.value.sid.value;
      var sub := payload.value.sub.value;
      if !IsLiveSession(db.sessions, sid, sub, now) then None
      else
        var user := db.users[db.sessions[sid].userId];
        Some(SessionUser(db.sessions[sid].userId, user.email, user.role, sid))
  }

  /**
   * `readSessionFromToken` and `readSessionFromRequest`: no token (or an
   * empty one) means no session.
   */
  function ReadSessionFromToken(db: AuthDb, verify: Verifier, token: Option<string>, now: int): (r: Option<SessionUser>)
    reads db
    requires db.Valid()
    ensures token.None? || token.value == "" ==> r.None?
    ensures token.Some? && token.value != "" ==> r == LoadSessionFromToken(db, verify, token.value, now)
  {
    if token.None? || token.value == "" then None else LoadSessionFromToken(db, verify, token.value, now)
  }

  /** A freshly issued token loads its session until the session expires. */
  lemma IssuedTokenLoads(db: AuthDb, sign: Signer, verify: Verifier, userId: nat, role: Role, email: string, sid: nat, now: int)
    requires db.Valid() && SignedTokensVerify(sign, verify)
    requires IsLiveSession(db.sessions, sid, userId, now)
    ensures LoadSessionFromToken(db, verify, sign(TokenPayload(Some(userId), role, email, Some(sid))), now)
      == Some(SessionUser(userId, db.users[userId].email, db.users[userId].role, sid))
  {
    assert verify(sign(TokenPayload(Some(userId), role, email, Some(sid)))) == Some(TokenPayload(Some(userId), role, email, Some(sid)));
  }

  /** Once a session is revoked, no token naming it loads, however well signed. */
  lemma RevokedSessionNeverLoads(db: AuthDb, verify: Verifier, token: string, now: int)
    requires db.Valid()
    requires verify(token).Some? && verify(token).value.sid.Some?
    requires verify(token).value.sid.value < |db.sessions|
    requires db.sessions[verify(token).value.sid.value].revokedAt.Some?
    ensures LoadSessionFromToken(db, verify, token, now).None?
  {
  }

  /** The token's role and e-mail claims play no part: a stale claim still yields the stored identity. */
  lemma ClaimsDoNotMatter(db: AuthDb, verify: Verifier, t1: string, t2: string, now: int)
    requires db.Valid()
    requires verify(t1).Some? && verify(t2).Some?
    requires verify(t1).value.sid == verify(t2).value.sid && verify(t1).value.sub == verify(t2).value.sub
    ensures LoadSessionFromToken(db, verify, t1, now) == LoadSessionFromToken(db, verify, t2, now)
  {
  }

  datatype CookieLifetime = Expires(at: int) | MaxAge(seconds: int)

  /** The options `response.cookies.set` receives. */
  datatype Cookie = Cookie(
    name: string,
    value: string,
    httpOnly: bool,
    secure: bool,
    sameSite: string,
    path: string,
    lifetime: CookieLifetime)

  /** `setSessionCookie`: the token, HTTP-only, site-wide, expiring with the session. */
  function SetSessionCookie(token: string, expiresAt: int, production: bool): (c: Cookie)
    ensures c.name == SessionCookie && c.value == token && c.lifetime == Expires(expiresAt)
    ensures c.httpOnly && c.path == "/" && c.sameSite == "lax" && c.secure == production
  {
    Cookie(SessionCookie, token, true, production, "lax", "/", Expires(expiresAt))
  }

  /** `clearSessionCookie`: an empty value that expires at once. */
  function ClearSessionCookie(production: bool): (c: Cookie)
    ensures c.name == SessionCookie && c.value == "" && c.lifetime == MaxAge(0)
    ensures c.httpOnly && c.path == "/" && c.sameSite == "lax" && c.secure == production
  {
    Cookie(SessionCookie, "", true, production, "lax", "/", MaxAge(0))
  }

  /** Clearing overwrites the cookie that setting wrote: same name, path and flags, only value and lifetime differ. */
  lemma ClearReplacesSessionCookie(token: string, expiresAt: int, production: bool)
    ensures ClearSessionCookie(production) == SetSessionCookie(token, expiresAt, production).(value := "", lifetime := MaxAge(0))
  {
  }
}
