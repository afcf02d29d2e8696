/**
 * `POST /api/auth/verify-code` (`src/app/api/auth/verify-code/route.ts`): a
 * state machine over the address's newest open code. In order: the verify
 * counter and the risk score may block; the address must be allow-listed;
 * there must be an open code; an expired code is consumed; a code with five
 * failed attempts blocks; a wrong code counts one more attempt; the right
 * code is consumed, the user is created if new, and a session is issued.
 */
module VerifyCode {
  import opened Wrappers
  import opened Json
  import opened Store
  import opened Audit
  import opened RateLimit
  import opened Risk
  import opened Otp
  import opened Utils
  import opened RequestMeta
  import opened Validation
  import opened AuthConstants
  import opened Session
  import opened Http

  /** What the route takes from outside its tables (see `RequestCode.RequestCodeEnv`), plus the token signer and the production flag of the cookie. */
  datatype VerifyCodeEnv = VerifyCodeEnv(
    formats: Formats,
    sha: Sha256Hex,
    auditSalt: string,
    hmac: HmacHex,
    otpSecret: string,
    now: int,
    redis: string -> DistributedOutcome,
    failures: RecentFailures,
    sign: Signer,
    production: bool)

  /** The `user` object of a successful reply. */
  datatype VerifiedUser = VerifiedUser(id: nat, email: string, role: Role, name: Option<string>)

  function VerifyKey(email: string): string { "verify:email:" + email }

  /**
   * `findFirst` over the open codes of `email`, newest `createdAt` first;
   * among equal timestamps the model picks the latest row.
   */
  function LatestOpen(codes: seq<OtpCode>, email: string): (r: Option<nat>)
    ensures r.Some? ==> r.value < |codes| && IsOpenFor(codes[r.value], email)
    ensures r.Some? ==> forall j | 0 <= j < |codes| && IsOpenFor(codes[j], email) :: codes[j].createdAt <= codes[r.value].createdAt
    ensures r.None? <==> forall j | 0 <= j < |codes| :: !IsOpenFor(codes[j], email)
    decreases |codes|
  {
    if |codes| == 0 then None
    else
      var last := |codes| - 1;
      var rest := LatestOpen(codes[..last], email);
      if IsOpenFor(codes[last], email) && (rest.None? || codes[rest.value].createdAt <= codes[last].createdAt) then
        Some(last)
      else
        rest
  }

  /** Under the one-open-code invariant, the newest open code is the only one. */
  lemma LatestOpenIsOnlyOpen(codes: seq<OtpCode>, email: string)
    requires OneOpenPerEmail(codes)
    ensures LatestOpen(codes, email).Some? ==>
      forall j | 0 <= j < |codes| && IsOpenFor(codes[j], email) :: j == LatestOpen(codes, email).value
  {
    var r := LatestOpen(codes, email);
    if r.Some? {
      forall j | 0 <= j < |codes| && IsOpenFor(codes[j], email) ensures j == r.value {
      }
    }
  }

  /** The newest open code depends only on each row's timestamp and open-ness. */
  lemma {:induction false} LatestOpenCongruent(a: seq<OtpCode>, b: seq<OtpCode>, email: string)
    requires |a| == |b|
    requires forall k | 0 <= k < |a| :: a[k].createdAt == b[k].createdAt && IsOpenFor(a[k], email) == IsOpenFor(b[k], email)
    ensures LatestOpen(a, email) == LatestOpen(b, email)
    decreases |a|
  {
    if |a| > 0 {
      var last := |a| - 1;
      LatestOpenCongruent(a[..last], b[..last], email);
    }
  }

  /** Changing a code's attempt count or hash leaves the choice of the newest open code alone. */
  lemma LatestOpenIgnoresAttempts(codes: seq<OtpCode>, i: nat, c: OtpCode, email: string)
    requires i < |codes|
    requires c.email == codes[i].email && c.consumedAt == codes[i].consumedAt && c.createdAt == codes[i].createdAt
    ensures LatestOpen(codes[i := c], email) == LatestOpen(codes, email)
  {
    LatestOpenCongruent(codes[i := c], codes, email);
  }

  /** Which way a request with a valid body goes; the index is the code checked. */
  datatype VerifyStage =
    | RateBlocked(reason: string)
    | NotAllowed
    | NoCode
    | Expired(i: nat)
    | TooManyAttempts(i: nat)
    | Mismatch(i: nat)
    | Match(i: nat)

  /** The route's checks in the order the source makes them. */
  function VerifyStageOf(limitAllowed: bool, hardBlock: bool, allowed: set<string>, codes: seq<OtpCode>,
                         email: string, code: string, now: int, hmac: HmacHex, secret: string): (s: VerifyStage)
    ensures (s.Expired? || s.TooManyAttempts? || s.Mismatch? || s.Match?) ==>
      && LatestOpen(codes, email) == Some(s.i)
      && limitAllowed && !hardBlock && email in allowed
    ensures s.Expired? <==> limitAllowed && !hardBlock && email in allowed && LatestOpen(codes, email).Some?
                            && codes[LatestOpen(codes, email).value].expiresAt <= now
    ensures s.TooManyAttempts? ==> codes[s.i].expiresAt > now && codes[s.i].attemptCount >= OtpMaxAttempts
    ensures s.Mismatch? ==> codes[s.i].expiresAt > now && codes[s.i].attemptCount < OtpMaxAttempts
                            && !VerifyOtpHash(hmac, secret, email, code, codes[s.i].codeHash)
    ensures s.Match? ==> codes[s.i].expiresAt > now && codes[s.i].attemptCount < OtpMaxAttempts
                         && VerifyOtpHash(hmac, secret, email, code, codes[s.i].codeHash)
  {
    if !limitAllowed || hardBlock then
      RateBlocked(if !limitAllowed then "verify-rate-limit" else "risk-hard-block")
    else if email !in allowed then NotAllowed
    else
      match LatestOpen(codes, email)
      case None => NoCode
      case Some(i) =>
        if codes[i].expiresAt <= now then Expired(i)
        else if codes[i].attemptCount >= OtpMaxAttempts then TooManyAttempts(i)
        else if !VerifyOtpHash(hmac, secret, email, code, codes[i].codeHash) then Mismatch(i)
        else Match(i)
  }

  /** `code` marked consumed at `now`. */
  function Consumed(c: OtpCode, now: int): OtpCode {
    c.(consumedAt := Some(now))
  }

  /** The code table after the stage: an expired or matching code is consumed, a mismatch counts an attempt. */
  function CodesAfter(codes: seq<OtpCode>, s: VerifyStage, now: int): (r: seq<OtpCode>)
    requires (s.Expired? || s.TooManyAttempts? || s.Mismatch? || s.Match?) ==> s.i < |codes|
    ensures |r| == |codes|
  {
    match s
    case Expired(i) => codes[i := Consumed(codes[i], now)]
    case Mismatch(i) => AddAttempts(codes, i, 1)
    case Match(i) => codes[i := Consumed(codes[i], now)]
    case _ => codes
  }

  /** Consuming or counting an attempt keeps at most one open code per address. */
  lemma CodesAfterKeepsOneOpen(codes: seq<OtpCode>, s: VerifyStage, now: int)
    requires (s.Expired? || s.TooManyAttempts? || s.Mismatch? || s.Match?) ==> s.i < |codes|
    requires OneOpenPerEmail(codes)
    ensures OneOpenPerEmail(CodesAfter(codes, s, now))
  {
    var r := CodesAfter(codes, s, now);
    forall i, j | 0 <= i < j < |r|
      ensures !(r[i].consumedAt.None? && r[j].consumedAt.None? && r[i].email == r[j].email)
    {
      assert !(codes[i].consumedAt.None? && codes[j].consumedAt.None? && codes[i].email == codes[j].email);
    }
  }

  /** The error response of every stage but `Match`. */
  function StageError(s: VerifyStage, retryAfterMs: int): (e: ApiError)
    requires !s.Match?
    ensures e.status == 429 <==> s.RateBlocked? || s.TooManyAttempts?
  {
    match s
    case RateBlocked(_) => ApiError(RateLimitedSoft, 429, RetryAfterMs(retryAfterMs))
    case NotAllowed => ApiError(NotAllowedEmail, 403, NoDetail)
    case NoCode => ApiError(InvalidCode, 400, NoDetail)
    case Expired(_) => ApiError(CodeExpired, 400, NoDetail)
    case TooManyAttempts(_) => ApiError(RateLimitedSoft, 429, NoDetail)
    case Mismatch(_) => ApiError(InvalidCode, 400, NoDetail)
  }

  /** The outcome and the reason the audit entry of a stage records. */
  function StageOutcome(s: VerifyStage): (r: (AuthOutcome, Option<string>))
    ensures r.0 == Success <==> s.Match?
    ensures r.0 == Blocked <==> s.RateBlocked? || s.TooManyAttempts?
  {
    match s
    case RateBlocked(reason) => (Blocked, Some(reason))
    case NotAllowed => (Failure, Some("email-not-allowlisted"))
    case NoCode => (Failure, Some("otp-not-found"))
    case Expired(_) => (Failure, Some("otp-expired"))
    case TooManyAttempts(_) => (Blocked, Some("otp-attempts-exceeded"))
    case Mismatch(_) => (Failure, Some("otp-invalid"))
    case Match(_) => (Success, None)
  }

  function VerifyEvent(s: VerifyStage, email: string, actor: Option<nat>, meta: RequestMeta, score: int): AuditEventInput {
    AuditEventInput(VerifyCodeEvent, StageOutcome(s).0, Some(email), actor, Some(meta.ipHash), Some(meta.userAgentHash),
                    Some(score), StageOutcome(s).1)
  }

  /** The first user with `email`. */
  function FindUser(users: seq<User>, email: string): (r: Option<nat>)
    ensures r.Some? ==> r.value < |users| && users[r.value].email == email
    ensures r.None? <==> forall i | 0 <= i < |users| :: users[i].email != email
    decreases |users|
  {
    if |users| == 0 then None
    else if users[0].email == email then Some(0)
    else
      var rest := FindUser(users[1..], email);
      if rest.None? then None else Some(rest.value + 1)
  }

  datatype Upserted = Upserted(users: seq<User>, id: nat)

  /** `user.upsert` by e-mail: an existing user is kept as is, otherwise a member without a name is added. */
  function UpsertUser(users: seq<User>, email: string): (r: Upserted)
    ensures r.id < |r.users| && r.users[r.id].email == email
    ensures FindUser(users, email).Some? ==> r.users == users && r.id == FindUser(users, email).value
    ensures FindUser(users, email).None? ==> r.users == users + [User(email, Member, None)] && r.id == |users|
  {
    match FindUser(users, email)
    case Some(i) => Upserted(users, i)
    case None => Upserted(users + [User(email, Member, None)], |users|)
  }

  /** Upserting keeps e-mails unique. */
  lemma UpsertKeepsEmailsUnique(users: seq<User>, email: string)
    requires forall i, j | 0 <= i < j < |users| :: users[i].email != users[j].email
    ensures var r := UpsertUser(users, email).users;
      forall i, j | 0 <= i < j < |r| :: r[i].email != r[j].email
  {
  }

  /** An expired code is consumed whatever its attempt count and whatever code was sent. */
  lemma ExpiryCheckedBeforeAttempts(allowed: set<string>, codes: seq<OtpCode>, email: string, code: string, now: int,
                                    hmac: HmacHex, secret: string)
    requires email in allowed && LatestOpen(codes, email).Some?
    requires codes[LatestOpen(codes, email).value].expiresAt <= now
    ensures VerifyStageOf(true, false, allowed, codes, email, code, now, hmac, secret) == Expired(LatestOpen(codes, email).value)
  {
  }

  /** A live code with five failed attempts blocks even the right code, and its count stays put. */
  lemma CeilingBlocksEveryCode(allowed: set<string>, codes: seq<OtpCode>, email: string, code: string, now: int,
                               hmac: HmacHex, secret: string)
    requires email in allowed && LatestOpen(codes, email).Some?
    requires codes[LatestOpen(codes, email).value].expiresAt > now
    requires codes[LatestOpen(codes, email).value].attemptCount >= OtpMaxAttempts
    ensures var s := VerifyStageOf(true, false, allowed, codes, email, code, now, hmac, secret);
      s == TooManyAttempts(LatestOpen(codes, email).value) && CodesAfter(codes, s, now) == codes
  {
  }

  /** A wrong code against the live code, below the attempt ceiling, is a mismatch on that code. */
  lemma WrongCodeIsMismatch(allowed: set<string>, codes: seq<OtpCode>, email: string, wrong: string,
                            now: int, hmac: HmacHex, secret: string)
    requires email in allowed && LatestOpen(codes, email).Some?
    requires var i := LatestOpen(codes, email).value;
      codes[i].expiresAt > now && codes[i].attemptCount < OtpMaxAttempts
    requires !VerifyOtpHash(hmac, secret, email, wrong, codes[LatestOpen(codes, email).value].codeHash)
    ensures VerifyStageOf(true, false, allowed, codes, email, wrong, now, hmac, secret) == Mismatch(LatestOpen(codes, email).value)
  {
  }

  /** A mismatch adds one attempt to the code checked, changes nothing else, and leaves it the code checked. */
  lemma MismatchCounts(codes: seq<OtpCode>, i: nat, email: string, now: int)
    requires i < |codes|
    ensures CodesAfter(codes, Mismatch(i), now) == AddAttempts(codes, i, 1)
    ensures LatestOpen(CodesAfter(codes, Mismatch(i), now), email) == LatestOpen(codes, email)
  {
    var next := AddAttempts(codes, i, 1);
    LatestOpenIgnoresAttempts(codes, i, next[i], email);
  }

  /**
   * The codes after each of `tries` in turn is checked for `email` and the
   * outcome recorded, none of them stopped by a rate limit or a hard block.
   */
  function CodesAfterTries(allowed: set<string>, codes: seq<OtpCode>, email: string, tries: seq<string>,
                           now: int, hmac: HmacHex, secret: string): (r: seq<OtpCode>)
    ensures |r| == |codes|
    decreases |tries|
  {
    if tries == [] then codes
    else
      var s := VerifyStageOf(true, false, allowed, codes, email, tries[0], now, hmac, secret);
      CodesAfterTries(allowed, CodesAfter(codes, s, now), email, tries[1..], now, hmac, secret)
  }

  /**
   * Wrong codes against one live code: after `n` of them its attempt count
   * has risen by `n`, nothing else has changed, and it is still the code checked.
   */
  lemma {:induction false} WrongCodesCount(allowed: set<string>, codes: seq<OtpCode>, email: string, i: nat,
                                          wrong: seq<string>, now: int, hmac: HmacHex, secret: string)
    requires email in allowed && LatestOpen(codes, email) == Some(i)
    requires codes[i].expiresAt > now && codes[i].attemptCount + |wrong| <= OtpMaxAttempts
    requires forall k | 0 <= k < |wrong| :: !VerifyOtpHash(hmac, secret, email, wrong[k], codes[i].codeHash)
    ensures LatestOpen(CodesAfterTries(allowed, codes, email, wrong, now, hmac, secret), email) == Some(i)
    ensures CodesAfterTries(allowed, codes, email, wrong, now, hmac, secret) == AddAttempts(codes, i, |wrong|)
    decreases |wrong|
  {
    if |wrong| == 0 {
      assert AddAttempts(codes, i, 0) == codes;
    } else {
      var next := AddAttempts(codes, i, 1);
      MismatchCounts(codes, i, email, now);
      RestStillWrong(hmac, secret, email, wrong, codes[i].codeHash);
      WrongCodesCount(allowed, next, email, i, wrong[1..], now, hmac, secret);
      WrongCodesStep(allowed, codes, email, i, wrong, now, hmac, secret);
    }
  }

  /** The inductive step: the first wrong try, then the rest as counted for the code it leaves. */
  lemma WrongCodesStep(allowed: set<string>, codes: seq<OtpCode>, email: string, i: nat,
                       wrong: seq<string>, now: int, hmac: HmacHex, secret: string)
    requires wrong != [] && email in allowed && LatestOpen(codes, email) == Some(i)
    requires codes[i].expiresAt > now && codes[i].attemptCount < OtpMaxAttempts
    requires !VerifyOtpHash(hmac, secret, email, wrong[0], codes[i].codeHash)
    requires var rest := CodesAfterTries(allowed, AddAttempts(codes, i, 1), email, wrong[1..], now, hmac, secret);
      LatestOpen(rest, email) == Some(i) && rest == AddAttempts(AddAttempts(codes, i, 1), i, |wrong[1..]|)
    ensures LatestOpen(CodesAfterTries(allowed, codes, email, wrong, now, hmac, secret), email) == Some(i)
    ensures CodesAfterTries(allowed, codes, email, wrong, now, hmac, secret) == AddAttempts(codes, i, |wrong|)
  {
    OneWrongTry(allowed, codes, email, wrong, now, hmac, secret);
    AttemptsAdd(codes, i, |wrong[1..]|);
  }

  lemma RestStillWrong(hmac: HmacHex, secret: string, email: string, wrong: seq<string>, hash: string)
    requires wrong != []
    requires forall k | 0 <= k < |wrong| :: !VerifyOtpHash(hmac, secret, email, wrong[k], hash)
    ensures forall k | 0 <= k < |wrong[1..]| :: !VerifyOtpHash(hmac, secret, email, wrong[1..][k], hash)
  {
    forall k | 0 <= k < |wrong[1..]|
      ensures !VerifyOtpHash(hmac, secret, email, wrong[1..][k], hash)
    {
      assert wrong[1..][k] == wrong[k + 1];
    }
  }

  /** The first of the wrong tries adds one attempt to the live code, which stays the code checked. */
  lemma OneWrongTry(allowed: set<string>, codes: seq<OtpCode>, email: string, wrong: seq<string>,
                    now: int, hmac: HmacHex, secret: string)
    requires wrong != [] && email in allowed && LatestOpen(codes, email).Some?
    requires var i := LatestOpen(codes, email).value;
      codes[i].expiresAt > now && codes[i].attemptCount < OtpMaxAttempts
    requires !VerifyOtpHash(hmac, secret, email, wrong[0], codes[LatestOpen(codes, email).value].codeHash)
    ensures var i := LatestOpen(codes, email).value;
      var next := AddAttempts(codes, i, 1);
      && CodesAfterTries(allowed, codes, email, wrong, now, hmac, secret)
           == CodesAfterTries(allowed, next, email, wrong[1..], now, hmac, secret)
      && LatestOpen(next, email) == Some(i)
  {
    var i := LatestOpen(codes, email).value;
    var s := VerifyStageOf(true, false, allowed, codes, email, wrong[0], now, hmac, secret);
    var next := AddAttempts(codes, i, 1);
    WrongCodeIsMismatch(allowed, codes, email, wrong[0], now, hmac, secret);
    MismatchCounts(codes, i, email, now);
    LatestOpenIgnoresAttempts(codes, i, next[i], email);
    assert LatestOpen(next, email) == Some(i);
    calc {
      CodesAfterTries(allowed, codes, email, wrong, now, hmac, secret);
      { TriesStep(allowed, codes, email, wrong, now, hmac, secret); }
      CodesAfterTries(allowed, CodesAfter(codes, s, now), email, wrong[1..], now, hmac, secret);
      { assert CodesAfter(codes, s, now) == next; }
      CodesAfterTries(allowed, next, email, wrong[1..], now, hmac, secret);
    }
  }

  lemma TriesStep(allowed: set<string>, codes: seq<OtpCode>, email: string, tries: seq<string>,
                  now: int, hmac: HmacHex, secret: string)
    requires tries != []
    ensures var s := VerifyStageOf(true, false, allowed, codes, email, tries[0], now, hmac, secret);
      CodesAfterTries(allowed, codes, email, tries, now, hmac, secret)
        == CodesAfterTries(allowed, CodesAfter(codes, s, now), email, tries[1..], now, hmac, secret)
  {
  }

  /** `n` more attempts recorded on code `i`; every other code unchanged. */
  function AddAttempts(codes: seq<OtpCode>, i: nat, n: nat): (r: seq<OtpCode>)
    requires i < |codes|
    ensures |r| == |codes| && r[i] == codes[i].(attemptCount := codes[i].attemptCount + n)
    ensures forall j | 0 <= j < |codes| && j != i :: r[j] == codes[j]
  {
    codes[i := codes[i].(attemptCount := codes[i].attemptCount + n)]
  }

  /** One attempt and then `n` more on the same code are `n + 1` attempts. */
  lemma AttemptsAdd(codes: seq<OtpCode>, i: nat, n: nat)
    requires i < |codes|
    ensures AddAttempts(AddAttempts(codes, i, 1), i, n) == AddAttempts(codes, i, n + 1)
  {
  }

  /** Five wrong codes against a fresh live code, and the sixth try is blocked whatever it sends. */
  lemma SixthAttemptBlocked(allowed: set<string>, codes: seq<OtpCode>, email: string, wrong: seq<string>, sixth: string,
                            now: int, hmac: HmacHex, secret: string)
    requires email in allowed && LatestOpen(codes, email).Some?
    requires codes[LatestOpen(codes, email).value].expiresAt > now
    requires codes[LatestOpen(codes, email).value].attemptCount == 0
    requires |wrong| == 5
    requires forall k | 0 <= k < 5 ::
      !VerifyOtpHash(hmac, secret, email, wrong[k], codes[LatestOpen(codes, email).value].codeHash)
    ensures var after := CodesAfterTries(allowed, codes, email, wrong, now, hmac, secret);
      && LatestOpen(after, email) == LatestOpen(codes, email)
      && VerifyStageOf(true, false, allowed, after, email, sixth, now, hmac, secret) == TooManyAttempts(LatestOpen(codes, email).value)
  {
    WrongCodesCount(allowed, codes, email, LatestOpen(codes, email).value, wrong, now, hmac, secret);
    var after := CodesAfterTries(allowed, codes, email, wrong, now, hmac, secret);
    var i := LatestOpen(codes, email).value;
    assert after[i].attemptCount == 5 && after[i].expiresAt > now;
  }

  /**
   * The route. `body` is None when the request body is not JSON. Returns the
   * response, the session cookie set on success, and the soft delay waited
   * before answering.
   */
  method VerifyCodeRoute(db: AuthDb, limiter: MemoryCounters, body: Option<Json>, headers: Headers, env: VerifyCodeEnv)
    returns (response: Response<VerifiedUser>, cookie: Option<Cookie>, delayMs: int)
    modifies db, limiter
    ensures db.allowedEmails == old(db.allowedEmails)
    ensures old(db.Valid()) ==> db.Valid()
    ensures body.None? ==> response == Fail(ApiError(InvalidInput, 400, NoDetail))
    ensures body.Some? && !VerifyCodeValid(env.formats, body.value) ==> response == Fail(ApiError(InvalidInput, 400, SchemaIssues))
    ensures body.None? || !VerifyCodeValid(env.formats, body.value) ==>
      && cookie.None? && delayMs == 0 && limiter.counters == old(limiter.counters)
      && db.users == old(db.users) && db.otpCodes == old(db.otpCodes)
      && db.sessions == old(db.sessions) && db.events == old(db.events)
    ensures body.Some? && VerifyCodeValid(env.formats, body.value) ==>
      var input := ParseVerifyCode(env.formats, body.value).value;
      var email := NormalizeEmailForKey(input.email);
      var meta := GetRequestMeta(headers, env.sha, env.auditSalt);
      var key := VerifyKey(email);
      var limit := CheckResult(old(limiter.counters), key, VerifyCodeByEmail15m.limit, VerifyCodeByEmail15m.windowMs, env.now, env.redis(key));
      var risk := DecideRisk(SignalsOf(false, !limit.allowed, env.failures));
      var stage := VerifyStageOf(limit.allowed, risk.hardBlock, old(db.allowedEmails), old(db.otpCodes), email, input.code,
                                 env.now, env.hmac, env.otpSecret);
      && limiter.counters == CountersAfter(old(limiter.counters), key, env.now, VerifyCodeByEmail15m.windowMs, env.redis(key))
      && delayMs == risk.softDelayMs
      && db.otpCodes == CodesAfter(old(db.otpCodes), stage, env.now)
      && (!stage.Match? ==>
            && response == Fail(StageError(stage, limit.retryAfterMs)) && cookie.None?
            && db.users == old(db.users) && db.sessions == old(db.sessions)
            && db.events == old(db.events) + [EventRecord(VerifyEvent(stage, email, None, meta, risk.score))])
      && (stage.Match? ==>
            var up := UpsertUser(old(db.users), email);
            var user := up.users[up.id];
            var expiresAt := env.now + SessionTtlSeconds * 1000;
            var token := env.sign(TokenPayload(Some(up.id), user.role, user.email, Some(|old(db.sessions)|)));
            && db.users == up.users
            && db.sessions == old(db.sessions) + [SessionRow(up.id, expiresAt, Some(meta.ipHash), Some(meta.userAgentHash), None)]
            && response == Ok(VerifiedUser(up.id, user.email, user.role, user.name))
            && cookie == Some(SetSessionCookie(token, expiresAt, env.production))
            && db.events == old(db.events) + [EventRecord(VerifyEvent(stage, email, Some(up.id), meta, risk.score))])
  {
    cookie := None;
    delayMs := 0;
    if body.None? {
      response := Fail(ApiError(InvalidInput, 400, NoDetail));
      return;
    }
    var parsed := ParseVerifyCode(env.formats, body.value);
    if parsed.None? {
      response := Fail(ApiError(InvalidInput, 400, SchemaIssues));
      return;
    }
    var email := NormalizeEmailForKey(parsed.value.email);
    var meta := GetRequestMeta(headers, env.sha, env.auditSalt);
    response, cookie, delayMs := HandleVerify(db, limiter, email, parsed.value.code, meta, env);
  }

  /** The route once the body has given a normalised address and a code: count, score, then check the code. */
  method HandleVerify(db: AuthDb, limiter: MemoryCounters, email: string, code: string, meta: RequestMeta, env: VerifyCodeEnv)
    returns (response: Response<VerifiedUser>, cookie: Option<Cookie>, delayMs: int)
    modifies db, limiter
    ensures db.allowedEmails == old(db.allowedEmails)
    ensures old(db.Valid()) ==> db.Valid()
    ensures var key := VerifyKey(email);
      var limit := CheckResult(old(limiter.counters), key, VerifyCodeByEmail15m.limit, VerifyCodeByEmail15m.windowMs, env.now, env.redis(key));
      var risk := DecideRisk(SignalsOf(false, !limit.allowed, env.failures));
      var stage := VerifyStageOf(limit.allowed, risk.hardBlock, old(db.allowedEmails), old(db.otpCodes), email, code,
                                 env.now, env.hmac, env.otpSecret);
      && limiter.counters == CountersAfter(old(limiter.counters), key, env.now, VerifyCodeByEmail15m.windowMs, env.redis(key))
      && delayMs == risk.softDelayMs
      && db.otpCodes == CodesAfter(old(db.otpCodes), stage, env.now)
      && (!stage.Match? ==>
            && response == Fail(StageError(stage, limit.retryAfterMs)) && cookie.None?
            && db.users == old(db.users) && db.sessions == old(db.sessions)
            && db.events == old(db.events) + [EventRecord(VerifyEvent(stage, email, None, meta, risk.score))])
      && (stage.Match? ==>
            var up := UpsertUser(old(db.users), email);
            var user := up.users[up.id];
            var expiresAt := env.now + SessionTtlSeconds * 1000;
            var token := env.sign(TokenPayload(Some(up.id), user.role, user.email, Some(|old(db.sessions)|)));
            && db.users == up.users
            && db.sessions == old(db.sessions) + [SessionRow(up.id, expiresAt, Some(meta.ipHash), Some(meta.userAgentHash), None)]
            && response == Ok(VerifiedUser(up.id, user.email, user.role, user.name))
            && cookie == Some(SetSessionCookie(token, expiresAt, env.production))
            && db.events == old(db.events) + [EventRecord(VerifyEvent(stage, email, Some(up.id), meta, risk.score))])
  {
    var key := VerifyKey(email);
    var limit := limiter.CheckRateLimit(key, VerifyCodeByEmail15m.limit, VerifyCodeByEmail15m.windowMs, env.now, env.redis(key));
    var risk := DecideRisk(SignalsOf(false, !limit.allowed, env.failures));
    delayMs := risk.softDelayMs;
    response, cookie := CheckCode(db, email, code, meta, limit, risk, env);
  }

  /** Everything after the risk decision, on the tables alone: the checks that need no code. */
  method CheckCode(db: AuthDb, email: string, code: string, meta: RequestMeta, limit: RateLimitResult,
                   risk: RiskDecision, env: VerifyCodeEnv)
    returns (response: Response<VerifiedUser>, cookie: Option<Cookie>)
    modifies db
    ensures db.allowedEmails == old(db.allowedEmails)
    ensures old(db.Valid()) ==> db.Valid()
    ensures var stage := VerifyStageOf(limit.allowed, risk.hardBlock, old(db.allowedEmails), old(db.otpCodes), email, code,
                                       env.now, env.hmac, env.otpSecret);
      && db.otpCodes == CodesAfter(old(db.otpCodes), stage, env.now)
      && (!stage.Match? ==>
            && response == Fail(StageError(stage, limit.retryAfterMs)) && cookie.None?
            && db.users == old(db.users) && db.sessions == old(db.sessions)
            && db.events == old(db.events) + [EventRecord(VerifyEvent(stage, email, None, meta, risk.score))])
      && (stage.Match? ==>
            var up := UpsertUser(old(db.users), email);
            var user := up.users[up.id];
            var expiresAt := env.now + SessionTtlSeconds * 1000;
            var token := env.sign(TokenPayload(Some(up.id), user.role, user.email, Some(|old(db.sessions)|)));
            && db.users == up.users
            && db.sessions == old(db.sessions) + [SessionRow(up.id, expiresAt, Some(meta.ipHash), Some(meta.userAgentHash), None)]
            && response == Ok(VerifiedUser(up.id, user.email, user.role, user.name))
            && cookie == Some(SetSessionCookie(token, expiresAt, env.production))
            && db.events == old(db.events) + [EventRecord(VerifyEvent(stage, email, Some(up.id), meta, risk.score))])
  {
    cookie := None;
    if !limit.allowed || risk.hardBlock {
      response := RecordFailure(db, RateBlocked(if !limit.allowed then "verify-rate-limit" else "risk-hard-block"),
                                email, meta, limit, risk, env);
      return;
    }

    if email !in db.allowedEmails {
      response := RecordFailure(db, NotAllowed, email, meta, limit, risk, env);
      return;
    }

    var latest := LatestOpen(db.otpCodes, email);
    if latest.None? {
      response := RecordFailure(db, NoCode, email, meta, limit, risk, env);
      return;
    }
    response, cookie := CheckLatest(db, latest.value, email, code, meta, limit, risk, env);
  }

  /** The checks on the newest open code `i`: expiry, then the attempt ceiling, then the digest. */
  method CheckLatest(db: AuthDb, i: nat, email: string, code: string, meta: RequestMeta, limit: RateLimitResult,
                     risk: RiskDecision, env: VerifyCodeEnv)
    returns (response: Response<VerifiedUser>, cookie: Option<Cookie>)
    requires limit.allowed && !risk.hardBlock && email in db.allowedEmails
    requires LatestOpen(db.otpCodes, email) == Some(i)
    modifies db
    ensures db.allowedEmails == old(db.allowedEmails)
    ensures old(db.Valid()) ==> db.Valid()
    ensures var stage := VerifyStageOf(limit.allowed, risk.hardBlock, old(db.allowedEmails), old(db.otpCodes), email, code,
                                       env.now, env.hmac, env.otpSecret);
      && db.otpCodes == CodesAfter(old(db.otpCodes), stage, env.now)
      && (!stage.Match? ==>
            && response == Fail(StageError(stage, limit.retryAfterMs)) && cookie.None?
            && db.users == old(db.users) && db.sessions == old(db.sessions)
            && db.events == old(db.events) + [EventRecord(VerifyEvent(stage, email, None, meta, risk.score))])
      && (stage.Match? ==>
            var up := UpsertUser(old(db.users), email);
            var user := up.users[up.id];
            var expiresAt := env.now + SessionTtlSeconds * 1000;
            var token := env.sign(TokenPayload(Some(up.id), user.role, user.email, Some(|old(db.sessions)|)));
            && db.users == up.users
            && db.sessions == old(db.sessions) + [SessionRow(up.id, expiresAt, Some(meta.ipHash), Some(meta.userAgentHash), None)]
            && response == Ok(VerifiedUser(up.id, user.email, user.role, user.name))
            && cookie == Some(SetSessionCookie(token, expiresAt, env.production))
            && db.events == old(db.events) + [EventRecord(VerifyEvent(stage, email, Some(up.id), meta, risk.score))])
  {
    cookie := None;
    var otp := db.otpCodes[i];
    ghost var stage := VerifyStageOf(limit.allowed, risk.hardBlock, db.allowedEmails, db.otpCodes, email, code,
                                     env.now, env.hmac, env.otpSecret);
    if otp.expiresAt <= env.now {
      assert stage == Expired(i);
      response := RecordFailure(db, Expired(i), email, meta, limit, risk, env);
      return;
    }

    if otp.attemptCount >= OtpMaxAttempts {
      assert stage == TooManyAttempts(i);
      response := RecordFailure(db, TooManyAttempts(i), email, meta, limit, risk, env);
      return;
    }

    if !VerifyOtpHash(env.hmac, env.otpSecret, email, code, otp.codeHash) {
      assert stage == Mismatch(i);
      response := RecordFailure(db, Mismatch(i), email, meta, limit, risk, env);
      return;
    }

    assert stage == Match(i);
    response, cookie := AcceptCode(db, i, email, meta, risk, env);
  }

  /**
   * A refused request: an expired code is consumed, a wrong code counts one
   * more attempt, every other table is left alone, and the refusal is logged.
   */
  method RecordFailure(db: AuthDb, stage: VerifyStage, email: string, meta: RequestMeta, limit: RateLimitResult,
                       risk: RiskDecision, env: VerifyCodeEnv)
    returns (response: Response<VerifiedUser>)
    requires !stage.Match?
    requires (stage.Expired? || stage.TooManyAttempts? || stage.Mismatch?) ==> stage.i < |db.otpCodes|
    modifies db
    ensures db.allowedEmails == old(db.allowedEmails)
    ensures old(db.Valid()) ==> db.Valid()
    ensures db.otpCodes == CodesAfter(old(db.otpCodes), stage, env.now)
    ensures response == Fail(StageError(stage, limit.retryAfterMs))
    ensures db.users == old(db.users) && db.sessions == old(db.sessions)
    ensures db.events == old(db.events) + [EventRecord(VerifyEvent(stage, email, None, meta, risk.score))]
  {
    if db.Valid() {
      CodesAfterKeepsOneOpen(db.otpCodes, stage, env.now);
    }
    db.otpCodes := CodesAfter(db.otpCodes, stage, env.now);
    response := Fail(StageError(stage, limit.retryAfterMs));
    LogAuthEvent(db, VerifyEvent(stage, email, None, meta, risk.score));
  }

  /** The right code: create the user if new, consume the code, issue a session and log the success. */
  method AcceptCode(db: AuthDb, i: nat, email: string, meta: RequestMeta, risk: RiskDecision, env: VerifyCodeEnv)
    returns (response: Response<VerifiedUser>, cookie: Option<Cookie>)
    requires i < |db.otpCodes|
    modifies db
    ensures db.allowedEmails == old(db.allowedEmails)
    ensures old(db.Valid()) ==> db.Valid()
    ensures db.otpCodes == CodesAfter(old(db.otpCodes), Match(i), env.now)
    ensures var up := UpsertUser(old(db.users), email);
      var user := up.users[up.id];
      var expiresAt := env.now + SessionTtlSeconds * 1000;
      var token := env.sign(TokenPayload(Some(up.id), user.role, user.email, Some(|old(db.sessions)|)));
      && db.users == up.users
      && db.sessions == old(db.sessions) + [SessionRow(up.id, expiresAt, Some(meta.ipHash), Some(meta.userAgentHash), None)]
      && response == Ok(VerifiedUser(up.id, user.email, user.role, user.name))
      && cookie == Some(SetSessionCookie(token, expiresAt, env.production))
      && db.events == old(db.events) + [EventRecord(VerifyEvent(Match(i), email, Some(up.id), meta, risk.score))]
  {
    var up := ConsumeMatch(db, i, email, env.now);
    var user := up.users[up.id];
    var session := IssueSession(db, up.id, user.email, user.role, Some(meta.ipHash), Some(meta.userAgentHash), env.now, env.sign);
    LogAuthEvent(db, VerifyEvent(Match(i), email, Some(up.id), meta, risk.score));
    response := Ok(VerifiedUser(up.id, user.email, user.role, user.name));
    cookie := Some(SetSessionCookie(session.token, session.expiresAt, env.production));
  }

  /** The store half of a match: the user upserted by e-mail and the matching code consumed. */
  method ConsumeMatch(db: AuthDb, i: nat, email: string, now: int) returns (up: Upserted)
    requires i < |db.otpCodes|
    modifies db
    ensures up == UpsertUser(old(db.users), email)
    ensures db.users == up.users && db.otpCodes == CodesAfter(old(db.otpCodes), Match(i), now)
    ensures db.sessions == old(db.sessions) && db.events == old(db.events)
    ensures db.allowedEmails == old(db.allowedEmails)
    ensures old(db.Valid()) ==> db.Valid()
  {
    if db.Valid() {
      UpsertKeepsEmailsUnique(db.users, email);
      CodesAfterKeepsOneOpen(db.otpCodes, Match(i), now);
    }
    up := UpsertUser(db.users, email);
    db.users := up.users;
    db.otpCodes := db.otpCodes[i := Consumed(db.otpCodes[i], now)];
  }
}
