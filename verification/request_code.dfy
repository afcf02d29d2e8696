/**
 * `POST /api/auth/request-code` (`src/app/api/auth/request-code/route.ts`):
 * count the request on four rate limits, score the risk, and either log a
 * blocked or failed attempt or replace the address's open codes with a new
 * one. Every exit answers with the same generic message, so the reply never
 * reveals whether the address is allowed.
 */
module RequestCode {
  import opened Wrappers
  import opened Json
  import opened Store
  import opened Audit
  import opened RateLimit
  import opened Risk
  import opened Otp
  import opened Utils
  import opened RequestMeta
  import opened Validation
  import opened AuthConstants

  const GenericMessage: string := "Om adressen är godkänd har en kod skickats."

  /**
   * What the route takes from outside its tables: the schema formats, the
   * digest and HMAC functions with their secrets, the clock, the Redis
   * outcome of each counter key, and the recent failure counts.
   */
  datatype RequestCodeEnv = RequestCodeEnv(
    formats: Formats,
    sha: Sha256Hex,
    auditSalt: string,
    hmac: HmacHex,
    otpSecret: string,
    now: int,
    redis: string -> DistributedOutcome,
    failures: RecentFailures)

  /** The reply body and the soft delay the route waits before answering. */
  datatype RequestCodeReply = RequestCodeReply(message: string, delayMs: int)

  /** The code handed to the mailer. */
  datatype OtpMail = OtpMail(email: string, code: string)

  function EmailKey(email: string): string { "request:email:" + email }
  function EmailDayKey(email: string): string { "request:email-day:" + email }
  function EmailIpKey(email: string, ipHash: string): string { "request:email-ip:" + email + ":" + ipHash }
  function IpKey(ipHash: string): string { "request:ip:" + ipHash }

  /** The four counter results and the counters after all four calls. */
  datatype RequestLimits = RequestLimits(
    byEmail: RateLimitResult,
    byEmailDay: RateLimitResult,
    byEmailIp: RateLimitResult,
    byIp: RateLimitResult,
    after: map<string, CounterEntry>)

  /** The four `checkRateLimit` calls, one after another, from the counters `c0`. */
  function CheckRequestLimits(c0: map<string, CounterEntry>, email: string, ipHash: string, now: int,
                              redis: string -> DistributedOutcome): (r: RequestLimits)
    ensures r.byEmail.limit == 5 && r.byEmailDay.limit == 20 && r.byEmailIp.limit == 8 && r.byIp.limit == 200
  {
    var k1, k2, k3, k4 := EmailKey(email), EmailDayKey(email), EmailIpKey(email, ipHash), IpKey(ipHash);
    var r1 := CheckResult(c0, k1, RequestCodeByEmail15m.limit, RequestCodeByEmail15m.windowMs, now, redis(k1));
    var c1 := CountersAfter(c0, k1, now, RequestCodeByEmail15m.windowMs, redis(k1));
    var r2 := CheckResult(c1, k2, RequestCodeByEmailDay.limit, RequestCodeByEmailDay.windowMs, now, redis(k2));
    var c2 := CountersAfter(c1, k2, now, RequestCodeByEmailDay.windowMs, redis(k2));
    var r3 := CheckResult(c2, k3, RequestCodeByEmailIp15m.limit, RequestCodeByEmailIp15m.windowMs, now, redis(k3));
    var c3 := CountersAfter(c2, k3, now, RequestCodeByEmailIp15m.windowMs, redis(k3));
    var r4 := CheckResult(c3, k4, RequestCodeByIp10mSoft.limit, RequestCodeByIp10mSoft.windowMs, now, redis(k4));
    var c4 := CountersAfter(c3, k4, now, RequestCodeByIp10mSoft.windowMs, redis(k4));
    RequestLimits(r1, r2, r3, r4, c4)
  }

  /** Any of the three address counters refused the call. */
  predicate EmailLimited(l: RequestLimits) {
    !l.byEmail.allowed || !l.byEmailDay.allowed || !l.byEmailIp.allowed
  }

  /** The shared per-address counter refused the call. */
  predicate IpSoftLimited(l: RequestLimits) {
    !l.byIp.allowed
  }

  function RequestRisk(l: RequestLimits, failures: RecentFailures): RiskDecision {
    DecideRisk(SignalsOf(IpSoftLimited(l), EmailLimited(l), failures))
  }

  /** Which way a request with a valid body goes. */
  datatype RequestStage = Block(reason: string) | NotAllowlisted | Issue

  function RequestStageOf(l: RequestLimits, risk: RiskDecision, allowlisted: bool): (s: RequestStage)
    ensures s.Issue? <==> !risk.hardBlock && !EmailLimited(l) && allowlisted
    ensures s.Block? <==> risk.hardBlock || EmailLimited(l)
  {
    if risk.hardBlock || EmailLimited(l) then
      Block(if risk.hardBlock then "risk-hard-block" else "email-rate-limited")
    else if !allowlisted then NotAllowlisted
    else Issue
  }

  /** An over-used address block is decided by the address counters; the shared counter blocks only through the score. */
  lemma IpSoftLimitBlocksOnlyThroughRisk(l: RequestLimits, failures: RecentFailures, allowlisted: bool)
    requires !EmailLimited(l)
    ensures RequestStageOf(l, RequestRisk(l, failures), allowlisted).Block? <==> RequestRisk(l, failures).hardBlock
    ensures IpSoftLimited(l) && failures == RecentFailures(0, 0, 0) ==>
      !RequestStageOf(l, RequestRisk(l, failures), allowlisted).Block?
  {
    if IpSoftLimited(l) && failures == RecentFailures(0, 0, 0) {
      IpSoftLimitAloneDelays(SignalsOf(true, false, failures));
    }
  }

  /** The audit entry the route writes for `email`. */
  function RequestEvent(outcome: AuthOutcome, email: string, meta: RequestMeta, score: int, reason: Option<string>)
    : (e: AuditEventInput)
    ensures e.eventType == RequestCodeEvent && e.outcome == outcome && e.email == Some(email)
  {
    AuditEventInput(RequestCodeEvent, outcome, Some(email), None, Some(meta.ipHash), Some(meta.userAgentHash),
                    Some(score), reason)
  }

  /** `updateMany` on the open codes of `email`: each is marked consumed at `now`. */
  function ConsumeOpen(codes: seq<OtpCode>, email: string, now: int): (r: seq<OtpCode>)
    ensures |r| == |codes|
    ensures forall i | 0 <= i < |codes| ::
      r[i] == if IsOpenFor(codes[i], email) then codes[i].(consumedAt := Some(now)) else codes[i]
  {
    seq(|codes|, i requires 0 <= i < |codes| =>
      if IsOpenFor(codes[i], email) then codes[i].(consumedAt := Some(now)) else codes[i])
  }

  /** The issue transaction: consume the open codes of `email`, then add the new one. */
  function IssueCode(codes: seq<OtpCode>, email: string, codeHash: string, now: int): (r: seq<OtpCode>)
    ensures |r| == |codes| + 1
    ensures r[|codes|] == OtpCode(email, codeHash, now + OtpTtlMs, 0, None, now)
  {
    ConsumeOpen(codes, email, now) + [OtpCode(email, codeHash, now + OtpTtlMs, 0, None, now)]
  }

  /** After issuing, the new code is the only open code of the address, every other address keeps its codes, and the invariant holds. */
  lemma IssueLeavesOneOpenCode(codes: seq<OtpCode>, email: string, codeHash: string, now: int)
    requires OneOpenPerEmail(codes)
    ensures var r := IssueCode(codes, email, codeHash, now);
      && OneOpenPerEmail(r)
      && IsOpenFor(r[|codes|], email)
      && (forall i | 0 <= i < |codes| :: !IsOpenFor(r[i], email))
      && (forall i, e | 0 <= i < |codes| && e != email :: IsOpenFor(r[i], e) <==> IsOpenFor(codes[i], e))
  {
    var r := IssueCode(codes, email, codeHash, now);
    forall i, j | 0 <= i < j < |r|
      ensures !(r[i].consumedAt.None? && r[j].consumedAt.None? && r[i].email == r[j].email)
    {
      if j < |codes| {
        assert r[i] == ConsumeOpen(codes, email, now)[i];
        assert r[j] == ConsumeOpen(codes, email, now)[j];
      } else {
        assert r[i] == ConsumeOpen(codes, email, now)[i];
      }
    }
    forall i | 0 <= i < |codes| ensures !IsOpenFor(r[i], email) {
      assert r[i] == ConsumeOpen(codes, email, now)[i];
    }
    forall i, e | 0 <= i < |codes| && e != email ensures IsOpenFor(r[i], e) <==> IsOpenFor(codes[i], e) {
      assert r[i] == ConsumeOpen(codes, email, now)[i];
    }
  }

  /**
   * The route. `body` is None when the request body is not JSON; `draw` is
   * the number `randomInt` picks; `emailSent` is false when the mailer
   * throws, which the route catches before logging success. The database
   * and counters may fail in the source too; those failures are not
   * modelled.
   */
  method RequestCodeRoute(db: AuthDb, limiter: MemoryCounters, body: Option<Json>, headers: Headers,
                          env: RequestCodeEnv, draw: nat, emailSent: bool)
    returns (reply: RequestCodeReply, mail: Option<OtpMail>)
    requires OtpMin <= draw <= OtpMax
    modifies db, limiter
    ensures reply.message == GenericMessage
    ensures db.users == old(db.users) && db.sessions == old(db.sessions) && db.allowedEmails == old(db.allowedEmails)
    ensures old(db.Valid()) ==> db.Valid()
    ensures body.None? || !RequestCodeValid(env.formats, body.value) ==>
      && reply.delayMs == 0 && mail.None?
      && limiter.counters == old(limiter.counters)
      && db.otpCodes == old(db.otpCodes) && db.events == old(db.events)
    ensures body.Some? && RequestCodeValid(env.formats, body.value) ==>
      var email := NormalizeEmailForKey(ParseRequestCode(env.formats, body.value).value);
      var meta := GetRequestMeta(headers, env.sha, env.auditSalt);
      var limits := CheckRequestLimits(old(limiter.counters), email, meta.ipHash, env.now, env.redis);
      var risk := RequestRisk(limits, env.failures);
      var stage := RequestStageOf(limits, risk, email in old(db.allowedEmails));
      var code := GenerateOtpCode(draw);
      && limiter.counters == limits.after
      && reply.delayMs == risk.softDelayMs
      && (stage.Block? ==>
            && db.otpCodes == old(db.otpCodes) && mail.None?
            && db.events == old(db.events) + [EventRecord(RequestEvent(AuthOutcome.Blocked, email, meta, risk.score, Some(stage.reason)))])
      && (stage.NotAllowlisted? ==>
            && db.otpCodes == old(db.otpCodes) && mail.None?
            && db.events == old(db.events) + [EventRecord(RequestEvent(Failure, email, meta, risk.score, Some("email-not-allowlisted")))])
      && (stage.Issue? ==>
            && db.otpCodes == IssueCode(old(db.otpCodes), email, HashOtp(env.hmac, env.otpSecret, email, code), env.now)
            && mail == Some(OtpMail(email, code))
            && db.events == old(db.events) + (if emailSent then [EventRecord(RequestEvent(Success, email, meta, risk.score, None))] else []))
  {
    mail := None;
    reply := RequestCodeReply(GenericMessage, 0);
    if body.None? {
      return;
    }
    var parsed := ParseRequestCode(env.formats, body.value);
    if parsed.None? {
      return;
    }
    var email := NormalizeEmailForKey(parsed.value);
    var meta := GetRequestMeta(headers, env.sha, env.auditSalt);
    reply, mail := HandleRequest(db, limiter, email, meta, env, draw, emailSent);
  }

  /** The route once the body has given a normalised address: count, score, then log or issue. */
  method HandleRequest(db: AuthDb, limiter: MemoryCounters, email: string, meta: RequestMeta,
                       env: RequestCodeEnv, draw: nat, emailSent: bool)
    returns (reply: RequestCodeReply, mail: Option<OtpMail>)
    requires OtpMin <= draw <= OtpMax
    modifies db, limiter
    ensures reply.message == GenericMessage
    ensures db.users == old(db.users) && db.sessions == old(db.sessions) && db.allowedEmails == old(db.allowedEmails)
    ensures old(db.Valid()) ==> db.Valid()
    ensures var limits := CheckRequestLimits(old(limiter.counters), email, meta.ipHash, env.now, env.redis);
      var risk := RequestRisk(limits, env.failures);
      var stage := RequestStageOf(limits, risk, email in old(db.allowedEmails));
      var code := GenerateOtpCode(draw);
      && limiter.counters == limits.after
      && reply.delayMs == risk.softDelayMs
      && (stage.Block? ==>
            && db.otpCodes == old(db.otpCodes) && mail.None?
            && db.events == old(db.events) + [EventRecord(RequestEvent(AuthOutcome.Blocked, email, meta, risk.score, Some(stage.reason)))])
      && (stage.NotAllowlisted? ==>
            && db.otpCodes == old(db.otpCodes) && mail.None?
            && db.events == old(db.events) + [EventRecord(RequestEvent(Failure, email, meta, risk.score, Some("email-not-allowlisted")))])
      && (stage.Issue? ==>
            && db.otpCodes == IssueCode(old(db.otpCodes), email, HashOtp(env.hmac, env.otpSecret, email, code), env.now)
            && mail == Some(OtpMail(email, code))
            && db.events == old(db.events) + (if emailSent then [EventRecord(RequestEvent(Success, email, meta, risk.score, None))] else []))
  {
    var limits := CountRequest(limiter, email, meta.ipHash, env.now, env.redis);
    var emailLimited := !limits.byEmail.allowed || !limits.byEmailDay.allowed || !limits.byEmailIp.allowed;
    var ipSoftLimited := !limits.byIp.allowed;
    var risk := DecideRisk(SignalsOf(ipSoftLimited, emailLimited, env.failures));
    reply := RequestCodeReply(GenericMessage, risk.softDelayMs);
    mail := Decide(db, email, meta, risk, emailLimited, env, draw, emailSent);
  }

  /** The four counter calls of the route. */
  method CountRequest(limiter: MemoryCounters, email: string, ipHash: string, now: int, redis: string -> DistributedOutcome)
    returns (limits: RequestLimits)
    modifies limiter
    ensures limits == CheckRequestLimits(old(limiter.counters), email, ipHash, now, redis)
    ensures limiter.counters == limits.after
  {
    var k1, k2, k3, k4 := EmailKey(email), EmailDayKey(email), EmailIpKey(email, ipHash), IpKey(ipHash);
    var byEmail := limiter.CheckRateLimit(k1, RequestCodeByEmail15m.limit, RequestCodeByEmail15m.windowMs, now, redis(k1));
    var byEmailDay := limiter.CheckRateLimit(k2, RequestCodeByEmailDay.limit, RequestCodeByEmailDay.windowMs, now, redis(k2));
    var byEmailIp := limiter.CheckRateLimit(k3, RequestCodeByEmailIp15m.limit, RequestCodeByEmailIp15m.windowMs, now, redis(k3));
    var byIp := limiter.CheckRateLimit(k4, RequestCodeByIp10mSoft.limit, RequestCodeByIp10mSoft.windowMs, now, redis(k4));
    limits := RequestLimits(byEmail, byEmailDay, byEmailIp, byIp, limiter.counters);
  }

  /** Everything after the risk decision: log a block or a refusal, or issue a code. */
  method Decide(db: AuthDb, email: string, meta: RequestMeta, risk: RiskDecision, emailLimited: bool,
                env: RequestCodeEnv, draw: nat, emailSent: bool)
    returns (mail: Option<OtpMail>)
    requires OtpMin <= draw <= OtpMax
    modifies db
    ensures db.users == old(db.users) && db.sessions == old(db.sessions) && db.allowedEmails == old(db.allowedEmails)
    ensures old(db.Valid()) ==> db.Valid()
    ensures risk.hardBlock || emailLimited ==>
      && db.otpCodes == old(db.otpCodes) && mail.None?
      && db.events == old(db.events) + [EventRecord(RequestEvent(AuthOutcome.Blocked, email, meta, risk.score,
                                          Some(if risk.hardBlock then "risk-hard-block" else "email-rate-limited")))]
    ensures !(risk.hardBlock || emailLimited) && email !in db.allowedEmails ==>
      && db.otpCodes == old(db.otpCodes) && mail.None?
      && db.events == old(db.events) + [EventRecord(RequestEvent(Failure, email, meta, risk.score, Some("email-not-allowlisted")))]
    ensures !(risk.hardBlock || emailLimited) && email in db.allowedEmails ==>
      var code := GenerateOtpCode(draw);
      && db.otpCodes == IssueCode(old(db.otpCodes), email, HashOtp(env.hmac, env.otpSecret, email, code), env.now)
      && mail == Some(OtpMail(email, code))
      && db.events == old(db.events) + (if emailSent then [EventRecord(RequestEvent(Success, email, meta, risk.score, None))] else [])
  {
    mail := None;
    if risk.hardBlock || emailLimited {
      var reason := if risk.hardBlock then "risk-hard-block" else "email-rate-limited";
      LogAuthEvent(db, RequestEvent(AuthOutcome.Blocked, email, meta, risk.score, Some(reason)));
      return;
    }

    if email !in db.allowedEmails {
      LogAuthEvent(db, RequestEvent(Failure, email, meta, risk.score, Some("email-not-allowlisted")));
      return;
    }

    var code := GenerateOtpCode(draw);
    var codeHash := HashOtp(env.hmac, env.otpSecret, email, code);
    if OneOpenPerEmail(db.otpCodes) {
      IssueLeavesOneOpenCode(db.otpCodes, email, codeHash, env.now);
    }
    db.otpCodes := IssueCode(db.otpCodes, email, codeHash, env.now);
    mail := Some(OtpMail(email, code));
    if emailSent {
      LogAuthEvent(db, RequestEvent(Success, email, meta, risk.score, None));
    }
  }
}
