/**
 * Reading the server's environment variables (`src/lib/env.ts`): optional
 * values are trimmed and unquoted, three secrets fall back to development
 * defaults, and `assertServerEnv` refuses a missing database URL and, in
 * production, any secret left at its default.
 */
module Env {
  import opened Wrappers
  import opened Text

  const SessionFallback: string := "dev-insecure-session-secret-change-me-please"
  const OtpFallback: string := "dev-insecure-otp-secret-change-me-please"
  const AuditFallback: string := "dev-insecure-audit-salt-change-me-please"
  const DefaultAppUrl: string := "http://localhost:3000"

  predicate IsQuote(c: char) {
    c == '\'' || c == '"'
  }

  /** `.replace(/^['"]|['"]$/g, "")`: one leading and one trailing quote removed, whichever kind. */
  function StripWrappingQuotes(t: string): (r: string)
    ensures |r| <= |t|
    ensures r == t <==> (t == [] || (!IsQuote(t[0]) && !IsQuote(t[|t| - 1])))
  {
    var a := if t != [] && IsQuote(t[0]) then t[1..] else t;
    if a != [] && IsQuote(a[|a| - 1]) then a[..|a| - 1] else a
  }

  /**
   * `normalizeOptionalEnv`: a non-string is absent; otherwise trim, give up
   * when blank, strip the wrapping quotes, trim again, and give up when
   * nothing is left.
   */
  function NormalizeOptionalEnv(value: Option<string>): (r: Option<string>)
    ensures r.Some? ==> r.value != [] && !IsSpace(r.value[0]) && !IsSpace(r.value[|r.value| - 1])
    ensures r.Some? ==> value.Some? && |r.value| <= |value.value|
    ensures value.Some? && IsBlank(value.value) ==> r.None?
  {
    match value
    case None => None
    case Some(v) =>
      var trimmed := Trim(v);
      if trimmed == [] then None
      else
        var unquoted := Trim(StripWrappingQuotes(trimmed));
        if unquoted == [] then None else Some(unquoted)
  }

  /** A value with no quote or white space at its ends comes back unchanged. */
  lemma NormalizePlainValue(v: string)
    requires v != [] && !IsSpace(v[0]) && !IsSpace(v[|v| - 1])
    requires !IsQuote(v[0]) && !IsQuote(v[|v| - 1])
    ensures NormalizeOptionalEnv(Some(v)) == Some(v)
  {
    TrimUnspaced(v);
  }

  /** A value written inside quotes and surrounded by white space is read as the bare value. */
  lemma NormalizeQuotedValue(pre: string, q: char, v: string, q2: char, post: string)
    requires IsBlank(pre) && IsBlank(post) && IsQuote(q) && IsQuote(q2)
    requires v != [] && !IsSpace(v[0]) && !IsSpace(v[|v| - 1])
    ensures NormalizeOptionalEnv(Some(pre + [q] + v + [q2] + post)) == Some(v)
  {
    var whole := pre + [q] + v + [q2] + post;
    var inner := QuotedTrim(pre, q, v, q2, post);
    StripQuoted(q, v, q2);
    TrimUnspaced(v);
    assert NormalizeOptionalEnv(Some(whole)) == Some(Trim(StripWrappingQuotes(inner)));
  }

  /** Trimming the padded quoted value leaves the quoted value. */
  lemma QuotedTrim(pre: string, q: char, v: string, q2: char, post: string) returns (inner: string)
    requires IsBlank(pre) && IsBlank(post) && IsQuote(q) && IsQuote(q2)
    ensures inner == [q] + v + [q2] && Trim(pre + [q] + v + [q2] + post) == inner
  {
    inner := [q] + v + [q2];
    assert pre + [q] + v + [q2] + post == pre + inner + post;
    TrimIgnoresPadding(pre, inner, post);
    QuotedUnspaced(q, v, q2);
  }

  lemma StripQuoted(q: char, v: string, q2: char)
    requires IsQuote(q) && IsQuote(q2)
    ensures StripWrappingQuotes([q] + v + [q2]) == v
  {
    var inner := [q] + v + [q2];
    assert inner[1..] == v + [q2];
    assert (v + [q2])[..|v|] == v;
  }

  lemma QuotedUnspaced(q: char, v: string, q2: char)
    requires IsQuote(q) && IsQuote(q2)
    ensures Trim([q] + v + [q2]) == [q] + v + [q2]
  {
    var inner := [q] + v + [q2];
    assert !IsSpace(inner[0]) && !IsSpace(inner[|inner| - 1]);
    TrimUnspaced(inner);
  }

  datatype NodeEnv = Development | Test | Production

  /** The environment after parsing, with the fallbacks applied. */
  datatype ServerEnv = ServerEnv(
    nodeEnv: NodeEnv,
    databaseUrl: Option<string>,
    authSessionSecret: string,
    otpHashSecret: string,
    auditHashSalt: string,
    resendApiKey: Option<string>,
    resendFromEmail: Option<string>,
    upstashRedisRestUrl: Option<string>,
    upstashRedisRestToken: Option<string>,
    appUrl: string,
    initialAdminEmail: Option<string>)

  /** The error `assertServerEnv` throws. */
  datatype EnvError =
    | MissingDatabaseUrl
    | InsecureSessionSecret
    | InsecureOtpSecret
    | InsecureAuditSalt

  /** The variable `name` from `process.env`, normalised. */
  function Optional(vars: map<string, string>, name: string): (r: Option<string>)
    ensures name !in vars ==> r.None?
  {
    NormalizeOptionalEnv(if name in vars then Some(vars[name]) else None)
  }

  /** `NODE_ENV`: one of three names, `development` when unset. */
  function ParseNodeEnv(vars: map<string, string>): (r: Option<NodeEnv>)
    ensures "NODE_ENV" !in vars ==> r == Some(Development)
    ensures r.Some? && "NODE_ENV" in vars ==> vars["NODE_ENV"] in {"development", "test", "production"}
  {
    if "NODE_ENV" !in vars then Some(Development)
    else if vars["NODE_ENV"] == "development" then Some(Development)
    else if vars["NODE_ENV"] == "test" then Some(Test)
    else if vars["NODE_ENV"] == "production" then Some(Production)
    else None
  }

  /**
   * The module-level `envSchema.safeParse(process.env)` followed by the
   * fallbacks. `isUrl` stands for zod's URL check on `APP_URL`.
   */
  function LoadEnv(vars: map<string, string>, isUrl: string -> bool): (r: Option<ServerEnv>)
    ensures r.None? <==>
      ParseNodeEnv(vars).None? || (Optional(vars, "APP_URL").Some? && !isUrl(Optional(vars, "APP_URL").value))
    ensures r.Some? ==>
      && r.value.authSessionSecret == Optional(vars, "AUTH_SESSION_SECRET").GetOr(SessionFallback)
      && r.value.otpHashSecret == Optional(vars, "OTP_HASH_SECRET").GetOr(OtpFallback)
      && r.value.auditHashSalt == Optional(vars, "AUDIT_HASH_SALT").GetOr(AuditFallback)
      && r.value.appUrl == Optional(vars, "APP_URL").GetOr(DefaultAppUrl)
      && r.value.databaseUrl == Optional(vars, "DATABASE_URL")
    ensures r.Some? ==> r.value.authSessionSecret != [] && r.value.otpHashSecret != [] && r.value.auditHashSalt != []
  {
    var nodeEnv := ParseNodeEnv(vars);
    var appUrl := Optional(vars, "APP_URL");
    if nodeEnv.None? || (appUrl.Some? && !isUrl(appUrl.value)) then None
    else
      Some(ServerEnv(
        nodeEnv.value,
        Optional(vars, "DATABASE_URL"),
        Optional(vars, "AUTH_SESSION_SECRET").GetOr(SessionFallback),
        Optional(vars, "OTP_HASH_SECRET").GetOr(OtpFallback),
        Optional(vars, "AUDIT_HASH_SALT").GetOr(AuditFallback),
        Optional(vars, "RESEND_API_KEY"),
        Optional(vars, "RESEND_FROM_EMAIL"),
        Optional(vars, "UPSTASH_REDIS_REST_URL"),
        Optional(vars, "UPSTASH_REDIS_REST_TOKEN"),
        appUrl.GetOr(DefaultAppUrl),
        Optional(vars, "INITIAL_ADMIN_EMAIL")))
  }

  /**
   * `assertServerEnv`: the error it throws, if any. The checks run in order
   * and the first that fails is reported.
   */
  function AssertServerEnv(env: ServerEnv): (r: Option<EnvError>)
    ensures r == Some(MissingDatabaseUrl) <==> env.databaseUrl.None?
    ensures r.Some? && env.databaseUrl.Some? ==> env.nodeEnv == Production
    ensures env.nodeEnv == Production && env.databaseUrl.Some? ==>
      (r.None? <==> env.authSessionSecret != SessionFallback && env.otpHashSecret != OtpFallback && env.auditHashSalt != AuditFallback)
  {
    if env.databaseUrl.None? then Some(MissingDatabaseUrl)
    else if env.nodeEnv == Production && env.authSessionSecret == SessionFallback then Some(InsecureSessionSecret)
    else if env.nodeEnv == Production && env.otpHashSecret == OtpFallback then Some(InsecureOtpSecret)
    else if env.nodeEnv == Production && env.auditHashSalt == AuditFallback then Some(InsecureAuditSalt)
    else None
  }

  /**
   * A production server that passes `assertServerEnv` was given a database
   * URL and all three secrets explicitly, none equal to its development default.
   */
  lemma ProductionNeedsExplicitSecrets(vars: map<string, string>, isUrl: string -> bool)
    requires LoadEnv(vars, isUrl).Some?
    requires LoadEnv(vars, isUrl).value.nodeEnv == Production
    requires AssertServerEnv(LoadEnv(vars, isUrl).value).None?
    ensures Optional(vars, "DATABASE_URL").Some?
    ensures Optional(vars, "AUTH_SESSION_SECRET").Some? && Optional(vars, "AUTH_SESSION_SECRET").value != SessionFallback
    ensures Optional(vars, "OTP_HASH_SECRET").Some? && Optional(vars, "OTP_HASH_SECRET").value != OtpFallback
    ensures Optional(vars, "AUDIT_HASH_SALT").Some? && Optional(vars, "AUDIT_HASH_SALT").value != AuditFallback
  {
  }

  /** Outside production only the database URL is required. */
  lemma DevelopmentNeedsOnlyDatabase(env: ServerEnv)
    requires env.nodeEnv != Production
    ensures AssertServerEnv(env).None? <==> env.databaseUrl.Some?
  {
  }
}
