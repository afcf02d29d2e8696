# A verified model of the Bollsarkivet members' portal

Bollsarkivet is a Next.js members' portal for a ball club. Members sign in
with a one-time e-mail code and then read the news, the calendar, the archive
and the shared tactics board. Admins maintain that content.

This project models the core of the portal in Dafny, on values and on small
in-memory stores:

- the sign-in flow: e-mail normalisation, one-time codes and their HMAC
  digests, fixed-window rate limits, the risk score with its soft delay and
  hard block, sessions, the route guards and the request proxy, and the
  request-code, verify-code and logout routes over an in-memory database;
- the environment loader;
- the tactics board: normalisation and validation of players, pass chains
  and cones, the remaining pass segments, the board route, and the editor's
  board operations;
- the archive's text handling: the markdown renderer, splitting at the
  inline board marker, inserting headings and the marker at the editor's
  selection, and unique slugs;
- the archive tabs: slug normalisation, detection of a runtime that is not
  ready, listing, creation, reordering and resolving the tab a page shows;
- the member navigation bar.

Each operation is given a contract that states what the source promises.
Operations that change state in place are methods of a class. Operations
that loop are methods with loop invariants, proved against a specification
function.

Time is always a parameter `now` in milliseconds. The database is a set of
sequences of rows in a class. Hashing, HMAC and token signing are
function-valued parameters, with their ideal properties stated as
predicates. A database call that throws is an input saying what it threw.

## Model

| member | source | states |
|---|---|---|
| Utils.NormalizeEmail | src/lib/utils.ts:4-6 | the normalised address has no white space at either end and no upper-case ASCII letter, is no longer than the input, and is empty exactly when the input is blank (its value: `NormalizeEmailValue`) |
| Utils.NormalizeEmailValue | src/lib/utils.ts:4-6 | the normalised address is the input's piece after its leading white space (the longest blank prefix) and before a blank rest, lower-cased |
| Utils.NormalizeEmailIdempotent | src/lib/utils.ts:4-6 | normalising a normalised address changes nothing |
| Utils.NormalizeEmailCaseInsensitive | src/lib/utils.ts:4-6 | addresses that differ only in letter case normalise alike |
| Utils.NormalizeEmailIgnoresPadding | src/lib/utils.ts:4-6 | surrounding white space does not change the normalised address |
| Utils.SlugifyIsSlug | src/lib/utils.ts:8-16 | every slug holds only a-z, 0-9 and single inner dashes, whatever the input |
| Utils.SlugIsFixedPoint | src/lib/utils.ts:8-16 | slugifying a well-formed slug returns it unchanged |
| Utils.SlugifyIdempotent | src/lib/utils.ts:8-16 | slugify is idempotent |
| Utils.SafeEqualHex | src/lib/utils.ts:30-37 | decoded buffers of different length compare unequal; the result is true iff the decoded bytes are equal |
| Utils.SafeEqualHexSymmetric | src/lib/utils.ts:30-37 | the comparison does not depend on the order of its arguments |
| Utils.SafeEqualHexOnDigests | src/lib/utils.ts:30-37 | on lower-case hex digests the comparison is exactly string equality |
| Utils.HexDecodeInjective | src/lib/utils.ts:31-32 | two lower-case hex strings that decode to the same bytes are equal |
| Utils.HashIdentifierSeparates | src/lib/utils.ts:26-28 | with a collision-free digest, two values hash alike under the same salt iff they are equal |
| Utils.Nfkd | src/lib/utils.ts:11 | the decomposition is never shorter than its input |
| Utils.DropPunctuation | src/lib/utils.ts:12 | only word characters, white space and dashes remain, and a text of those alone is unchanged |
| Utils.CollapseSeparators | src/lib/utils.ts:14 | no white space or underscore remains, no two dashes are adjacent, the result is empty iff the input is, and it starts with a dash iff the input starts with a separator |
| Utils.TrimDashes | src/lib/utils.ts:15 | the result neither starts nor ends with a dash |
| Dates.SubHours | src/lib/dates.ts:1-3 | going back a non-negative number of hours never moves forward, and the instant is unchanged iff the hours are 0 |
| Dates.AddSeconds | src/lib/dates.ts:5-7 | adding non-negative seconds never moves back, and the instant is unchanged iff the seconds are 0 |
| Dates.SubHoursAddSeconds | src/lib/dates.ts:1-7 | going back h hours and forward 3600·h seconds returns to the start |
| Env.StripWrappingQuotes | src/lib/env.ts:13 | the result is no longer than the input, and equals it iff the input has no quote at either end |
| Env.NormalizeOptionalEnv | src/lib/env.ts:3-15 | a present result is non-empty with no white space at either end and no longer than the input; a missing or blank value gives no value |
| Env.NormalizePlainValue | src/lib/env.ts:3-15 | a value without quotes or white space at its ends comes back unchanged |
| Env.NormalizeQuotedValue | src/lib/env.ts:8-14 | a quoted value surrounded by white space is read as the bare value |
| Env.LoadEnv | src/lib/env.ts:20-49 | parsing fails iff NODE_ENV is not one of the three names or APP_URL is not a URL; otherwise the three secrets and APP_URL fall back to their defaults and are never empty |
| Env.AssertServerEnv | src/lib/env.ts:51-66 | a missing DATABASE_URL is reported first; in production the result is clean iff no secret equals its development fallback; other errors only occur in production |
| Env.ProductionNeedsExplicitSecrets | src/lib/env.ts:39-66 | a production environment that passes the check was given the database URL and all three secrets, none equal to its fallback |
| Env.DevelopmentNeedsOnlyDatabase | src/lib/env.ts:51-55 | outside production only DATABASE_URL is required |
| Env.ParseNodeEnv | src/lib/env.ts:21 | an unset NODE_ENV means development; a set one is accepted only as one of the three names |
| Guards.HasRole | src/lib/auth/guards.ts:9-14 | no list or an empty list admits every role; otherwise a role is admitted iff it is listed |
| Guards.RequireApiUser | src/lib/auth/guards.ts:29-38 | 401 without a session, 403 with a role not admitted, and with an admitted role exactly the session's user and no error response |
| Guards.RequireServerUser | src/lib/auth/guards.ts:16-27 | redirect to /login without a session, to /dashboard with a role not admitted, and with an admitted role proceeds with exactly the session's user |
| Guards.GuardsAgree | src/lib/auth/guards.ts:16-38 | the API guard and the page guard let exactly the same sessions through |
| Audit.EventRecord | src/lib/auth/audit.ts:15-27 | type and outcome are copied; absent optional fields become null; an absent risk score becomes 0 |
| Audit.LogAuthEvent | src/lib/auth/audit.ts:15-28 | exactly one event is appended and every other table is unchanged |
| Otp.GenerateOtpCode | src/lib/auth/otp.ts:6-10 | a draw from [100000, 999999] gives six digits with no leading zero whose decimal value is the draw |
| Otp.VerifyOtpHash | src/lib/auth/otp.ts:17-20 | a code verifies iff its recomputed digest compares equal to the stored one |
| Otp.HashOtpNormalizesEmail | src/lib/auth/otp.ts:12-15 | addresses with the same normalised form give the same digest |
| Otp.HashOtpCaseInsensitive | src/lib/auth/otp.ts:12-15 | addresses that differ only in letter case give the same digest |
| Otp.VerifyOwnHash | src/lib/auth/otp.ts:12-20 | a code always verifies against the digest made from it |
| Otp.VerifyIffSameDigest | src/lib/auth/otp.ts:17-20 | with an ideal HMAC, a stored lower-case digest verifies iff it is the digest of the same address and code |
| Otp.VerifyRejectsOtherCode | src/lib/auth/otp.ts:12-20 | with an ideal HMAC, a different code never verifies against a code's digest |
| Otp.HashOtpInjective | src/lib/auth/otp.ts:12-15 | with an ideal HMAC, two different codes for the same address have different digests |
| Proxy.Proxy | src/proxy.ts:17-58 | static paths pass; public paths pass, except that /login with a verifying token redirects to /dashboard; other paths pass iff the token is present and verifies, and are otherwise refused with 401 under /api/ or redirected to /login |
| Proxy.StaticNeverBlocked | src/proxy.ts:8-22 | a static path is never an API path and always passes |
| Proxy.PublicPathsIgnoreToken | src/proxy.ts:24-33 | a public path other than /login passes whatever the token |
| Proxy.PublicNotStatic | src/proxy.ts:8-24 | no public path is a static path, so public paths reach the public branch |
| RequestMeta.GetClientIp | src/lib/auth/request-meta.ts:11-17 | with a non-empty forwarded header, the trimmed first comma-separated entry, which holds no comma; otherwise x-real-ip, else "unknown" |
| RequestMeta.ForwardedFirstEntry | src/lib/auth/request-meta.ts:13-14 | the client address before the first comma is what is taken, without surrounding spaces |
| RequestMeta.GetRequestMeta | src/lib/auth/request-meta.ts:19-28 | the address and user agent ("unknown" when missing) together with their salted hashes |
| RequestMeta.IpHashIdentifiesAddress | src/lib/auth/request-meta.ts:19-28 | with a collision-free digest, two requests share an address hash iff they share the address |
| RequestMeta.NormalizeEmailForKey | src/lib/auth/request-meta.ts:30-32 | the key form of an address is its normalised form |
| Risk.FailurePoints | src/lib/auth/risk.ts:22-24 | points are capped, reach the cap iff count·per does, and are 0 without failures |
| Risk.ScoreSignals | src/lib/auth/risk.ts:18-26 | the score lies in 0..100 and exceeds the flag points by at most 65 |
| Risk.SoftDelayMs | src/lib/auth/risk.ts:30 | there is no delay iff the score is below 40; otherwise the delay lies between 1000 and 8000 ms |
| Risk.DecideRisk | src/lib/auth/risk.ts:28-33 | score in 0..100; no delay iff score < 40, otherwise 1000..8000 ms; hard block iff score ≥ 95 |
| Risk.DecideRiskMonotone | src/lib/auth/risk.ts:18-33 | raising any signal never lowers the score, the delay or the block verdict |
| Risk.NoFlagsNoHardBlock | src/lib/auth/risk.ts:18-33 | without either flag the score is at most 65, the delay at most 4000 ms, and nothing is blocked |
| Risk.HardBlockNeedsAFlag | src/lib/auth/risk.ts:18-33 | every hard block involves a rate-limit flag |
| Risk.IpSoftLimitAloneDelays | src/lib/auth/risk.ts:21-31 | the shared-IP flag alone gives a 1600 ms delay and no block |
| Risk.CombinedAbuseHardBlocks | src/lib/auth/risk.ts:18-33 | both flags with many failures hard-block |
| Risk.IpSoftLimitWithFailuresHardBlocks | src/lib/auth/risk.ts:21-31 | the shared-IP flag with saturated failure counts reaches 100 and hard-blocks without the e-mail flag |
| RateLimit.GetBucket | src/lib/auth/rate-limit.ts:30-32 | the bucket is the index of the wall-clock window that contains now |
| RateLimit.NextEntry | src/lib/auth/rate-limit.ts:34-44 | a missing or ended entry restarts at count 1 ending one window from now; a live one counts one more with the same end |
| RateLimit.ResultFor | src/lib/auth/rate-limit.ts:64-70 | allowed iff count ≤ limit; retry-after is never negative and is 0 iff the window has ended |
| RateLimit.CountersAfter | src/lib/auth/rate-limit.ts:55-62 | only the key's entry changes, and only on the in-memory path |
| RateLimit.CheckResult | src/lib/auth/rate-limit.ts:55-70 | the reported limit is the limit, retry-after is non-negative, and the call is allowed iff its count is at most the limit |
| RateLimit.MemoryCounters.MemoryIncrement | src/lib/auth/rate-limit.ts:34-44 | the new entry is NextEntry of the old one, and the map changes at that key only |
| RateLimit.MemoryCounters.CheckRateLimit | src/lib/auth/rate-limit.ts:55-71 | a distributed count is used as is and leaves the map alone; otherwise, and on any distributed error, the in-memory counter counts the call; the call is allowed iff its count is at most the limit |
| RateLimit.ReplayWithinWindow | src/lib/auth/rate-limit.ts:34-44 | hits inside an open window are counted one by one, with the window end unchanged |
| RateLimit.WindowAllowsExactlyLimit | src/lib/auth/rate-limit.ts:34-70 | within the window a first hit opens, hits 1..limit are allowed and every later one is refused |
| RateLimit.RetryAfterAtMostWindow | src/lib/auth/rate-limit.ts:37-64 | with a clock that does not run backwards, the advertised retry delay is at most one window |
| Session.IssueSession | src/lib/auth/session.ts:10-29 | one open session row ending seven days from now is appended; the token signs the user, role, e-mail and the new session id; no other table changes |
| Session.LoadSessionFromToken | src/lib/auth/session.ts:51-77 | a user is returned iff the token verifies, carries both ids, and names a live session of that user; the identity comes from the stored user |
| Session.ReadSessionFromToken | src/lib/auth/session.ts:79-90 | no token or an empty one gives no session; otherwise the token is loaded |
| Session.IssuedTokenLoads | src/lib/auth/session.ts:10-77 | a freshly issued token loads its session while that session is live |
| Session.RevokedSessionNeverLoads | src/lib/auth/session.ts:57-69 | a token naming a revoked session never loads |
| Session.ClaimsDoNotMatter | src/lib/auth/session.ts:57-76 | the token's role and e-mail claims do not affect the loaded user |
| Session.SetSessionCookie | src/lib/auth/session.ts:31-39 | the cookie carries the token, is HTTP-only, lax and site-wide, is secure in production, and expires with the session |
| Session.ClearSessionCookie | src/lib/auth/session.ts:41-49 | an empty value that expires at once, with the same flags |
| Session.ClearReplacesSessionCookie | src/lib/auth/session.ts:31-49 | clearing overwrites the cookie setting wrote; only the value and the lifetime differ |
| Logout.Revoked | src/app/api/auth/logout/route.ts:13-19 | only the caller's session changes; it ends up revoked and keeps an earlier revocation time |
| Logout.RevokeIsIdempotent | src/app/api/auth/logout/route.ts:13-19 | logging out twice equals logging out once |
| Logout.LogoutRoute | src/app/api/auth/logout/route.ts:8-34 | 401 and no change without a session; otherwise the session is revoked, one logout event with score 0 is logged, and the cookie is cleared; users, codes and the allow-list are unchanged |
| Logout.LogoutEndsOnlyThatSession | src/app/api/auth/logout/route.ts:13-19 | after logout that session is never live again, and every other session is exactly as live as before |
| RequestCode.CheckRequestLimits | src/app/api/auth/request-code/route.ts:33-42 | the four counters are checked with the limits 5, 20, 8 and 200 |
| RequestCode.RequestStageOf | src/app/api/auth/request-code/route.ts:57-89 | a code is issued iff there is no hard block, no address counter refused, and the address is allow-listed; the request is blocked iff there is a hard block or an address counter refused |
| RequestCode.IpSoftLimitBlocksOnlyThroughRisk | src/app/api/auth/request-code/route.ts:44-57 | with the address counters in bounds, a request is blocked iff the score hard-blocks; the shared-IP flag alone never blocks |
| RequestCode.RequestEvent | src/app/api/auth/request-code/route.ts:58-68 | the audit entry is a request-code event with the outcome and the normalised address |
| RequestCode.ConsumeOpen | src/app/api/auth/request-code/route.ts:94-97 | exactly the open codes of the address are marked consumed at now |
| RequestCode.IssueCode | src/app/api/auth/request-code/route.ts:89-101 | one new code is appended, open, with zero attempts, expiring ten minutes from now |
| RequestCode.IssueLeavesOneOpenCode | src/app/api/auth/request-code/route.ts:93-101 | after issuing, the new code is the only open code of the address, every other address keeps its open codes, and at most one code per address is open |
| RequestCode.RequestCodeRoute | src/app/api/auth/request-code/route.ts:16-118 | every exit answers with the same generic message; a body that is not JSON or fails the schema changes nothing; otherwise the four counters are counted and the reply waits the soft delay; then a blocked or not-allow-listed attempt is logged and no code is issued, or the address's open codes are replaced by one new code that is mailed and logged |
| RequestCode.HandleRequest | src/app/api/auth/request-code/route.ts:30-118 | for a normalised address: the four counters are counted, the reply waits the soft delay, then a block or a refusal is logged, or one new code replaces the address's open codes and is mailed |
| RequestCode.CountRequest | src/app/api/auth/request-code/route.ts:33-42 | the four counter calls run one after another on the shared counters |
| RequestCode.Decide | src/app/api/auth/request-code/route.ts:57-112 | a block logs a blocked event naming the reason; an address not on the allow-list logs a failure; otherwise a code is issued and mailed, and success is logged once the mail is sent |
| VerifyCode.LatestOpen | src/app/api/auth/verify-code/route.ts:81-84 | the chosen code is an open code of the address with the newest creation time; none is chosen iff the address has no open code |
| VerifyCode.LatestOpenIsOnlyOpen | src/app/api/auth/verify-code/route.ts:81-84 | while each address has at most one open code, the newest open code is the only one |
| VerifyCode.LatestOpenIgnoresAttempts | src/app/api/auth/verify-code/route.ts:131-134 | counting a failed attempt does not change which code is checked next |
| VerifyCode.VerifyStageOf | src/app/api/auth/verify-code/route.ts:48-145 | the checks run in the route's order: rate limit or hard block, allow-list, an open code, expiry, the five-attempt ceiling, then the digest; each later stage implies every earlier check passed |
| VerifyCode.CodesAfter | src/app/api/auth/verify-code/route.ts:99-156 | the code table keeps its length after any stage |
| VerifyCode.CodesAfterKeepsOneOpen | src/app/api/auth/verify-code/route.ts:99-156 | consuming a code or counting an attempt keeps at most one open code per address |
| VerifyCode.StageError | src/app/api/auth/verify-code/route.ts:59-144 | a refusal answers 429 iff it is a rate block or the attempt ceiling |
| VerifyCode.StageOutcome | src/app/api/auth/verify-code/route.ts:49-174 | the audit outcome is success iff the code matched, and blocked iff the refusal is a rate block or the attempt ceiling |
| VerifyCode.FindUser | src/app/api/auth/verify-code/route.ts:147-151 | the found user has the address; none is found iff no user has it |
| VerifyCode.UpsertUser | src/app/api/auth/verify-code/route.ts:147-151 | an existing user is kept unchanged; otherwise a member with the address is appended |
| VerifyCode.UpsertKeepsEmailsUnique | src/app/api/auth/verify-code/route.ts:147-151 | upserting keeps user e-mails unique |
| VerifyCode.ExpiryCheckedBeforeAttempts | src/app/api/auth/verify-code/route.ts:99-116 | an expired newest code is consumed whatever its attempt count and whatever code was sent |
| VerifyCode.CeilingBlocksEveryCode | src/app/api/auth/verify-code/route.ts:116-127 | a live code with five failed attempts blocks even the right code, and the table stays unchanged |
| VerifyCode.WrongCodesCount | src/app/api/auth/verify-code/route.ts:129-145 | checking n wrong codes in turn against one live code, each through the route's own stage and update, raises that code's attempt count by exactly n, changes nothing else, and leaves it the code checked |
| VerifyCode.SixthAttemptBlocked | src/app/api/auth/verify-code/route.ts:116-145 | after five wrong codes are checked in turn against a fresh code, the sixth try, whatever it sends, meets that same code with too many attempts |
| VerifyCode.VerifyCodeRoute | src/app/api/auth/verify-code/route.ts:14-188 | a bad body answers 400 and changes nothing; otherwise the verify counter is counted, the soft delay is waited, the code table follows the stage, a refusal logs one event and answers the stage's error, and a match upserts the user, consumes the code, issues one session, sets the cookie and logs success |
| VerifyCode.HandleVerify | src/app/api/auth/verify-code/route.ts:27-188 | for a normalised address and code: the verify counter is counted, the soft delay is the risk's, the code table follows the stage, a refusal logs one event, and a match issues one session and its cookie |
| VerifyCode.CheckCode | src/app/api/auth/verify-code/route.ts:48-97 | the tables after the checks that need no code agree with the stage |
| VerifyCode.CheckLatest | src/app/api/auth/verify-code/route.ts:99-145 | the checks on the newest open code agree with the stage |
| VerifyCode.RecordFailure | src/app/api/auth/verify-code/route.ts:99-144 | a refusal changes only the code table, by the stage, and appends one audit entry |
| VerifyCode.AcceptCode | src/app/api/auth/verify-code/route.ts:147-187 | a match upserts the user, consumes the code, appends one session expiring after the session lifetime, sets its cookie and logs success |
| VerifyCode.ConsumeMatch | src/app/api/auth/verify-code/route.ts:147-158 | a match upserts the user by e-mail and consumes the matching code; sessions, events and the allow-list are untouched and the database invariant is kept |
| VerifyCode.WrongCodeIsMismatch | src/app/api/auth/verify-code/route.ts:129-145 | an allowed address whose latest open code is live and under the attempt ceiling, given a code that does not verify, reaches the mismatch stage for that code |
| VerifyCode.MismatchCounts | src/app/api/auth/verify-code/route.ts:131-134 | a mismatch adds one to that code's attempt count, changes nothing else, and leaves the latest open code where it was |
| Validation.Strip | src/lib/validation.ts:3-10 | the parsed object keeps exactly the schema's keys that were sent, with their values |
| Validation.ParseRequestCode | src/lib/validation.ts:3-5 | a body parses iff it is an object whose email is a string of e-mail form, and the result is that string |
| Validation.ParseVerifyCode | src/lib/validation.ts:7-10 | a body parses iff it also carries a code of exactly six digits; the e-mail is the one the request schema reads and the code is the string sent |
| Validation.GeneratedCodesAreWellFormed | src/lib/validation.ts:9 | every code the login flow generates passes the six-digit rule |
| Validation.CodeMustBeSixDigits | src/lib/validation.ts:9 | a seventh character or a non-digit makes a code fail |
| Validation.StripAll | src/lib/validation.ts:89-93 | each parsed list entry is its object with only the schema's keys |
| Validation.ParseTacticBoard | src/lib/validation.ts:66-93 | a board parses iff it matches the schema; it then has exactly four cones, missing players and chains default to empty, every player and chain passes its schema, and each list is the sent list with every entry stripped to its schema's keys |
| Validation.RepeatedChainIdsAccepted | src/lib/validation.ts:80 | a chain may name the same player twice |
| Validation.OneConeRefused | src/lib/validation.ts:92 | a board with one cone is refused |
| Validation.OnePlayerChainRefused | src/lib/validation.ts:80 | a chain naming a single player is refused |
| Validation.BoardDefaults | src/lib/validation.ts:89-93 | players and chains may be left out, the cones may not |
| Validation.EventEndsAfterStart | src/lib/validation.ts:52-64 | an event whose end is not after its start is refused whatever else it carries |
| Validation.ParseTabCreate | src/lib/validation.ts:36-42 | a body parses iff it matches the schema; the title is the sent string of 2 to 120 characters, the slug is present iff sent and is then the sent string, description and introMarkdown are the sent strings and absent when missing or null, and the tab is active unless isActive is false |
| Validation.UpdateIsPartialCreate | src/lib/validation.ts:44-46 | the empty update is valid; a creatable tab without an order is a valid update; a valid update with a title is creatable |
| Validation.OrderIsNaturalNumber | src/lib/validation.ts:45 | a fractional or negative order is refused |
| Validation.ParseReorder | src/lib/validation.ts:48-50 | a body parses iff tabIds is a non-empty list of non-empty strings, returned in the order sent |
| Tactics.Clamp01 | src/lib/tactics.ts:53-58 | the result lies in [0, 1]; a value inside is kept, one above gives 1, a negative or non-finite one gives 0 |
| Tactics.ClampRadius | src/lib/tactics.ts:60-65 | the result lies in [0, 0.5]; a value inside is kept, one above gives 0.5, a negative or non-finite one gives 0 |
| Tactics.ReadString | src/lib/tactics.ts:34-38 | nothing is read iff the value is missing, not a string or blank; otherwise the trimmed string |
| Tactics.ReadTrimmed | src/lib/tactics.ts:34-38 | a trimmed non-empty string reads back as itself |
| Tactics.ReadNumber | src/lib/tactics.ts:40-51 | a JSON number is read as itself, a non-blank string as the number parser gives it, and nothing else yields a number |
| Tactics.Coordinate | src/lib/tactics.ts:88-89 | the coordinate lies in [0, 1]; a missing number gives the default, an in-range one is kept, one above 1 gives 1 and one below 0 gives 0 |
| Tactics.Radius | src/lib/tactics.ts:90 | the radius lies in [0, 0.5]; a missing number gives 0, an in-range one is kept, one above gives 0.5 and a negative one 0 |
| Tactics.NormalizePlayer | src/lib/tactics.ts:81-107 | id and name are the record's trimmed strings when present, else `player-n` and `Spelare n` (n counted from one); coordinates default to the centre and are clamped; the radius defaults to 0 and is clamped; the player is a burner iff isBurner is true or the role is "brannare" in any case |
| Tactics.NormalizedPlayerClamps | src/lib/tactics.ts:88-89 | a coordinate above 1 becomes 1 and one below 0 becomes 0 |
| Tactics.NormalizedPlayerRadius | src/lib/tactics.ts:90 | a radius in [0, 0.5] is kept, one above becomes 0.5 and a negative one 0 |
| Tactics.ObjectPositions | src/lib/tactics.ts:80-82 | the positions kept are record entries only, in strictly increasing order |
| Tactics.ObjectPositionsComplete | src/lib/tactics.ts:80-82 | no record entry is skipped |
| Tactics.MapObjectsPositions | src/lib/tactics.ts:74-111 | mapping the record entries pairs the j-th result with the j-th record entry and its position in the whole list |
| Tactics.PlayersOfObjects | src/lib/tactics.ts:74-111 | the k-th player is the normalised k-th record entry, numbered by its position in the whole list, non-records skipped |
| Tactics.NormalizedPlayers | src/lib/tactics.ts:74-111 | every normalised player is in normal form: trimmed texts, clamped numbers, a "brannare" role marks a burner |
| Tactics.NormalizeTacticPlayers | src/lib/tactics.ts:74-111 | the loop yields the normalised players |
| Tactics.PlayerIds | src/lib/tactics.ts:118 | the set of ids is exactly the ids of the players |
| Tactics.KnownIds | src/lib/tactics.ts:125-128 | the kept ids are trimmed, known, and no more than were sent; one entry gives what `KnownId` keeps of it |
| Tactics.KnownId | src/lib/tactics.ts:126-127 | an entry yields one id iff it reads as a string naming a known player, and that id is the trimmed string |
| Tactics.KnownIdsAppend | src/lib/tactics.ts:125-128 | reading ids distributes over concatenation, so the kept ids are the known ones in the order sent, each as often as sent |
| Tactics.KnownIdsMembers | src/lib/tactics.ts:125-128 | an id is kept iff it is known and some entry reads as it |
| Tactics.NormalizeChain | src/lib/tactics.ts:122-136 | a chain is kept iff at least two known ids are read from its playerIds array, and its ids are exactly those; its id and name are the record's trimmed strings when present, else `chain-n` and `Kedja n` |
| Tactics.NormalizedChainInNormalForm | src/lib/tactics.ts:122-136 | a kept chain is in normal form: trimmed id and name, at least two ids, all known and trimmed |
| Tactics.NormalizedChains | src/lib/tactics.ts:113-140 | a non-array gives no chains; otherwise the chains are exactly those read from the entries that yield one, in order, each with the defaults of its own position; every one is in normal form and passes the chain validation |
| Tactics.ChainPositions | src/lib/tactics.ts:121-132 | the positions listed are in increasing order and each holds a record that yields a chain |
| Tactics.ChainPositionsComplete | src/lib/tactics.ts:121-132 | no entry that yields a chain is missed |
| Tactics.ChainsOfPositions | src/lib/tactics.ts:121-137 | the chains of the first n entries are, one for one and in order, the chains read at the yielding positions |
| Tactics.PositionsComplete | src/lib/tactics.ts:121-137 | the loop visits every position: none accepted is missed |
| Tactics.NormalizePassChains | src/lib/tactics.ts:113-140 | the loop yields the normalised chains |
| Tactics.AppendChainOf | src/lib/tactics.ts:121-137 | one loop step extends the chains of the first entries by the chain of the next entry |
| Tactics.ValidatePassChains | src/lib/tactics.ts:180-199 | accepted iff every chain names at least two known players; otherwise the first failing chain decides the message |
| Tactics.DefaultCones | src/lib/tactics.ts:67-72 | there are four default cones |
| Tactics.NormalizeCone | src/lib/tactics.ts:148-156 | id and coordinates come from the record or the default cone, the coordinates clamped |
| Tactics.NormalizeCones | src/lib/tactics.ts:142-160 | always four cones; cone i is the default unless entry i is a record, which overrides it |
| Tactics.ConeAt | src/lib/tactics.ts:142-160 | cone i is the default unless entry i is a record, which is normalised over the default; either way it is in normal form |
| Tactics.MissingConesGiveDefaults | src/lib/tactics.ts:144-146 | a value that is not a list gives the default cones |
| Tactics.NormalizedPlayerInNormalForm | src/lib/tactics.ts:84-91 | a normalised player is in normal form |
| Tactics.PlayerRoundTrip | src/lib/tactics.ts:81-107 | a player in normal form, written out and normalised again, is unchanged |
| Tactics.ReadFieldsBack | src/lib/tactics.ts:81-107 | any record whose fields hold a normalised player's values normalises to that player |
| Tactics.PlayersRoundTrip | src/lib/tactics.ts:74-111 | a list of players in normal form round-trips through normalisation |
| Tactics.ChainRoundTrip | src/lib/tactics.ts:122-136 | a chain in normal form round-trips through normalisation |
| Tactics.ChainsRoundTrip | src/lib/tactics.ts:113-140 | a list of chains in normal form round-trips |
| Tactics.KnownIdsRoundTrip | src/lib/tactics.ts:125-128 | trimmed known ids are kept as they are |
| Tactics.ConesRoundTrip | src/lib/tactics.ts:142-160 | four cones in normal form round-trip |
| Tactics.ConeRoundTrip | src/lib/tactics.ts:148-156 | a cone in normal form, written out and normalised again over any default, is unchanged |
| Tactics.CountBurners | src/lib/tactics.ts:162-164 | the count is at most the number of players, and zero iff no player is a burner |
| Tactics.CountOneIsUniqueBurner | src/lib/tactics.ts:162-172 | a count of one holds iff exactly one player is a burner |
| Tactics.ValidateBurnerSelection | src/lib/tactics.ts:166-178 | accepted iff there are no players or exactly one burner; otherwise the fixed code and message |
| Tactics.PlayerById | src/lib/tactics.ts:210 | the map keeps the last player with each id; none is found iff no player has it |
| Tactics.ChainPlayers | src/lib/tactics.ts:214-216 | the chain's players are known players, no more than its ids; one id gives the player the map holds for it, or nothing |
| Tactics.ChainPlayersAppend | src/lib/tactics.ts:214-216 | resolving distributes over concatenation, so the players come in the order of the ids, one per known id |
| Tactics.FirstWithId | src/lib/tactics.ts:222 | the first index with the focused id, or none iff it is absent |
| Tactics.FirstBurnerFrom | src/lib/tactics.ts:227 | the first burner at or after the given index, or none iff there is none |
| Tactics.SegmentAt | src/lib/tactics.ts:234-243 | a segment runs from one chain player to the next |
| Tactics.RunStopsAtFirstBurner | src/lib/tactics.ts:222-244 | a non-empty run of segments over a chain's players starts at the first occurrence of the focused player, holds one segment per consecutive non-burner, and ends at the first burner or at the chain's last player |
| Tactics.RunLength | src/lib/tactics.ts:218-244 | without the focused player there is no segment; a focus that is not a burner and not the last player has a run reaching the first burner after it, or the last player, with one segment per step |
| Tactics.FocusedBurnerHasNoRun | src/lib/tactics.ts:227-232 | when the focused player's first occurrence in a chain is a burner, the chain adds no segments |
| Tactics.AppendRun | src/lib/tactics.ts:234-244 | the loop appends exactly the segments of the run |
| Tactics.ResolveRemainingPassSegments | src/lib/tactics.ts:201-248 | no focus gives no segments; otherwise the segments of every chain in order |
| TacticsRoute.ToDto | src/app/api/tactics/route.ts:45-63 | the key and timestamp are copied; the players are the normalised stored players, every chain passes the validation against them, and there are four cones |
| TacticsRoute.StoredBoardReadsBack | src/app/api/tactics/route.ts:221-251 | a stored board of normalised players, chains and cones reads back exactly as saved |
| TacticsRoute.NewBoardReadsAsDefault | src/app/api/tactics/route.ts:74-81 | a new board reads as empty with the default cones |
| TacticsRoute.BoardStore.EnsureBoard | src/app/api/tactics/route.ts:65-82 | an existing board is returned unchanged; otherwise a new default board is created and returned |
| TacticsRoute.Get | src/app/api/tactics/route.ts:169-180 | 401 without a session; a store failure answers 503 and changes nothing; otherwise the board is created if missing and returned normalised |
| TacticsRoute.CheckBoard | src/app/api/tactics/route.ts:186-219 | a non-JSON body and a schema failure are told apart; a body is saved exactly when it parses, its normalised players pass the burner rule and every submitted chain id names one of them; what is saved is the normalised players, the normalised chains over them and the normalised cones of the input, all in normal form with four cones; a refusal names the burner or chain code |
| TacticsRoute.UnknownChainPlayerRefused | src/app/api/tactics/route.ts:204-211 | a board that passes the burner rule but has a chain naming someone not on the board is refused with `INVALID_PASS_CHAIN` |
| TacticsRoute.BurnerRuleComesFirst | src/app/api/tactics/route.ts:198-202 | with players but not exactly one burner, the burner refusal is given before any chain check |
| TacticsRoute.CheckError | src/app/api/tactics/route.ts:190-216 | every refusal of the body answers 400 with the input code |
| TacticsRoute.RawChainsKnown | src/app/api/tactics/route.ts:204-211 | the loop answers whether every submitted chain names only known players |
| TacticsRoute.CheckBody | src/app/api/tactics/route.ts:186-219 | the PUT steps give the checked board |
| TacticsRoute.Put | src/app/api/tactics/route.ts:182-251 | 401 without a session, 403 for non-admins; a refusal or a store failure leaves the board unchanged; otherwise the board `CheckBoard` accepts (the normalised input) is stored and returned |
| TacticsRoute.GetAfterPutReturnsSavedBoard | src/app/api/tactics/route.ts:221-251 | what PUT stores is read back as what it returned |
| TacticsManager.Filter | src/components/admin/tactics-manager.tsx:107 | the kept entries are exactly those that pass, each kept no more often than it occurs; everything is kept when all pass, and one entry is kept iff it passes |
| TacticsManager.FilterAppend | src/components/admin/tactics-manager.tsx:107 | filtering distributes over concatenation, so the kept entries stay in their order, each as often as it occurs |
| TacticsManager.GridPosition | src/components/admin/tactics-manager.tsx:81-88 | the new player's column gives x in [0.34, 0.64]; its row gives y, clamped at 1 |
| TacticsManager.AddPlayer | src/components/admin/tactics-manager.tsx:79-103 | one player is appended with the next ordinal name, a grid position and radius 0; only the first player is a burner; it is selected when the board was empty |
| TacticsManager.AddPlayerKeepsBurnerRule | src/components/admin/tactics-manager.tsx:79-103 | adding a player keeps a board that passed the burner rule passing |
| TacticsManager.StripChain | src/components/admin/tactics-manager.tsx:109-113 | a chain keeps its id and name, and its player ids are those filtered to the known ones |
| TacticsManager.LongChains | src/components/admin/tactics-manager.tsx:114 | exactly the chains with at least two players are kept, in order, as the filter keeps them |
| TacticsManager.StripChains | src/components/admin/tactics-manager.tsx:109-114 | the result is each chain stripped, then the short ones dropped; it passes the validation, every stripped chain long enough is kept, and nothing else |
| TacticsManager.LongChainsValid | src/components/admin/tactics-manager.tsx:109-114 | chains naming only known players are all valid once the short ones are dropped |
| TacticsManager.RemovePlayer | src/components/admin/tactics-manager.tsx:105-126 | the players are the board's filtered to other ids, the chains are the board's stripped to the remaining ids; the player is gone from the board and from every chain, the chains stay valid, nothing else on the board changes, and a removed selection moves to the first player |
| TacticsManager.RemovedEverywhere | src/components/admin/tactics-manager.tsx:107-114 | after the filter the removed id is on no player, hence on no chain valid against the remaining players |
| TacticsManager.RemoveAbsentPlayer | src/components/admin/tactics-manager.tsx:107 | removing an unknown id keeps the players |
| TacticsManager.RenamePlayer | src/components/admin/tactics-manager.tsx:128-133 | only the players with that id change, and only their name |
| TacticsManager.RenameKeepsRules | src/components/admin/tactics-manager.tsx:128-133 | renaming keeps the ids and the burner verdict |
| TacticsManager.SameBurnersSameVerdict | src/lib/tactics.ts:162-178 | the burner verdict depends only on the burner flags |
| TacticsManager.SetBurner | src/components/admin/tactics-manager.tsx:135-143 | a player is a burner iff it has that id, and nothing else changes |
| TacticsManager.SetBurnerSatisfiesRule | src/components/admin/tactics-manager.tsx:135-143 | with unique ids, the board then passes the burner rule iff it is empty or the id is on it |
| TacticsManager.SetPlayerRadius | src/components/admin/tactics-manager.tsx:145-151 | only the players with that id change, to the clamped radius |
| TacticsManager.AddChain | src/components/admin/tactics-manager.tsx:153-171 | with fewer than two players only the message changes; otherwise a chain of the first two players is appended |
| TacticsManager.AddChainKeepsChainsValid | src/components/admin/tactics-manager.tsx:153-171 | adding a chain keeps every chain valid |
| TacticsManager.RemoveChain | src/components/admin/tactics-manager.tsx:173-178 | the chains left are `Filter` of the chains by a different id: the others, in order and with their repeats |
| TacticsManager.UpdateChain | src/components/admin/tactics-manager.tsx:180-185 | the chains with that id take the fields the patch sets; the others are unchanged |
| TacticsManager.AddChainStep | src/components/admin/tactics-manager.tsx:187-195 | with players, the first player is appended to the chains with that id; without, nothing changes |
| TacticsManager.AddChainStepKeepsChainsValid | src/components/admin/tactics-manager.tsx:187-195 | adding a step keeps every chain valid |
| TacticsManager.WithoutStep | src/components/admin/tactics-manager.tsx:205 | the step at the index is removed; an index out of range changes nothing |
| TacticsManager.RemoveChainStep | src/components/admin/tactics-manager.tsx:197-210 | the chains are every chain with the step removed from those with that id, in order, less those left with fewer than two players (`LongChains`, a `Filter`) |
| TacticsManager.RemoveChainStepKeepsChainsValid | src/components/admin/tactics-manager.tsx:197-210 | removing a step keeps every chain valid |
| TacticsManager.CleanName | src/components/admin/tactics-manager.tsx:215 | a blank name becomes the ordinal default, any other is trimmed |
| TacticsManager.CleanPlayers | src/components/admin/tactics-manager.tsx:213-219 | each player keeps its other fields, gets a cleaned name and clamped coordinates and radius, in-range values unchanged |
| TacticsManager.CleanPlayersKeepIds | src/components/admin/tactics-manager.tsx:213-221 | cleaning keeps the set of ids |
| TacticsManager.CleanChain | src/components/admin/tactics-manager.tsx:223-227 | a chain keeps its id, gets a cleaned name, and its player ids are those filtered to the known ones |
| TacticsManager.CleanChains | src/components/admin/tactics-manager.tsx:221-228 | the result is each chain cleaned, then the short ones dropped; it passes the validation, each long enough is kept, and nothing else |
| TacticsManager.SaveBoardPayload | src/components/admin/tactics-manager.tsx:212-228 | the saved payload holds the cleaned players, the board's chains cleaned against them, which are valid, and the cones as they are |
| Markdown.Lines | src/components/ui/markdown-content.tsx:7-28 | every line, CRLF read as LF, is trimmed: empty or without white space at either end |
| Markdown.RunLength | src/components/ui/markdown-content.tsx:27-53 | the run of lines of one kind at the front: all of that kind, at least one when the first line is |
| Markdown.RunOfKind | src/components/ui/markdown-content.tsx:27-53 | a maximal run of one kind at the front has exactly the run's length |
| Markdown.PendingEnds | src/components/ui/markdown-content.tsx:29-51 | a line of another kind flushes the pending paragraph or list before the rest is read |
| Markdown.ReadLine | src/components/ui/markdown-content.tsx:27-53 | one step of the loop keeps the blocks emitted plus those still pending equal to the blocks of the whole input, and never holds a paragraph and a list at once |
| Markdown.PendingAtEnd | src/components/ui/markdown-content.tsx:55-56 | at the end the pending paragraph or list is flushed |
| Markdown.RenderBlocks | src/components/ui/markdown-content.tsx:6-59 | the loop's blocks are the blocks of the input's trimmed lines: consecutive text lines form one paragraph joined by line breaks, consecutive items one list, headings stand alone, blank lines separate |
| Markdown.RenderLines | src/components/ui/markdown-content.tsx:12-58 | the loop over trimmed lines yields their blocks |
| Markdown.BlocksAreNonEmpty | src/components/ui/markdown-content.tsx:27-56 | over trimmed lines no block is empty: headings and paragraphs have text, lists have items |
| Markdown.RenderedBlocksAreNonEmpty | src/components/ui/markdown-content.tsx:6-59 | no rendered block is empty |
| Markdown.HeadingSplits | src/components/ui/markdown-content.tsx:40-52 | a level-two heading after text lines ends their paragraph and stands as its own block |
| BoardMarker.BlankHasNoMarker | src/components/archive/archive-tactics-panel.tsx:25-27 | a blank text holds no marker |
| BoardMarker.PrefixBeforeFirstHasNoMarker | src/components/archive/archive-tactics-panel.tsx:29-36 | the text before the first marker holds none |
| BoardMarker.SplitSource | src/components/archive/archive-tactics-panel.tsx:25-49 | a blank text gives nothing on either side; the marker is reported iff it occurs; without it the whole text, trimmed, comes before the board; with it the trimmed text before its first occurrence comes before, and the trimmed rest with further markers removed comes after |
| BoardMarker.MarkedSplit | src/components/archive/archive-tactics-panel.tsx:38-49 | with the marker first at i, the text before it, trimmed, and the rest with every further marker removed, trimmed |
| BoardMarker.SplitInlineBoardMarkdown | src/components/archive/archive-tactics-panel.tsx:23-50 | the split works on the text with CRLF read as LF; a missing text gives nothing on either side |
| BoardMarker.SplitReassembles | src/components/archive/archive-tactics-panel.tsx:29-47 | the text is exactly the part before the marker, the marker and the part after |
| BoardMarker.StripBoardMarker | src/components/admin/archive-hub-manager.tsx:26-28 | every marker is removed and the text trimmed; a text without one is only trimmed |
| BoardMarker.PreviewMatchesPageWithoutMarker | src/components/admin/archive-hub-manager.tsx:26-28 | without a marker the preview shows what the public page shows before the board |
| BoardMarker.BeforeSeparator | src/components/admin/archive-hub-manager.tsx:80-88 | after a non-empty prefix the inserted line starts after a blank line; at the start nothing is added |
| BoardMarker.AfterSeparator | src/components/admin/archive-hub-manager.tsx:89 | a line break always follows the inserted line, and at most one is added |
| BoardMarker.InsertAtSelection | src/components/admin/archive-hub-manager.tsx:80-92 | the selection is replaced by the line with its separators: the text before and after it is kept, the line starts a paragraph and is followed by a line break, and the caret lands after that break |
| BoardMarker.AppendLine | src/components/admin/archive-hub-manager.tsx:69-77 | without an editor the line is appended after a blank line, or alone when the text is blank |
| BoardMarker.HeadingLine | src/components/admin/archive-hub-manager.tsx:69-92 | the heading marker of the level, then the trimmed selection or the fallback title |
| BoardMarker.InsertHeading | src/components/admin/archive-hub-manager.tsx:66-102 | without an editor the heading is appended and no caret is set; with one it replaces the selection and the caret follows it |
| BoardMarker.InsertBoardMarker | src/components/admin/archive-hub-manager.tsx:104-139 | refused iff the text already holds the marker; otherwise inserted as a heading would be, after which the text holds it |
| BoardMarker.InsertBoardMarkerOnce | src/components/admin/archive-hub-manager.tsx:106-109 | after one insertion a second is always refused |
| Content.BaseSlug | src/lib/content.ts:5 | the slug of the title, or "artikel" when that is empty |
| Content.BaseIsSlug | src/lib/content.ts:5 | the base is always a well-formed slug |
| Content.CandidateInjective | src/lib/content.ts:11-16 | distinct suffixes give distinct candidates |
| Content.FirstFree | src/lib/content.ts:8-18 | the result is free, and it is the first candidate in the order base, base-2, base-3, … that is |
| Content.BuildUniqueSlug | src/lib/content.ts:4-18 | the slug is free and is the first free candidate of the title's base |
| Content.NoSuffixOne | src/lib/content.ts:11-16 | the suffix -1 is never produced |
| Content.FreeBaseIsKept | src/lib/content.ts:11 | a free base is the result itself |
| UiTypes.FirstWithSlug | src/lib/ui-types.ts:31-34 | the index of the first tab with the slug; none iff no tab has it |
| UiTypes.ResolveArchiveTab | src/lib/ui-types.ts:24-36 | no tab iff the list is empty; otherwise the first tab with the requested non-empty slug, or the first tab when the slug is missing, empty or unknown |
| UiTypes.RequestedTabIsShown | src/lib/ui-types.ts:31-34 | a tab with a unique non-empty slug is shown when its slug is asked for |
| UiTypes.UnknownSlugGivesFirstTab | src/lib/ui-types.ts:35 | an unknown slug gives the first tab, as no slug does |
| Nav.IsActivePath | src/components/ui/member-top-nav.tsx:19-24 | the dashboard link is active only on the dashboard itself; any other link only on its own path or below it, at a segment boundary |
| Nav.ActiveBelow | src/components/ui/member-top-nav.tsx:23 | any link other than the dashboard is active on its own path and on every path below it |
| Nav.SegmentBoundary | src/components/ui/member-top-nav.tsx:19-24 | "/adminx" does not activate the admin link, "/admin/users" does, and "/dashboard/x" does not activate the dashboard link |
| Nav.InAdmin | src/components/ui/member-top-nav.tsx:28 | the admin page or a page below it |
| Nav.InAdminIsAdminLinkActive | src/components/ui/member-top-nav.tsx:28 | being in the admin area is the same as the admin link being active |
| Nav.ShowAdminItems | src/components/ui/member-top-nav.tsx:31-32 | the admin links show iff there are some and the admin link is active |
| Nav.Toggle | src/components/ui/member-top-nav.tsx:44 | toggling opens the menu on the current path iff it was not open there |
| Nav.LinkClicked | src/components/ui/member-top-nav.tsx:62 | clicking a menu link closes the menu on every path |
| Nav.ToggleTwice | src/components/ui/member-top-nav.tsx:44 | toggling twice on one path restores whether the menu is open |
| Nav.MenuClosesOnNavigation | src/components/ui/member-top-nav.tsx:29-33 | a menu opened on one path is closed on any other |
| Archive.NormalizeArchiveSlug | src/lib/archive.ts:60-62 | the slug is never empty and always well formed; it is the slug of the value, or of the fallback when the value is missing or blank, and "flik" when both give nothing |
| Archive.FlikIsSlug | src/lib/archive.ts:61 | the last-resort slug "flik" is well formed |
| Archive.ValidSlugIsKept | src/lib/archive.ts:60-62 | a well-formed slug is kept as it is |
| Archive.BlankSlugUsesFallback | src/lib/archive.ts:60-62 | a blank value gives the same slug as a missing one |
| Archive.NormalizeArchiveSlugIdempotent | src/lib/archive.ts:60-62 | normalising a normalised slug changes nothing |
| Archive.IsArchiveRuntimeError | src/lib/archive.ts:64-75 | only an error object counts; code P2021 always does; otherwise it counts iff its lower-cased message names the missing table, column or relation |
| Archive.RuntimeErrorIgnoresCase | src/lib/archive.ts:70-74 | messages equal up to case are judged alike |
| Archive.MarkerInAnyCase | src/lib/archive.ts:70-74 | a message holding a marker in any case is a runtime error |
| Archive.NoMessageNoRuntimeError | src/lib/archive.ts:64-75 | without a message only P2021 counts |
| Archive.MapArchiveTab | src/lib/archive.ts:86-96 | the DTO carries the row's fields, without its creation time |
| Archive.MapArchiveTabRoundTrip | src/lib/archive.ts:86-96 | mapping is lossless: a DTO made back into a row maps to itself, and a row maps back given its creation time |
| Archive.VisibleRows | src/lib/archive.ts:104-107 | a row is kept iff it is active or inactive rows are asked for, and each kept row as often as it occurs in the table |
| Archive.InsertByPosition | src/lib/archive.ts:105 | inserting into a list ordered by position keeps it ordered and adds exactly the row |
| Archive.FirstPrecedesInserted | src/lib/archive.ts:105 | the head of an ordered list precedes everything after it once the row is inserted |
| Archive.SortByPosition | src/lib/archive.ts:105 | the result is ordered by position, then creation time, and is a permutation of the input |
| Archive.MapTabs | src/lib/archive.ts:108 | each DTO maps the row at its index |
| Archive.SafeListArchiveTabs | src/lib/archive.ts:98-119 | a missing model or a runtime error gives the not-ready answer and any other failure is rethrown; otherwise the listed tabs are a permutation of the DTOs of the visible rows (each as often as its row occurs), ordered by position, then creation time (`ListsVisibleTabs`) |
| Archive.ListedTabs | src/lib/archive.ts:104-112 | the tabs of a successful query hold only visible rows, in `order`, each visible row once per occurrence, and are the DTOs of the visible rows sorted by position and then by creation time |
| Archive.ListedInPositionOrder | src/lib/archive.ts:106 | the query's result is the visible rows sorted by `order` and then by `createdAt`, then mapped |
| Archive.MapTabsPermutes | src/lib/archive.ts:98-119 | mapping two orderings of the same rows gives two orderings of the same tabs |
| ArchiveTabs.TabStore.constructor | src/app/api/archive-tabs/route.ts:22-74 | the tab table starts empty |
| ArchiveTabs.TabStore.Insert | src/app/api/archive-tabs/route.ts:57-66 | the row is refused iff its slug is taken; otherwise it is appended, keeping ids and slugs unique |
| ArchiveTabs.TabStore.SetOrder | src/app/api/archive-tabs/reorder/route.ts:47-54 | the tab with that id takes the order, and nothing else changes |
| ArchiveTabs.WithOrder | src/app/api/archive-tabs/reorder/route.ts:47-54 | the tab with the id gets the order; the others, and the ids and slugs of all, are unchanged |
| ArchiveTabs.Get | src/app/api/archive-tabs/route.ts:22-34 | 401 without a session; otherwise the listing, which admins see in full and others only for active tabs; not ready gives 503 and any other failure 500 |
| ArchiveTabs.NewRow | src/app/api/archive-tabs/route.ts:56-66 | the new row takes the input's title, normalised slug and texts, is active by default, and its order is the given position |
| ArchiveTabs.CreateError | src/app/api/archive-tabs/route.ts:68-73 | a runtime error answers 503, any other failure 400 |
| ArchiveTabs.Create | src/app/api/archive-tabs/route.ts:36-74 | 401, 403, not ready 503, a bad body 400; a failure or a taken slug changes nothing and is answered 503 when it carries the runtime markers, else 400; otherwise the new tab is appended last and returned |
| ArchiveTabs.CreatedTabIsLast | src/app/api/archive-tabs/route.ts:56-66 | a created tab's order is the number of tabs before it, so it sorts after every other tab when the existing orders lie in 0..n-1 |
| ArchiveTabs.FoundCountIsKnownWanted | src/app/api/archive-tabs/reorder/route.ts:39-45 | the count of found tabs is the number of wanted ids that are known |
| ArchiveTabs.ToSetSize | src/app/api/archive-tabs/reorder/route.ts:39-45 | a list has as many distinct ids as entries iff it has no duplicates |
| ArchiveTabs.FoundAllIff | src/app/api/archive-tabs/reorder/route.ts:39-45 | the count matches the list iff the ids are distinct and all known |
| ArchiveTabs.Position | src/app/api/archive-tabs/reorder/route.ts:47-54 | the index of an id in the list sent |
| ArchiveTabs.Reordered | src/app/api/archive-tabs/reorder/route.ts:47-54 | each listed tab takes its index as order; unlisted tabs, and every id and slug, are unchanged |
| ArchiveTabs.Reorder | src/app/api/archive-tabs/reorder/route.ts:19-63 | 401, 403, 503 and 400 for a bad body; a list with duplicates or unknown ids is refused unchanged; otherwise every listed tab takes its index as order |
| ArchiveTabs.ReorderKeepsIdsAndSlugs | src/app/api/archive-tabs/reorder/route.ts:47-54 | reordering keeps ids and slugs unique |
| ArchiveTabs.ListedTabsTakeTheirIndex | src/app/api/archive-tabs/reorder/route.ts:47-54 | the i-th listed id's tab has order i afterwards |

## Left out

- Redis: the distributed counter path of `checkRateLimit` is a per-key input (not configured, failed, or the count it returned); its network behaviour and expiry are not modelled.
- Cryptography: SHA-256, HMAC-SHA256, JWT signing and verification and `randomInt` are parameters. Their ideal properties (injective digests, lower-case hex output, a verifier that accepts exactly what was signed) are stated as preconditions where a lemma needs them.
- Mail delivery, `sleep` and the clock: the mailer is an input saying whether it succeeded. The soft delay is returned rather than waited. Every time is a parameter `now` in milliseconds.
- Concurrency and transactions: every route runs alone. The request-code transaction is one atomic update. A `Promise.all` that fails half-way is not modelled. Neither is the check-then-create race of `buildUniqueSlug` (src/lib/content.ts:4-18).
- Database exceptions: a throwing query is an input saying what it threw. An exception the archive-tab routes rethrow is modelled as the 500 answer the framework would give.
- The database failures of the login routes (src/app/api/auth/request-code/route.ts:113-115 and the unguarded awaits of the verify-code route) are not modelled. The request-code reply is generic whatever happens.
- Response status codes of successful answers (201 on creation) are not modelled: a success carries its body only.
- Error messages: a failed answer carries its code, status and details, but not the human-readable `message` of `fail` (src/lib/http.ts:8-9). Only the tactics validation results keep their message.
- Text: strings are sequences of Dafny characters, and UTF-16 surrogate pairs are not modelled. `toLowerCase` is exact on ASCII and Latin-1 letters only. NFKD decomposition covers the Latin-1 letters with diacritics only.
- Floating point: JavaScript numbers are modelled as exact reals, so IEEE-754 rounding is not modelled. No decision in the modelled code sits on a rounding boundary; for example, the grid spots `0.34 + 0.1·k` never land on a clamp bound.
- Number parsing: `Number(s)` for a string is a parameter returning the parsed real or nothing. Non-finite numbers appear only where the source tests for them (`clamp01`, `clampRadius`, `setPlayerRadius`).
- Zod formats: the e-mail, URL and ISO date-time grammars are parameters, and so is the conversion of a date-time string to milliseconds.
- The rate-limit bucket start on the in-memory path is the time of the first hit (src/lib/auth/rate-limit.ts:37-39), as the code does. It is not aligned to a wall-clock window.
- `ipSoftLimited` together with saturated failure counts reaches a score of 100 and hard-blocks without `emailLimited` (src/lib/auth/risk.ts:20-25). The model proves this rather than a "both flags" rule.
- `formatStockholm` (src/lib/utils.ts:39-45): time-zone formatting is not part of this model.
- `revalidatePath` calls, raw SQL table creation (src/app/api/tactics/route.ts:84-167) and the choice between the Prisma model and raw SQL: the board store is one in-memory record either way.
- `isArchiveTabRuntimeReady` is the `runtimeReady` input of the archive-tab routes.
- Rendering: the React components are not modelled. Their state updates are functions on an editor value, and the markdown renderer returns the block list.
- The editor selection: a text area keeps its selection inside the text, so the insertion functions require it. The `activeDraft` check and the focus and caret update after the next frame are not modelled.
- `loadRecentFailures` (src/lib/auth/risk.ts): the three failure counts are inputs.
- The other CRUD routes (news, calendar, profile, users, allow-list, single archive tabs and their sections) and `scripts/` are not part of this model. Of their schemas, the calendar event and tab update schemas are modelled; `profileUpdateSchema`, `newsCreateSchema` and `archiveCreateSchema` (src/lib/validation.ts:12-34) are not.
- ArchiveTabs.Create: the new tab's id is an input that must be fresh, since the database generates it; `ArchiveTabs.TabStore.Insert` requires the same.
- VerifyCode.LatestOpen: among open codes with equal creation times, the model picks the latest row. The database leaves that order unspecified.
