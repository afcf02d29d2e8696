/** The login limits (`src/lib/auth/constants.ts`). */
module AuthConstants {

  /** A rate-limit rule: at most `limit` calls per window of `windowMs` milliseconds. */
  datatype LimitRule = LimitRule(limit: nat, windowMs: nat)

  const OtpTtlMs: int := 10 * 60 * 1000
  const OtpMaxAttempts: nat := 5

  const RequestCodeByEmail15m := LimitRule(5, 15 * 60 * 1000)
  const RequestCodeByEmailDay := LimitRule(20, 24 * 60 * 60 * 1000)
  const RequestCodeByEmailIp15m := LimitRule(8, 15 * 60 * 1000)
  const RequestCodeByIp10mSoft := LimitRule(200, 10 * 60 * 1000)
  const VerifyCodeByEmail15m := LimitRule(20, 15 * 60 * 1000)
}
