/**
 * One-time login codes (`src/lib/auth/otp.ts`): a six-digit code drawn at
 * random, stored only as an HMAC of the normalised address and the code, and
 * checked by comparing digests.
 */
module Otp {
  import opened Text
  import opened Utils

  const OtpLength: nat := 6
  const OtpMin: nat := 100000
  const OtpMax: nat := 999999

  /**
   * `generateOtpCode`: the decimal form of `draw`, the value `randomInt`
   * picked from [10^5, 10^6).
   */
  function GenerateOtpCode(draw: nat): (code: string)
    requires OtpMin <= draw <= OtpMax
    ensures |code| == OtpLength && AllDigits(code) && code[0] != '0'
    ensures DecimalValue(code) == draw
  {
    DecimalLength(draw, 5);
    DecimalLength(draw, 4);
    DecimalRoundTrip(draw);
    NatToDecimal(draw)
  }

  /** `hashOtp`: HMAC of `<normalised e-mail>:<code>` under `OTP_HASH_SECRET`. */
  function HashOtp(hmac: HmacHex, secret: string, email: string, code: string): string {
    HmacSha256(hmac, NormalizeEmail(email) + ":" + code, secret)
  }

  /** `verifyOtpHash`: recompute the digest and compare it with the stored one. */
  function VerifyOtpHash(hmac: HmacHex, secret: string, email: string, code: string, expectedHash: string): (ok: bool)
    ensures ok <==> SafeEqualHex(HashOtp(hmac, secret, email, code), expectedHash)
  {
    SafeEqualHex(HashOtp(hmac, secret, email, code), expectedHash)
  }

  /** Addresses that differ in letter case or surrounding white space give the same digest. */
  lemma HashOtpNormalizesEmail(hmac: HmacHex, secret: string, e1: string, e2: string, code: string)
    requires NormalizeEmail(e1) == NormalizeEmail(e2)
    ensures HashOtp(hmac, secret, e1, code) == HashOtp(hmac, secret, e2, code)
  {
  }

  lemma HashOtpCaseInsensitive(hmac: HmacHex, secret: string, e1: string, e2: string, code: string)
    requires ToLower(e1) == ToLower(e2)
    ensures HashOtp(hmac, secret, e1, code) == HashOtp(hmac, secret, e2, code)
  {
    NormalizeEmailCaseInsensitive(e1, e2);
  }

  /** A code checks out against the digest made from it. */
  lemma VerifyOwnHash(hmac: HmacHex, secret: string, email: string, code: string)
    ensures VerifyOtpHash(hmac, secret, email, code, HashOtp(hmac, secret, email, code))
  {
    SafeEqualHexReflexive(HashOtp(hmac, secret, email, code));
  }

  /**
   * With a collision-free HMAC that renders lower-case hex, a stored digest
   * matches exactly when it is the digest of the same address and code.
   */
  lemma VerifyIffSameDigest(hmac: HmacHex, secret: string, email: string, code: string, expectedHash: string)
    requires IdealHmac(hmac, secret) && IsLowerHex(expectedHash)
    ensures VerifyOtpHash(hmac, secret, email, code, expectedHash) <==> HashOtp(hmac, secret, email, code) == expectedHash
  {
    var candidate := HashOtp(hmac, secret, email, code);
    HashOtpIsLowerHex(hmac, secret, email, code);
    SafeEqualHexOnDigests(candidate, expectedHash);
    assert VerifyOtpHash(hmac, secret, email, code, expectedHash) == SafeEqualHex(candidate, expectedHash);
  }

  lemma HashOtpIsLowerHex(hmac: HmacHex, secret: string, email: string, code: string)
    requires IdealHmac(hmac, secret)
    ensures IsLowerHex(HashOtp(hmac, secret, email, code))
  {
    var m := NormalizeEmail(email) + ":" + code;
    assert HashOtp(hmac, secret, email, code) == hmac(m, secret);
  }

  /** With a collision-free HMAC, another code never checks out against a code's digest. */
  lemma VerifyRejectsOtherCode(hmac: HmacHex, secret: string, email: string, code: string, other: string)
    requires IdealHmac(hmac, secret)
    requires other != code
    ensures !VerifyOtpHash(hmac, secret, email, other, HashOtp(hmac, secret, email, code))
  {
    var digest := HashOtp(hmac, secret, email, code);
    HashOtpIsLowerHex(hmac, secret, email, code);
    VerifyIffSameDigest(hmac, secret, email, other, digest);
    HashOtpInjective(hmac, secret, email, code, other);
  }

  /** Under a collision-free HMAC, different codes for one address have different digests. */
  lemma HashOtpInjective(hmac: HmacHex, secret: string, email: string, code: string, other: string)
    requires IdealHmac(hmac, secret) && other != code
    ensures HashOtp(hmac, secret, email, other) != HashOtp(hmac, secret, email, code)
  {
    HmacPrefixInjective(hmac, secret, NormalizeEmail(email) + ":", other, code);
  }
}
