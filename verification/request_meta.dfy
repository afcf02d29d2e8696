/**
 * Request metadata (`src/lib/auth/request-meta.ts`): the client address
 * from the proxy headers, the user agent, and their salted hashes.
 */
module RequestMeta {
  import opened Wrappers
  import opened Text
  import opened Utils

  /** The request headers the code reads; None for a missing header. */
  datatype Headers = Headers(forwardedFor: Option<string>, realIp: Option<string>, userAgent: Option<string>)

  datatype RequestMeta = RequestMeta(ip: string, ipHash: string, userAgent: string, userAgentHash: string)

  /**
   * `getClientIp`: the first entry of a non-empty `x-forwarded-for`,
   * trimmed (possibly empty); else `x-real-ip`; else "unknown".
   */
  function GetClientIp(headers: Headers): (ip: string)
    ensures headers.forwardedFor.Some? && headers.forwardedFor.value != "" ==>
      ip == Trim(SplitBy(headers.forwardedFor.value, ",")[0]) && !Contains(ip, ",")
    ensures headers.forwardedFor.None? || headers.forwardedFor.value == "" ==>
      ip == headers.realIp.GetOr("unknown")
  {
    if headers.forwardedFor.Some? && headers.forwardedFor.value != "" then
      var first := SplitBy(headers.forwardedFor.value, ",")[0];
      SplitPiecesFree(headers.forwardedFor.value, ",");
      TrimKeepsAbsence(first, ",");
      Trim(first)
    else
      headers.realIp.GetOr("unknown")
  }

  /** A piece of a string without `sep` does not contain `sep` either. */
  lemma TrimKeepsAbsence(s: string, sep: string)
    requires |sep| > 0 && !Contains(s, sep)
    ensures !Contains(Trim(s), sep)
  {
    var k := TrimIsSlice(s);
    SliceLacks(s, sep, k, Trim(s));
  }

  /** The first forwarded entry is the address up to the first comma, without surrounding spaces. */
  lemma ForwardedFirstEntry(client: string, rest: string)
    requires client != [] && !Contains(client, ",")
    ensures GetClientIp(Headers(Some(client + "," + rest), None, None)) == Trim(client)
  {
    var f := client + "," + rest;
    var i := |client|;
    assert IsAt(f, ",", i) by { assert f[i..i + 1] == ","; }
    forall j | 0 <= j < i ensures !IsAt(f, ",", j) {
      assert f[j..j + 1] == client[j..j + 1];
      assert !IsAt(client, ",", j);
    }
    assert IndexOf(f, ",") == Some(i);
    assert f[..i] == client;
  }

  /** `getRequestMeta`: the address and user agent ("unknown" when missing) with their salted hashes. */
  function GetRequestMeta(headers: Headers, sha: Sha256Hex, salt: string): (m: RequestMeta)
    ensures m.ip == GetClientIp(headers)
    ensures m.userAgent == headers.userAgent.GetOr("unknown")
    ensures m.ipHash == HashIdentifier(sha, salt, m.ip)
    ensures m.userAgentHash == HashIdentifier(sha, salt, m.userAgent)
  {
    var ip := GetClientIp(headers);
    var userAgent := headers.userAgent.GetOr("unknown");
    RequestMeta(ip, HashIdentifier(sha, salt, ip), userAgent, HashIdentifier(sha, salt, userAgent))
  }

  /** With a collision-free digest, two requests share an address hash exactly when they share the address. */
  lemma IpHashIdentifiesAddress(h1: Headers, h2: Headers, sha: Sha256Hex, salt: string)
    requires CollisionFree(sha)
    ensures GetRequestMeta(h1, sha, salt).ipHash == GetRequestMeta(h2, sha, salt).ipHash
        <==> GetClientIp(h1) == GetClientIp(h2)
  {
    HashIdentifierSeparates(sha, salt, GetClientIp(h1), GetClientIp(h2));
  }

  /** `normalizeEmailForKey`: the address as the rate-limit keys and tables use it. */
  function NormalizeEmailForKey(email: string): (r: string)
    ensures r == NormalizeEmail(email)
  {
    NormalizeEmail(email)
  }
}
