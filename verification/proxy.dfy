/**
 * The request proxy (`src/proxy.ts`): static assets and public paths pass;
 * every other path needs a session token whose signature verifies. The
 * proxy never consults the session table, so a revoked session with a
 * valid token passes here and is stopped later by the session lookup.
 */
module Proxy {
  import opened Wrappers
  import opened Text
  import opened Session

  datatype ProxyDecision =
    | Next                         // `NextResponse.next()`
    | RedirectTo(location: string)
    | Unauthorized                 // the 401 JSON response

  /** `isStaticPath`. */
  predicate IsStaticPath(pathname: string) {
    StartsWith(pathname, "/_next") || StartsWith(pathname, "/favicon.ico") ||
    StartsWith(pathname, "/images") || StartsWith(pathname, "/public")
  }

  predicate IsPublicPath(pathname: string) {
    pathname in {"/", "/login", "/api/auth/request-code", "/api/auth/verify-code"}
  }

  /** A cookie value is present and non-empty. */
  predicate HasToken(token: Option<string>) {
    token.Some? && token.value != ""
  }

  /** `proxy`: the routing decision for a path and the session cookie. */
  function Proxy(pathname: string, token: Option<string>, verify: Verifier): (d: ProxyDecision)
    ensures IsStaticPath(pathname) ==> d == Next
    ensures !IsStaticPath(pathname) && IsPublicPath(pathname) ==>
      (d == RedirectTo("/dashboard") <==> pathname == "/login" && HasToken(token) && verify(token.value).Some?)
    ensures !IsStaticPath(pathname) && IsPublicPath(pathname) ==> d == Next || d == RedirectTo("/dashboard")
    ensures !IsStaticPath(pathname) && !IsPublicPath(pathname) ==>
      (d == Next <==> HasToken(token) && verify(token.value).Some?)
    ensures d == Unauthorized ==> StartsWith(pathname, "/api/")
    ensures !IsStaticPath(pathname) && !IsPublicPath(pathname) && d != Next ==>
      d == (if StartsWith(pathname, "/api/") then Unauthorized else RedirectTo("/login"))
  {
    if IsStaticPath(pathname) then Next
    else if IsPublicPath(pathname) then
      if pathname == "/login" && HasToken(token) && verify(token.value).Some? then RedirectTo("/dashboard") else Next
    else if !HasToken(token) || verify(token.value).None? then
      if StartsWith(pathname, "/api/") then Unauthorized else RedirectTo("/login")
    else Next
  }

  /** None of the static prefixes is a public path or an API path, so they are never blocked. */
  lemma StaticNeverBlocked(pathname: string, token: Option<string>, verify: Verifier)
    requires IsStaticPath(pathname)
    ensures !StartsWith(pathname, "/api/")
    ensures Proxy(pathname, token, verify) == Next
  {
    var second := pathname[1];
    assert second in {'_', 'f', 'i', 'p'} by {
      if StartsWith(pathname, "/_next") {
        assert second == pathname[..6][1];
      } else if StartsWith(pathname, "/favicon.ico") {
        assert second == pathname[..12][1];
      } else if StartsWith(pathname, "/images") {
        assert second == pathname[..7][1];
      } else {
        assert second == pathname[..7][1];
      }
    }
    assert !StartsWith(pathname, "/api/") by {
      if |pathname| >= 5 {
        assert pathname[..5][1] == second;
      }
    }
  }

  /** The decision for a public page depends on the token only for `/login`. */
  lemma PublicPathsIgnoreToken(pathname: string, t1: Option<string>, t2: Option<string>, verify: Verifier)
    requires IsPublicPath(pathname) && pathname != "/login"
    ensures Proxy(pathname, t1, verify) == Proxy(pathname, t2, verify) == Next
  {
    PublicNotStatic(pathname);
  }

  /** No public path lies under a static prefix: their second characters differ. */
  lemma PublicNotStatic(pathname: string)
    requires IsPublicPath(pathname)
    ensures !IsStaticPath(pathname)
  {
    if |pathname| >= 2 {
      assert pathname[1] == 'l' || pathname[1] == 'a';
      NotPrefixBySecond(pathname, "/_next");
      NotPrefixBySecond(pathname, "/favicon.ico");
      NotPrefixBySecond(pathname, "/images");
      NotPrefixBySecond(pathname, "/public");
    }
  }

  lemma NotPrefixBySecond(s: string, prefix: string)
    requires |s| >= 2 && |prefix| >= 2 && s[1] != prefix[1]
    ensures !StartsWith(s, prefix)
  {
    if |prefix| <= |s| {
      assert s[..|prefix|][1] != prefix[1];
    }
  }
}
