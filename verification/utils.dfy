/**
 * Shared helpers: e-mail normalisation, slugs, hex comparison and the hashing
 * wrappers. SHA-256 and HMAC-SHA256 are not computed here: they are passed in
 * as functions, and the properties the callers rely on (lower-case hex output,
 * no collisions) are stated as predicates on them.
 */
module Utils {
  import opened Text

  /**
   * `normalizeEmail`: trim, then lower-case. `NormalizeEmailValue` states the
   * result as the lower-cased piece of the address between its leading white
   * space and a blank rest.
   */
  function NormalizeEmail(email: string): (r: string)
    ensures NoOuterSpace(r)
    ensures forall i | 0 <= i < |r| :: !('A' <= r[i] <= 'Z')
    ensures |r| <= |email|
    ensures r == [] <==> IsBlank(email)
  {
    TrimToLower(email);
    ToLower(Trim(email))
  }

  /** The value of `NormalizeEmail`, stated without `Trim`. */
  lemma NormalizeEmailValue(email: string)
    ensures LoweredPieceOf(NormalizeEmail(email), email)
  {
    TrimmedLowered(email);
  }

  /**
   * `r` is the lower-cased piece of `s` that starts after its leading white
   * space and is followed only by white space.
   */
  predicate LoweredPieceOf(r: string, s: string) {
    var k := LeadingBlanks(s);
    && k + |r| <= |s|
    && IsBlank(s[k + |r|..])
    && r == ToLower(s[k..k + |r|])
  }

  lemma TrimmedLowered(s: string)
    ensures LoweredPieceOf(ToLower(Trim(s)), s)
  {
    TrimAfterLeadingBlanks(s);
    PieceLowered(s, Trim(s), LeadingBlanks(s));
  }

  lemma PieceLowered(s: string, t: string, k: nat)
    requires k == LeadingBlanks(s) && k + |t| <= |s|
    requires t == s[k..k + |t|] && IsBlank(s[k + |t|..])
    ensures LoweredPieceOf(ToLower(t), s)
  {
    assert |ToLower(t)| == |t|;
  }

  lemma NormalizeEmailIdempotent(email: string)
    ensures NormalizeEmail(NormalizeEmail(email)) == NormalizeEmail(email)
  {
    var t := Trim(email);
    TrimToLower(t);
    TrimIdempotent(email);
  }

  /** Addresses that differ only in letter case normalise to the same address. */
  lemma NormalizeEmailCaseInsensitive(a: string, b: string)
    requires ToLower(a) == ToLower(b)
    ensures NormalizeEmail(a) == NormalizeEmail(b)
  {
    TrimToLower(a);
    TrimToLower(b);
  }

  /** Surrounding white space does not change the normalised address. */
  lemma NormalizeEmailIgnoresPadding(pre: string, email: string, post: string)
    requires IsBlank(pre) && IsBlank(post)
    ensures NormalizeEmail(pre + email + post) == NormalizeEmail(email)
  {
    TrimIgnoresPadding(pre, email, post);
  }

  // ---------------------------------------------------------------- slugify

  /**
   * NFKD decomposition of one lower-case Latin-1 character: a letter with a
   * diacritic becomes its base letter followed by the combining mark. Other
   * characters are left as they are.
   */
  function DecomposeChar(c: char): (r: string)
    ensures 1 <= |r| <= 2
    ensures r[0] == c || 'a' <= r[0] <= 'z'
  {
    if '\U{E0}' <= c <= '\U{E5}' then ['a', ['\U{300}', '\U{301}', '\U{302}', '\U{303}', '\U{308}', '\U{30A}'][c as int - 0xE0]]
    else if c == '\U{E7}' then ['c', '\U{327}']
    else if '\U{E8}' <= c <= '\U{EB}' then ['e', ['\U{300}', '\U{301}', '\U{302}', '\U{308}'][c as int - 0xE8]]
    else if '\U{EC}' <= c <= '\U{EF}' then ['i', ['\U{300}', '\U{301}', '\U{302}', '\U{308}'][c as int - 0xEC]]
    else if c == '\U{F1}' then ['n', '\U{303}']
    else if '\U{F2}' <= c <= '\U{F6}' then ['o', ['\U{300}', '\U{301}', '\U{302}', '\U{303}', '\U{308}'][c as int - 0xF2]]
    else if '\U{F9}' <= c <= '\U{FC}' then ['u', ['\U{300}', '\U{301}', '\U{302}', '\U{308}'][c as int - 0xF9]]
    else if c == '\U{FD}' then ['y', '\U{301}']
    else if c == '\U{FF}' then ['y', '\U{308}']
    else [c]
  }

  /** `normalize("NFKD")`, character by character. */
  function Nfkd(s: string): (r: string)
    ensures |s| <= |r|
  {
    if s == [] then [] else DecomposeChar(s[0]) + Nfkd(s[1..])
  }

  /** A character that `\w` matches: a-z, A-Z, 0-9 or `_`. */
  predicate IsWordChar(c: char) {
    ('a' <= c <= 'z') || ('A' <= c <= 'Z') || ('0' <= c <= '9') || c == '_'
  }

  /** What survives `.replace(/[^\w\s-]/g, "")`. */
  predicate IsKept(c: char) {
    IsWordChar(c) || IsSpace(c) || c == '-'
  }

  /** `.replace(/[^\w\s-]/g, "")`: every other character removed, the rest kept in order. */
  function DropPunctuation(s: string): (r: string)
    ensures |r| <= |s|
    ensures forall i | 0 <= i < |r| :: IsKept(r[i])
    ensures (forall i | 0 <= i < |s| :: IsKept(s[i])) ==> r == s
  {
    if s == [] then []
    else
      var rest := DropPunctuation(s[1..]);
      if IsKept(s[0]) then [s[0]] + rest else rest
  }

  /** A separator character: matched by `[\s_-]`. */
  predicate IsSeparator(c: char) {
    IsSpace(c) || c == '_' || c == '-'
  }

  /** No dash is directly followed by another. */
  predicate NoDoubleDash(s: string) {
    forall i | 0 < i < |s| :: !(s[i - 1] == '-' && s[i] == '-')
  }

  /**
   * `.replace(/[\s_-]+/g, "-")`: every maximal run of separators becomes one
   * dash; the result holds no white space or underscore, never two dashes in
   * a row, and starts with a dash exactly when the input starts with a separator.
   */
  function CollapseSeparators(s: string): (r: string)
    ensures forall i | 0 <= i < |r| :: !IsSpace(r[i]) && r[i] != '_'
    ensures NoDoubleDash(r)
    ensures (r == []) <==> (s == [])
    ensures r != [] ==> (r[0] == '-' <==> IsSeparator(s[0]))
    decreases |s|
  {
    if s == [] then []
    else if IsSeparator(s[0]) then
      var k := RunLength(s);
      ['-'] + CollapseSeparators(s[k..])
    else
      [s[0]] + CollapseSeparators(s[1..])
  }

  /** Length of the run of separators that starts `s`. */
  function RunLength(s: string): (k: nat)
    requires s != [] && IsSeparator(s[0])
    ensures 1 <= k <= |s|
    ensures forall i | 0 <= i < k :: IsSeparator(s[i])
    ensures k < |s| ==> !IsSeparator(s[k])
    decreases |s|
  {
    if |s| > 1 && IsSeparator(s[1]) then 1 + RunLength(s[1..]) else 1
  }

  /** `^-+` removed: the longest suffix of `s` not starting with a dash. */
  function TrimLeadingDashes(s: string): (r: string)
    ensures |r| <= |s| && r == s[|s| - |r|..]
    ensures forall i | 0 <= i < |s| - |r| :: s[i] == '-'
    ensures r == [] || r[0] != '-'
  {
    if s != [] && s[0] == '-' then TrimLeadingDashes(s[1..]) else s
  }

  /** `-+$` removed: the longest prefix of `s` not ending with a dash. */
  function TrimTrailingDashes(s: string): (r: string)
    ensures |r| <= |s| && r == s[..|r|]
    ensures forall i | |r| <= i < |s| :: s[i] == '-'
    ensures r == [] || r[|r| - 1] != '-'
  {
    if s != [] && s[|s| - 1] == '-' then TrimTrailingDashes(s[..|s| - 1]) else s
  }

  /** `.replace(/^-+|-+$/g, "")`. */
  function TrimDashes(s: string): (r: string)
    ensures r == [] || (r[0] != '-' && r[|r| - 1] != '-')
  {
    var t := TrimLeadingDashes(s);
    var r := TrimTrailingDashes(t);
    assert r != [] ==> r[0] == t[0];
    r
  }

  /** A character allowed in a slug: a-z, 0-9 or `-`. */
  predicate IsSlugChar(c: char) {
    ('a' <= c <= 'z') || ('0' <= c <= '9') || c == '-'
  }

  /** A well-formed slug: only a-z, 0-9 and `-`, no dash at either end, no two dashes in a row. */
  predicate IsSlug(s: string) {
    && (forall i | 0 <= i < |s| :: IsSlugChar(s[i]))
    && (s == [] || (s[0] != '-' && s[|s| - 1] != '-'))
    && NoDoubleDash(s)
  }

  /**
   * `slugify`: lower-case, NFKD-decompose, drop everything but word
   * characters, white space and dashes (which drops the combining marks, so
   * "å" gives "a"), trim, collapse separator runs to one dash, strip outer dashes.
   */
  function Slugify(value: string): string {
    TrimDashes(CollapseSeparators(Trim(DropPunctuation(Nfkd(ToLower(value))))))
  }

  /** Every slug is well-formed, whatever the input. */
  lemma SlugifyIsSlug(value: string)
    ensures IsSlug(Slugify(value))
  {
    var n := Nfkd(ToLower(value));
    NfkdNoUpperAscii(ToLower(value));
    var d := DropPunctuation(n);
    assert forall i | 0 <= i < |d| :: IsKeptLower(d[i]) by {
      DropPunctuationKeepsOrder(n);
    }
    var t := Trim(d);
    TrimKeepsChars(d);
    var c := CollapseSeparators(t);
    CollapseSlugChars(t);
    TrimDashesSlice(c);
  }

  /** Decomposition never produces an upper-case ASCII letter from a string that has none. */
  lemma {:induction false} NfkdNoUpperAscii(s: string)
    requires forall i | 0 <= i < |s| :: !('A' <= s[i] <= 'Z')
    ensures forall i | 0 <= i < |Nfkd(s)| :: !('A' <= Nfkd(s)[i] <= 'Z')
    decreases |s|
  {
    if s != [] {
      assert forall i | 0 <= i < |s| - 1 :: s[1..][i] == s[i + 1];
      NfkdNoUpperAscii(s[1..]);
    }
  }

  /** Dropping characters keeps a property every input character has. */
  lemma {:induction false} DropPunctuationKeepsOrder(s: string)
    requires forall i | 0 <= i < |s| :: !('A' <= s[i] <= 'Z')
    ensures forall i | 0 <= i < |DropPunctuation(s)| :: !('A' <= DropPunctuation(s)[i] <= 'Z')
    decreases |s|
  {
    if s != [] {
      assert forall i | 0 <= i < |s| - 1 :: s[1..][i] == s[i + 1];
      DropPunctuationKeepsOrder(s[1..]);
    }
  }

  /** A character that survives punctuation removal and is not an upper-case ASCII letter. */
  predicate IsKeptLower(c: char) {
    IsKept(c) && !('A' <= c <= 'Z')
  }

  /** Trimming keeps only characters of its input. */
  lemma TrimKeepsChars(s: string)
    requires forall i | 0 <= i < |s| :: IsKeptLower(s[i])
    ensures forall i | 0 <= i < |Trim(s)| :: IsKeptLower(Trim(s)[i])
  {
    var k := TrimIsSlice(s);
    forall i | 0 <= i < |Trim(s)| ensures IsKeptLower(Trim(s)[i]) {
      assert Trim(s)[i] == s[k + i];
    }
  }

  /** Collapsing lower-case kept characters leaves only slug characters. */
  lemma {:induction false} CollapseSlugChars(s: string)
    requires forall i | 0 <= i < |s| :: IsKeptLower(s[i])
    ensures forall i | 0 <= i < |CollapseSeparators(s)| :: IsSlugChar(CollapseSeparators(s)[i])
    decreases |s|
  {
    if s != [] {
      var k := if IsSeparator(s[0]) then RunLength(s) else 1;
      assert forall i | 0 <= i < |s| - k :: s[k..][i] == s[i + k];
      CollapseSlugChars(s[k..]);
    }
  }

  /** Stripping outer dashes keeps the slug characters and the absence of double dashes. */
  lemma TrimDashesSlice(s: string)
    requires forall i | 0 <= i < |s| :: IsSlugChar(s[i])
    requires NoDoubleDash(s)
    ensures IsSlug(TrimDashes(s))
  {
    var t := TrimLeadingDashes(s);
    var r := TrimTrailingDashes(t);
    var k := |s| - |t|;
    assert r == t[..|r|] && t == s[k..];
    assert r == s[k..k + |r|];
    SlugCharsSlice(s, k, r);
  }

  /** A piece of a string of slug characters without double dashes is one too. */
  lemma SlugCharsSlice(s: string, k: nat, p: string)
    requires k + |p| <= |s| && p == s[k..k + |p|]
    requires forall i | 0 <= i < |s| :: IsSlugChar(s[i])
    requires NoDoubleDash(s)
    ensures forall i | 0 <= i < |p| :: IsSlugChar(p[i])
    ensures NoDoubleDash(p)
  {
    forall i | 0 <= i < |p| ensures IsSlugChar(p[i]) {
      assert p[i] == s[k + i];
    }
    forall i | 0 < i < |p| ensures !(p[i - 1] == '-' && p[i] == '-') {
      assert p[i - 1] == s[k + i - 1] && p[i] == s[k + i];
    }
  }

  /** Slugifying a slug changes nothing. */
  lemma SlugIsFixedPoint(s: string)
    requires IsSlug(s)
    ensures Slugify(s) == s
  {
    LowerKeeps(s);
    NfkdAscii(s);
    KeptSlug(s);
    TrimSlug(s);
    CollapseKeeps(s);
    TrimDashesKeeps(s);
    assert Trim(DropPunctuation(Nfkd(ToLower(s)))) == s;
  }

  lemma KeptSlug(s: string)
    requires forall i | 0 <= i < |s| :: IsSlugChar(s[i])
    ensures DropPunctuation(s) == s
  {
    assert forall i | 0 <= i < |s| :: IsKept(s[i]);
  }

  lemma TrimSlug(s: string)
    requires IsSlug(s)
    ensures Trim(s) == s
  {
    assert s != [] ==> !IsSpace(s[0]) && !IsSpace(s[|s| - 1]);
    TrimUnspaced(s);
  }

  lemma TrimDashesKeeps(s: string)
    requires s == [] || (s[0] != '-' && s[|s| - 1] != '-')
    ensures TrimDashes(s) == s
  {
    assert TrimLeadingDashes(s) == s;
    assert TrimTrailingDashes(s) == s;
  }

  lemma LowerKeeps(s: string)
    requires forall i | 0 <= i < |s| :: IsSlugChar(s[i])
    ensures ToLower(s) == s
  {
    assert forall i | 0 <= i < |s| :: LowerChar(s[i]) == s[i];
  }

  /** `slugify` is idempotent. */
  lemma SlugifyIdempotent(value: string)
    ensures Slugify(Slugify(value)) == Slugify(value)
  {
    SlugifyIsSlug(value);
    SlugIsFixedPoint(Slugify(value));
  }

  lemma {:induction false} NfkdAscii(s: string)
    requires forall i | 0 <= i < |s| :: IsSlugChar(s[i])
    ensures Nfkd(s) == s
    decreases |s|
  {
    if s != [] {
      assert forall i | 0 <= i < |s| - 1 :: s[1..][i] == s[i + 1];
      NfkdAscii(s[1..]);
    }
  }

  lemma {:induction false} CollapseKeeps(s: string)
    requires forall i | 0 <= i < |s| :: IsSlugChar(s[i])
    requires NoDoubleDash(s)
    ensures CollapseSeparators(s) == s
    decreases |s|
  {
    if s != [] {
      if IsSeparator(s[0]) {
        assert RunLength(s) == 1;
      }
      assert forall i | 0 <= i < |s| - 1 :: s[1..][i] == s[i + 1];
      CollapseKeeps(s[1..]);
    }
  }

  // ------------------------------------------------------------ hex compare

  /** One byte, 0..255. */
  type Byte = b: int | 0 <= b < 256

  predicate IsHexDigit(c: char) {
    ('0' <= c <= '9') || ('a' <= c <= 'f') || ('A' <= c <= 'F')
  }

  function HexValue(c: char): (v: nat)
    requires IsHexDigit(c)
    ensures v < 16
  {
    if '0' <= c <= '9' then c as int - '0' as int
    else if 'a' <= c <= 'f' then c as int - 'a' as int + 10
    else c as int - 'A' as int + 10
  }

  /**
   * `Buffer.from(s, "hex")`: bytes from consecutive pairs of hex digits,
   * stopping at the first pair that is not two hex digits (an odd last
   * digit is dropped).
   */
  function HexDecode(s: string): (bytes: seq<Byte>)
    ensures |bytes| <= |s| / 2
    decreases |s|
  {
    if |s| >= 2 && IsHexDigit(s[0]) && IsHexDigit(s[1])
    then [16 * HexValue(s[0]) + HexValue(s[1])] + HexDecode(s[2..])
    else []
  }

  /** Lower-case hexadecimal of even length: what `digest("hex")` produces. */
  predicate IsLowerHex(s: string) {
    |s| % 2 == 0 && forall i | 0 <= i < |s| :: ('0' <= s[i] <= '9') || ('a' <= s[i] <= 'f')
  }

  /** `safeEqualHex`: decode both sides; unequal lengths are unequal, otherwise compare the bytes. */
  function SafeEqualHex(left: string, right: string): (r: bool)
    ensures |HexDecode(left)| != |HexDecode(right)| ==> !r
    ensures r <==> HexDecode(left) == HexDecode(right)
  {
    var leftBuf := HexDecode(left);
    var rightBuf := HexDecode(right);
    if |leftBuf| != |rightBuf| then false else leftBuf == rightBuf
  }

  lemma SafeEqualHexSymmetric(left: string, right: string)
    ensures SafeEqualHex(left, right) == SafeEqualHex(right, left)
  {
  }

  lemma SafeEqualHexReflexive(s: string)
    ensures SafeEqualHex(s, s)
  {
  }

  /** On lower-case hex, decoding loses nothing: two strings decode alike only if they are equal. */
  lemma {:induction false} HexDecodeInjective(a: string, b: string)
    requires IsLowerHex(a) && IsLowerHex(b)
    requires HexDecode(a) == HexDecode(b)
    ensures a == b
    decreases |a|
  {
    LowerHexDecodesFully(a);
    LowerHexDecodesFully(b);
    if |a| >= 2 {
      var x0, x1, y0, y1 := HexValue(a[0]), HexValue(a[1]), HexValue(b[0]), HexValue(b[1]);
      assert |b| >= 2;
      assert HexDecode(a) == [16 * x0 + x1] + HexDecode(a[2..]);
      assert HexDecode(b) == [16 * y0 + y1] + HexDecode(b[2..]);
      assert HexDecode(a)[0] == 16 * x0 + x1 && HexDecode(b)[0] == 16 * y0 + y1;
      assert 16 * x0 + x1 == 16 * y0 + y1;
      assert HexDecode(a[2..]) == HexDecode(a)[1..] == HexDecode(b)[1..] == HexDecode(b[2..]);
      assert x0 == y0 && x1 == y1;
      LowerHexValueInjective(a[0], b[0]);
      LowerHexValueInjective(a[1], b[1]);
      assert IsLowerHex(a[2..]) && IsLowerHex(b[2..]) by {
        assert forall i | 0 <= i < |a| - 2 :: a[2..][i] == a[i + 2];
        assert forall i | 0 <= i < |b| - 2 :: b[2..][i] == b[i + 2];
      }
      HexDecodeInjective(a[2..], b[2..]);
      assert a == a[..2] + a[2..] && b == b[..2] + b[2..];
    }
  }

  lemma LowerHexValueInjective(c: char, d: char)
    requires ('0' <= c <= '9') || ('a' <= c <= 'f')
    requires ('0' <= d <= '9') || ('a' <= d <= 'f')
    requires HexValue(c) == HexValue(d)
    ensures c == d
  {
  }

  lemma {:induction false} LowerHexDecodesFully(s: string)
    requires IsLowerHex(s)
    ensures |HexDecode(s)| == |s| / 2
    decreases |s|
  {
    if |s| >= 2 {
      assert IsLowerHex(s[2..]) by {
        assert forall i | 0 <= i < |s| - 2 :: s[2..][i] == s[i + 2];
      }
      LowerHexDecodesFully(s[2..]);
    }
  }

  /** On digests (lower-case hex), `safeEqualHex` is plain string equality. */
  lemma SafeEqualHexOnDigests(a: string, b: string)
    requires IsLowerHex(a) && IsLowerHex(b)
    ensures SafeEqualHex(a, b) <==> a == b
  {
    if SafeEqualHex(a, b) { HexDecodeInjective(a, b); }
  }

  // ---------------------------------------------------------------- hashing

  /** SHA-256 rendered as hex (`createHash("sha256")...digest("hex")`). */
  type Sha256Hex = string -> string

  /** HMAC-SHA256 of a value under a secret, rendered as hex. */
  type HmacHex = (string, string) -> string

  /** The digest function has no collisions (the idealisation the code relies on). */
  ghost predicate CollisionFree(sha: Sha256Hex) {
    forall a, b :: sha(a) == sha(b) ==> a == b
  }

  /** Under a fixed secret, the HMAC has no collisions and always renders lower-case hex. */
  ghost predicate IdealHmac(hmac: HmacHex, secret: string) {
    && (forall a :: IsLowerHex(hmac(a, secret)))
    && (forall a, b :: hmac(a, secret) == hmac(b, secret) ==> a == b)
  }

  /** `hmacSha256(value, secret)`. */
  function HmacSha256(hmac: HmacHex, value: string, secret: string): string {
    hmac(value, secret)
  }

  /** `hashIdentifier(value)`: SHA-256 of `AUDIT_HASH_SALT + ":" + value`. */
  function HashIdentifier(sha: Sha256Hex, salt: string, value: string): string {
    sha(salt + ":" + value)
  }

  /** Equal salted inputs hash alike, and with a collision-free digest different values hash apart. */
  lemma HashIdentifierSeparates(sha: Sha256Hex, salt: string, a: string, b: string)
    requires CollisionFree(sha)
    ensures HashIdentifier(sha, salt, a) == HashIdentifier(sha, salt, b) <==> a == b
  {
    if HashIdentifier(sha, salt, a) == HashIdentifier(sha, salt, b) {
      PrefixCancel(salt + ":", a, b);
    }
  }

  /** Under a collision-free HMAC, two messages that differ after a common prefix have different digests. */
  lemma HmacPrefixInjective(hmac: HmacHex, secret: string, p: string, a: string, b: string)
    requires IdealHmac(hmac, secret) && a != b
    ensures HmacSha256(hmac, p + a, secret) != HmacSha256(hmac, p + b, secret)
  {
    if p + a == p + b {
      PrefixCancel(p, a, b);
    }
  }

  /** A common prefix can be cancelled. */
  lemma PrefixCancel(p: string, a: string, b: string)
    requires p + a == p + b
    ensures a == b
  {
    assert a == (p + a)[|p|..];
    assert b == (p + b)[|p|..];
  }
}
