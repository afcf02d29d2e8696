/**
 * The JavaScript string operations the portal relies on, over `seq<char>`:
 * `trim`, `toLowerCase` on ASCII and Latin-1, `startsWith`/`endsWith`, `indexOf`,
 * `split`/`join` with a literal separator, and decimal rendering of
 * non-negative integers (`String(n)`, template literals).
 */
module Text {
  import opened Wrappers

  /** ECMAScript WhiteSpace and LineTerminator code points: what `trim` strips and `\s` matches. */
  predicate IsSpace(c: char) {
    var n := c as int;
    n == 0x09 || n == 0x0A || n == 0x0B || n == 0x0C || n == 0x0D || n == 0x20 ||
    n == 0xA0 || n == 0x1680 || (0x2000 <= n <= 0x200A) || n == 0x2028 || n == 0x2029 ||
    n == 0x202F || n == 0x205F || n == 0x3000 || n == 0xFEFF
  }

  /** Empty after `trim()`: JavaScript's `!s.trim()`. */
  predicate IsBlank(s: string) {
    forall i | 0 <= i < |s| :: IsSpace(s[i])
  }

  /** No white space at either end. */
  predicate NoOuterSpace(s: string) {
    s == [] || (!IsSpace(s[0]) && !IsSpace(s[|s| - 1]))
  }

  function TrimStart(s: string): (r: string)
    ensures |r| <= |s| && r == s[|s| - |r|..]
    ensures forall i | 0 <= i < |s| - |r| :: IsSpace(s[i])
    ensures r == [] || !IsSpace(r[0])
  {
    if |s| > 0 && IsSpace(s[0]) then TrimStart(s[1..]) else s
  }

  function TrimEnd(s: string): (r: string)
    ensures |r| <= |s| && r == s[..|r|]
    ensures forall i | |r| <= i < |s| :: IsSpace(s[i])
    ensures r == [] || !IsSpace(r[|r| - 1])
  {
    if |s| > 0 && IsSpace(s[|s| - 1]) then TrimEnd(s[..|s| - 1]) else s
  }

  /** `String.prototype.trim`: the slice of `s` between its leading and trailing white space. */
  function Trim(s: string): (r: string)
    ensures |r| <= |s|
    ensures NoOuterSpace(r)
    ensures r == [] <==> IsBlank(s)
  {
    var t := TrimStart(s);
    var r := TrimEnd(t);
    assert r == [] ==> t == [];
    r
  }

  /** The trimmed string is a contiguous piece of the original, starting at `k`. */
  lemma TrimIsSlice(s: string) returns (k: nat)
    ensures k + |Trim(s)| <= |s| && Trim(s) == s[k..k + |Trim(s)|]
  {
    var t := TrimStart(s);
    k := |s| - |t|;
    assert Trim(s) == t[..|Trim(s)|];
  }

  /** How many white-space characters `s` starts with. */
  function LeadingBlanks(s: string): (n: nat)
    ensures n <= |s| && IsBlank(s[..n])
    ensures n == |s| || !IsSpace(s[n])
  {
    |s| - |TrimStart(s)|
  }

  /** The trimmed string starts after the leading white space and is followed only by white space. */
  lemma TrimAfterLeadingBlanks(s: string)
    ensures LeadingBlanks(s) + |Trim(s)| <= |s|
    ensures Trim(s) == s[LeadingBlanks(s)..LeadingBlanks(s) + |Trim(s)|]
    ensures IsBlank(s[LeadingBlanks(s) + |Trim(s)|..])
  {
    var t := TrimStart(s);
    var n := |Trim(s)|;
    assert Trim(s) == TrimEnd(t);
    TrimEndLeavesBlank(t);
    SuffixSlices(s, LeadingBlanks(s), n);
  }

  lemma TrimEndLeavesBlank(t: string)
    ensures t[..|TrimEnd(t)|] == TrimEnd(t)
    ensures IsBlank(t[|TrimEnd(t)|..])
  {
    var n := |TrimEnd(t)|;
    forall i | 0 <= i < |t| - n
      ensures IsSpace(t[n..][i])
    {
      assert t[n..][i] == t[n + i];
    }
  }

  /** Cutting a suffix of `s` again is cutting `s` once. */
  lemma SuffixSlices<T>(s: seq<T>, k: nat, n: nat)
    requires k + n <= |s|
    ensures s[k..][..n] == s[k..k + n] && s[k..][n..] == s[k + n..]
  {
  }

  /** A string with no white space at either end is its own trim. */
  lemma TrimUnspaced(s: string)
    requires NoOuterSpace(s)
    ensures Trim(s) == s
  {
  }

  lemma TrimIdempotent(s: string)
    ensures Trim(Trim(s)) == Trim(s)
  {
    var t := Trim(s);
    TrimUnspaced(t);
  }

  /** Surrounding white space does not change the trimmed string. */
  lemma {:induction false} TrimIgnoresPadding(pre: string, s: string, post: string)
    requires IsBlank(pre) && IsBlank(post)
    ensures Trim(pre + s + post) == Trim(s)
  {
    assert pre + s + post == pre + (s + post);
    TrimStartBlankPrefix(pre, s + post);
    TrimBlankSuffix(s, post);
  }

  lemma TrimBlankSuffix(s: string, post: string)
    requires IsBlank(post)
    ensures TrimEnd(TrimStart(s + post)) == TrimEnd(TrimStart(s))
  {
    if IsBlank(s) {
      assert IsBlank(s + post);
      BlankTrimStart(s + post);
      BlankTrimStart(s);
    } else {
      TrimStartAppend(s, post);
      TrimEndBlankSuffix(TrimStart(s), post);
    }
  }

  lemma BlankTrimStart(s: string)
    requires IsBlank(s)
    ensures TrimStart(s) == []
  {
  }

  lemma {:induction false} TrimStartBlankPrefix(pre: string, s: string)
    requires IsBlank(pre)
    ensures TrimStart(pre + s) == TrimStart(s)
    decreases |pre|
  {
    if pre != [] {
      assert (pre + s)[0] == pre[0];
      assert (pre + s)[1..] == pre[1..] + s;
      assert IsBlank(pre[1..]) by {
        assert forall i | 0 <= i < |pre| - 1 :: pre[1..][i] == pre[i + 1];
      }
      TrimStartBlankPrefix(pre[1..], s);
    } else {
      assert pre + s == s;
    }
  }

  lemma {:induction false} TrimStartAppend(s: string, post: string)
    requires !IsBlank(s)
    ensures TrimStart(s + post) == TrimStart(s) + post
    decreases |s|
  {
    if IsSpace(s[0]) {
      assert (s + post)[1..] == s[1..] + post;
      TrimStartAppend(s[1..], post);
    }
  }

  lemma {:induction false} TrimEndBlankSuffix(s: string, post: string)
    requires IsBlank(post)
    ensures TrimEnd(s + post) == TrimEnd(s)
    decreases |post|
  {
    if post != [] {
      var p := post[..|post| - 1];
      assert (s + post)[|s + post| - 1] == post[|post| - 1];
      assert (s + post)[..|s + post| - 1] == s + p;
      TrimEndBlankSuffix(s, p);
    } else {
      assert s + post == s;
    }
  }

  /** An upper-case letter of ASCII or Latin-1 (A-Z, À-Ö, Ø-Þ). */
  predicate IsUpper(c: char) {
    ('A' <= c <= 'Z') || ('\U{C0}' <= c <= '\U{DE}' && c != '\U{D7}')
  }

  /** `toLowerCase` of one character: each upper-case letter of ASCII and Latin-1 sits 32 code points below its lower-case form. */
  function LowerChar(c: char): (r: char)
    ensures !IsUpper(r)
    ensures IsUpper(c) <==> r != c
  {
    if IsUpper(c) then (c as int + 32) as char else c
  }

  /** `toLowerCase`, on the letters of ASCII and Latin-1. */
  function ToLower(s: string): string {
    seq(|s|, i requires 0 <= i < |s| => LowerChar(s[i]))
  }

  lemma ToLowerIdempotent(s: string)
    ensures ToLower(ToLower(s)) == ToLower(s)
  {
  }

  /** Lower-casing neither creates nor removes white space, so it commutes with trimming. */
  lemma {:induction false} TrimToLower(s: string)
    ensures Trim(ToLower(s)) == ToLower(Trim(s))
  {
    assert forall i | 0 <= i < |s| :: IsSpace(ToLower(s)[i]) == IsSpace(s[i]);
    TrimStartToLower(s);
    TrimEndToLower(TrimStart(s));
  }

  lemma {:induction false} TrimStartToLower(s: string)
    ensures TrimStart(ToLower(s)) == ToLower(TrimStart(s))
    decreases |s|
  {
    if |s| > 0 && IsSpace(s[0]) {
      assert ToLower(s)[1..] == ToLower(s[1..]);
      TrimStartToLower(s[1..]);
    }
  }

  lemma {:induction false} TrimEndToLower(s: string)
    ensures TrimEnd(ToLower(s)) == ToLower(TrimEnd(s))
    decreases |s|
  {
    if |s| > 0 && IsSpace(s[|s| - 1]) {
      assert ToLower(s)[..|s| - 1] == ToLower(s[..|s| - 1]);
      TrimEndToLower(s[..|s| - 1]);
    }
  }

  predicate StartsWith(s: string, prefix: string) {
    |prefix| <= |s| && s[..|prefix|] == prefix
  }

  predicate EndsWith(s: string, suffix: string) {
    |suffix| <= |s| && s[|s| - |suffix|..] == suffix
  }

  /** `p` occurs in `s` at index `i`. */
  predicate IsAt(s: string, p: string, i: int) {
    0 <= i && i + |p| <= |s| && s[i..i + |p|] == p
  }

  lemma IsAtTail(s: string, p: string, j: int)
    requires |s| > 0 && j >= 0
    ensures IsAt(s[1..], p, j) <==> IsAt(s, p, j + 1)
  {
    if 0 <= j && j + |p| <= |s| - 1 {
      assert s[1..][j..j + |p|] == s[j + 1..j + 1 + |p|];
    }
  }

  /** `s.indexOf(p)`: the first index at which `p` occurs, or None for JavaScript's -1. */
  function IndexOf(s: string, p: string): (r: Option<nat>)
    ensures r.Some? ==> IsAt(s, p, r.value) && forall j | 0 <= j < r.value :: !IsAt(s, p, j)
    ensures r.None? ==> forall j :: !IsAt(s, p, j)
    decreases |s|
  {
    if |s| < |p| then None
    else if s[..|p|] == p then Some(0)
    else
      var rest := IndexOf(s[1..], p);
      assert !IsAt(s, p, 0);
      assert forall j | j > 0 && IsAt(s, p, j) :: IsAt(s[1..], p, j - 1) by {
        forall j | j > 0 && IsAt(s, p, j) ensures IsAt(s[1..], p, j - 1) { IsAtTail(s, p, j - 1); }
      }
      match rest
      case None => None
      case Some(i) =>
        IsAtTail(s, p, i);
        Some(i + 1)
  }

  /** `s.includes(p)`. */
  predicate Contains(s: string, p: string) {
    IndexOf(s, p).Some?
  }

  /** A piece of a string that lacks `p` lacks it too. */
  lemma SliceLacks(s: string, p: string, k: nat, t: string)
    requires k + |t| <= |s| && t == s[k..k + |t|] && !Contains(s, p)
    ensures !Contains(t, p)
  {
    forall j | 0 <= j && j + |p| <= |t| ensures !IsAt(t, p, j) {
      var piece := t[j..j + |p|];
      forall m | 0 <= m < |p| ensures piece[m] == s[k + j + m] {
        assert piece[m] == t[j + m];
      }
      assert piece == s[k + j..k + j + |p|];
      assert !IsAt(s, p, k + j);
    }
  }

  /** `s.split(sep)` for a non-empty literal separator: the pieces between left-to-right, non-overlapping occurrences. */
  function SplitBy(s: string, sep: string): (parts: seq<string>)
    requires |sep| > 0
    ensures |parts| >= 1
    decreases |s|
  {
    match IndexOf(s, sep)
    case None => [s]
    case Some(i) => [s[..i]] + SplitBy(s[i + |sep|..], sep)
  }

  /** `parts.join(sep)`. */
  function Join(parts: seq<string>, sep: string): string {
    if |parts| == 0 then ""
    else if |parts| == 1 then parts[0]
    else parts[0] + sep + Join(parts[1..], sep)
  }

  /** Splitting and joining with the same separator gives the string back. */
  lemma {:induction false} SplitJoin(s: string, sep: string)
    requires |sep| > 0
    ensures Join(SplitBy(s, sep), sep) == s
    decreases |s|
  {
    var idx := IndexOf(s, sep);
    if idx.Some? {
      var i := idx.value;
      var head, rest := s[..i], s[i + |sep|..];
      SplitJoin(rest, sep);
      var tail := SplitByStep(s, sep, i);
      JoinCons(head, tail, sep);
      SplitAround(s, sep, i);
    }
  }

  /** Splitting at the first occurrence: the part before it, then the pieces of the rest. */
  lemma SplitByStep(s: string, sep: string, i: nat) returns (tail: seq<string>)
    requires |sep| > 0 && IndexOf(s, sep) == Some(i)
    ensures i + |sep| <= |s| && tail == SplitBy(s[i + |sep|..], sep) && |tail| >= 1
    ensures SplitBy(s, sep) == [s[..i]] + tail
  {
    assert IsAt(s, sep, i);
    tail := SplitBy(s[i + |sep|..], sep);
    assert SplitBy(s, sep) == [s[..i]] + tail;
  }

  /** A string is the part before an occurrence of `p`, `p`, and the part after. */
  lemma SplitAround(s: string, p: string, i: nat)
    requires IsAt(s, p, i)
    ensures s == s[..i] + p + s[i + |p|..]
  {
    assert s == s[..i] + s[i..i + |p|] + s[i + |p|..];
  }

  lemma JoinCons(head: string, tail: seq<string>, sep: string)
    requires |tail| >= 1
    ensures Join([head] + tail, sep) == head + sep + Join(tail, sep)
  {
    assert ([head] + tail)[1..] == tail;
  }

  /** No piece produced by `split` contains the separator. */
  lemma {:induction false} SplitPiecesFree(s: string, sep: string)
    requires |sep| > 0
    ensures forall k | 0 <= k < |SplitBy(s, sep)| :: !Contains(SplitBy(s, sep)[k], sep)
    decreases |s|
  {
    match IndexOf(s, sep)
    case None =>
    case Some(i) =>
      var rest := s[i + |sep|..];
      SplitPiecesFree(rest, sep);
      var head := s[..i];
      forall j ensures !IsAt(head, sep, j) {
        if IsAt(head, sep, j) {
          assert s[j..j + |sep|] == head[j..j + |sep|];
          assert IsAt(s, sep, j);
        }
      }
  }

  /** `s.replace(/pat/g, rep)` for a literal pattern, which is `s.split(pat).join(rep)`. */
  function ReplaceAll(s: string, pat: string, rep: string): string
    requires |pat| > 0
  {
    Join(SplitBy(s, pat), rep)
  }

  /** `s.split(m).join("")`: every left-to-right, non-overlapping occurrence of `m` removed. */
  function RemoveAll(s: string, m: string): string
    requires |m| > 0
  {
    ReplaceAll(s, m, "")
  }

  /** Removing a pattern that does not occur changes nothing. */
  lemma RemoveAbsent(s: string, m: string)
    requires |m| > 0 && !Contains(s, m)
    ensures RemoveAll(s, m) == s
  {
  }

  predicate IsDigit(c: char) {
    '0' <= c <= '9'
  }

  predicate AllDigits(s: string) {
    forall i | 0 <= i < |s| :: IsDigit(s[i])
  }

  function DigitChar(d: nat): char
    requires d < 10
  {
    ('0' as int + d) as char
  }

  function Pow10(k: nat): nat {
    if k == 0 then 1 else 10 * Pow10(k - 1)
  }

  /** `String(n)` for a non-negative integer: its shortest decimal form. */
  function NatToDecimal(n: nat): (r: string)
    ensures |r| >= 1 && AllDigits(r)
    ensures (r[0] == '0') == (n == 0)
    decreases n
  {
    if n < 10 then [DigitChar(n)] else NatToDecimal(n / 10) + [DigitChar(n % 10)]
  }

  /** The number a string of decimal digits denotes. */
  function DecimalValue(s: string): nat
    requires AllDigits(s)
  {
    if s == [] then 0 else 10 * DecimalValue(s[..|s| - 1]) + (s[|s| - 1] as int - '0' as int)
  }

  /** Reading back the decimal form of `n` gives `n`. */
  lemma {:induction false} DecimalRoundTrip(n: nat)
    ensures DecimalValue(NatToDecimal(n)) == n
    decreases n
  {
    if n >= 10 {
      DecimalRoundTrip(n / 10);
      var r := NatToDecimal(n);
      assert r[..|r| - 1] == NatToDecimal(n / 10);
    }
  }

  /** Distinct numbers have distinct decimal forms. */
  lemma DecimalInjective(a: nat, b: nat)
    requires a != b
    ensures NatToDecimal(a) != NatToDecimal(b)
  {
    DecimalRoundTrip(a);
    DecimalRoundTrip(b);
  }

  /** The decimal form of `n` has at most `k + 1` digits exactly when `n < 10^(k+1)`. */
  lemma {:induction false} DecimalLength(n: nat, k: nat)
    ensures |NatToDecimal(n)| <= k + 1 <==> n < Pow10(k + 1)
    decreases n
  {
    if n >= 10 {
      if k == 0 {
        assert Pow10(1) == 10;
      } else {
        DecimalLength(n / 10, k - 1);
      }
    } else {
      assert Pow10(k + 1) >= 10 by { Pow10AtLeast10(k + 1); }
    }
  }

  lemma {:induction false} Pow10AtLeast10(k: nat)
    requires k >= 1
    ensures Pow10(k) >= 10
  {
    if k > 1 { Pow10AtLeast10(k - 1); }
  }
}
