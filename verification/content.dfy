/**
 * `buildUniqueSlug` (`src/lib/content.ts`): the slug of a new news post or
 * archive article is the slug of its title, suffixed "-2", "-3", … until
 * it is free. The store lookup is the set of slugs already taken.
 */
module Content {
  import opened Text
  import opened Utils

  /** `slugify(baseTitle) || "artikel"`. */
  function BaseSlug(title: string): (base: string)
    ensures base != []
    ensures Slugify(title) != [] ==> base == Slugify(title)
    ensures Slugify(title) == [] ==> base == "artikel"
  {
    if Slugify(title) != [] then Slugify(title) else "artikel"
  }

  /** The base is always a well-formed slug. */
  lemma BaseIsSlug(title: string)
    ensures IsSlug(BaseSlug(title))
  {
    if Slugify(title) == [] {
      ArtikelIsSlug();
    } else {
      SlugifyIsSlug(title);
    }
  }

  lemma ArtikelIsSlug()
    ensures IsSlug("artikel")
  {
    var a := "artikel";
    assert forall i | 0 <= i < |a| :: IsSlugChar(a[i]);
  }

  /** The `suffix`-th candidate: the base itself for 1, else `base-suffix`. */
  function Candidate(base: string, suffix: nat): string {
    if suffix <= 1 then base else base + "-" + NatToDecimal(suffix)
  }

  /** Distinct suffixes (from 1 on) give distinct candidates. */
  lemma CandidateInjective(base: string, j: nat, k: nat)
    requires 1 <= j < k
    ensures Candidate(base, j) != Candidate(base, k)
  {
    if j >= 2 {
      DecimalInjective(j, k);
      assert Candidate(base, j)[|base| + 1..] == NatToDecimal(j);
      assert Candidate(base, k)[|base| + 1..] == NatToDecimal(k);
    } else {
      assert |Candidate(base, k)| > |base|;
    }
  }

  /** The first candidate of `base` that is not taken. */
  method FirstFree(base: string, taken: set<string>) returns (slug: string)
    ensures slug !in taken
    ensures exists suffix: nat | suffix >= 1 ::
      && slug == Candidate(base, suffix)
      && forall j | 1 <= j < suffix :: Candidate(base, j) in taken
  {
    var current := base;
    var suffix: nat := 1;
    ghost var tried: set<string> := {};
    while current in taken
      invariant suffix >= 1 && current == Candidate(base, suffix)
      invariant tried <= taken && |tried| == suffix - 1
      invariant forall j | 1 <= j < suffix :: Candidate(base, j) in tried
      invariant forall s | s in tried :: exists j | 1 <= j < suffix :: s == Candidate(base, j)
      decreases |taken| - |tried|
    {
      assert current !in tried by {
        forall s | s in tried ensures s != current {
          var j :| 1 <= j < suffix && s == Candidate(base, j);
          CandidateInjective(base, j, suffix);
        }
      }
      tried := tried + {current};
      SubsetSize(tried, taken);
      suffix := suffix + 1;
      current := base + "-" + NatToDecimal(suffix);
    }
    slug := current;
  }

  /**
   * `buildUniqueSlug`: the first free candidate, trying the base, then
   * `base-2`, `base-3`, …; the loop ends because `taken` is finite and the
   * candidates are all different.
   */
  method BuildUniqueSlug(title: string, taken: set<string>) returns (slug: string)
    ensures slug !in taken
    ensures exists suffix: nat | suffix >= 1 ::
      && slug == Candidate(BaseSlug(title), suffix)
      && forall j | 1 <= j < suffix :: Candidate(BaseSlug(title), j) in taken
  {
    slug := FirstFree(BaseSlug(title), taken);
  }

  lemma SubsetSize(a: set<string>, b: set<string>)
    requires a <= b
    ensures |a| <= |b|
  {
    assert b == a + (b - a);
  }

  /** The suffix "-1" is never produced: after the base itself comes `base-2`. */
  lemma NoSuffixOne(base: string, suffix: nat)
    requires suffix >= 1
    ensures Candidate(base, suffix) != base + "-1"
  {
    if suffix >= 2 {
      DecimalInjective(suffix, 1);
      assert NatToDecimal(1) == "1";
      assert Candidate(base, suffix)[|base| + 1..] == NatToDecimal(suffix);
      assert (base + "-1")[|base| + 1..] == "1";
    } else {
      assert |base + "-1"| == |base| + 2;
    }
  }

  /** When the base is free it is the result: no suffix is added. */
  lemma FreeBaseIsKept(base: string, taken: set<string>, suffix: nat)
    requires base !in taken && suffix >= 1
    requires forall j | 1 <= j < suffix :: Candidate(base, j) in taken
    ensures Candidate(base, suffix) == base
  {
    assert Candidate(base, 1) == base;
  }
}
