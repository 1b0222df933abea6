/** How much of a question's terms a passage mentions, and how much it must. */
module TermCoverage {
  import opened Clipping

  /** Short questions must be mentioned completely, longer ones to three fifths. */
  function Required(terms: set<string>): real {
    if |terms| <= 2 then 1.0 else 0.60
  }

  function Mentioned(terms: set<string>, meaningful: set<string>): real {
    |terms * meaningful| as real / Max(1, |terms|) as real
  }

  /** Comparing a share with a bound is comparing the part with the bound of the whole. */
  lemma ShareAtLeast(r: real, q: real, x: real, n: real)
    requires n > 0.0 && r * n == x
    ensures r >= q <==> x >= q * n
  {
    if r >= q {
      assert (r - q) * n >= 0.0;
    } else {
      assert (q - r) * n > 0.0;
    }
  }

  lemma ShareOfTerms(r: real, x: nat, n: nat, part: real, whole: real)
    requires 0 < n && x <= n && part == x as real && whole == n as real && r * whole == part
    ensures r >= 1.0 <==> x == n
    ensures r >= 0.60 <==> 5 * x >= 3 * n
  {
    ShareAtLeast(r, 1.0, part, whole);
    ShareAtLeast(r, 0.60, part, whole);
    assert part >= whole <==> x >= n;
    assert 5.0 * part >= 3.0 * whole <==> 5 * x >= 3 * n;
  }

  lemma FractionOfTerms(x: nat, n: nat)
    requires 0 < n && x <= n
    ensures x as real / n as real >= 1.0 <==> x == n
    ensures x as real / n as real >= 0.60 <==> 5 * x >= 3 * n
  {
    ShareOfTerms(x as real / n as real, x, n, x as real, n as real);
  }

  lemma AllTermsOrFewer(terms: set<string>, meaningful: set<string>)
    ensures |terms * meaningful| <= |terms|
    ensures |terms * meaningful| == |terms| <==> terms <= meaningful
  {
    assert terms == (terms * meaningful) + (terms - meaningful);
    assert (terms * meaningful) !! (terms - meaningful);
    if terms <= meaningful { assert terms * meaningful == terms; }
    if |terms * meaningful| == |terms| { assert terms - meaningful == {}; }
  }

  /** A passage mentions enough exactly when it has all of one or two terms, or three fifths of more; without
      terms nothing is ever enough. */
  lemma EnoughIsMentionedIff(terms: set<string>, meaningful: set<string>)
    ensures Mentioned(terms, meaningful) >= Required(terms)
            <==> terms != {} && (if |terms| <= 2 then terms <= meaningful
                                 else 5 * |terms * meaningful| >= 3 * |terms|)
  {
    AllTermsOrFewer(terms, meaningful);
    if terms != {} { FractionOfTerms(|terms * meaningful|, |terms|); }
  }
}
