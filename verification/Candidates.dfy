/** Search results as candidates for fetching, told apart by their keys. */
module Candidates {
  import opened Clipping

  /** `key` is the canonical URL, or the URL without one; `official` marks first-party source types. */
  datatype Candidate = Candidate(key: string, url: string, domain: string, terms: set<string>, preliminary: real,
    official: bool)

  datatype Facet = Facet(query: string, terms: set<string>)

  function Keys(cs: seq<Candidate>): (r: seq<string>)
    ensures |r| == |cs|
  {
    seq(|cs|, i requires 0 <= i < |cs| => cs[i].key)
  }

  function KeySet(cs: seq<Candidate>): set<string> {
    set c | c in cs :: c.key
  }

  function TakeUpTo(cs: seq<Candidate>, n: int): (r: seq<Candidate>)
    ensures r <= cs && |r| <= Max(n, 0) && (|r| < n ==> r == cs)
  {
    cs[..Min(|cs|, Max(n, 0))]
  }

  ghost predicate Distinct(xs: seq<string>) {
    forall i, j :: 0 <= i < j < |xs| ==> xs[i] != xs[j]
  }

  ghost predicate DistinctKeys(cs: seq<Candidate>) {
    forall i, j :: 0 <= i < j < |cs| ==> cs[i].key != cs[j].key
  }

  lemma KeysAreTheKeySet(cs: seq<Candidate>, k: string)
    ensures k in KeySet(cs) <==> k in Keys(cs)
  {
    if k in KeySet(cs) {
      var c :| c in cs && c.key == k;
      var i :| 0 <= i < |cs| && cs[i] == c;
      assert Keys(cs)[i] == k;
    }
    if k in Keys(cs) {
      var i :| 0 <= i < |cs| && Keys(cs)[i] == k;
      assert cs[i] in cs;
    }
  }

  function Elements(xs: seq<string>): (r: set<string>)
    ensures forall x :: x in r <==> x in xs
  {
    set x | x in xs
  }

  lemma {:induction false} DistinctElements(xs: seq<string>)
    ensures |Elements(xs)| <= |xs| && (Distinct(xs) ==> |Elements(xs)| == |xs|)
  {
    if xs == [] {
      assert Elements(xs) == {};
    } else {
      var last, before := xs[|xs|-1], xs[..|xs|-1];
      DistinctElements(before);
      assert Elements(xs) == Elements(before) + {last};
      if Distinct(xs) { assert last !in before; }
    }
  }
}
