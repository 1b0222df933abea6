/** Choosing which search results to fetch: preferred ones, the best for each facet, the top result, a
    first-party page, new domains, and then the rest in order. */
module FetchCandidates {
  import opened Wrappers
  import opened Clipping
  import opened Maxima
  import opened Candidates

  type Score = (Facet, Candidate) -> real

  /** Adds a candidate of a new key while there is room. */
  function AddNew(selected: seq<Candidate>, c: Candidate, limit: int): seq<Candidate> {
    if c.key in KeySet(selected) || |selected| >= limit then selected else selected + [c]
  }

  function AddAll(selected: seq<Candidate>, cs: seq<Candidate>, limit: int): seq<Candidate> {
    if cs == [] then selected else AddNew(AddAll(selected, cs[..|cs|-1], limit), cs[|cs|-1], limit)
  }

  // ---------- The best for each facet ----------

  /** The candidates that share enough terms with the facet, scored. */
  function FacetScores(cs: seq<Candidate>, f: Facet, score: Score): (r: seq<Option<Key>>)
    ensures |r| == |cs|
  {
    seq(|cs|, i requires 0 <= i < |cs| =>
      if |f.terms * cs[i].terms| >= Min(2, |f.terms|) then Some((score(f, cs[i]), 0.0)) else None)
  }

  /** Those of them that are still new and near the best score. */
  function NewScores(keys: seq<Option<Key>>, cs: seq<Candidate>, taken: set<string>, floor: real): (r: seq<Option<Key>>)
    requires |keys| == |cs|
    ensures |r| == |cs|
  {
    seq(|cs|, i requires 0 <= i < |cs| =>
      if keys[i].Some? && cs[i].key !in taken && keys[i].value.0 >= floor then keys[i] else None)
  }

  function Greater(x: real, y: real): real {
    if x >= y then x else y
  }

  function BestScore(keys: seq<Option<Key>>): real {
    var best := ArgMax(keys);
    if best.Some? then keys[best.value].value.0 else 0.0
  }

  function FacetMatch(selected: seq<Candidate>, cs: seq<Candidate>, f: Facet, score: Score): Option<Candidate> {
    var keys := FacetScores(cs, f, score);
    var best := ArgMax(NewScores(keys, cs, KeySet(selected), Greater(0.12, BestScore(keys) * 0.55)));
    if best.Some? then Some(cs[best.value]) else None
  }

  function ReserveFacets(selected: seq<Candidate>, cs: seq<Candidate>, facets: seq<Facet>, limit: int,
                         score: Score): seq<Candidate>
  {
    if facets == [] then selected
    else
      var before := ReserveFacets(selected, cs, facets[..|facets|-1], limit, score);
      var match_ := FacetMatch(before, cs, facets[|facets|-1], score);
      if match_.Some? then AddNew(before, match_.value, limit) else before
  }

  function Rounds(facets: seq<Facet>, limit: int): nat {
    if facets != [] && limit >= 2 * |facets| then 2 else 1
  }

  function ReserveRounds(selected: seq<Candidate>, cs: seq<Candidate>, facets: seq<Facet>, limit: int, score: Score,
                         rounds: nat)
    : seq<Candidate>
  {
    if rounds == 0 then selected
    else ReserveFacets(ReserveRounds(selected, cs, facets, limit, score, rounds - 1), cs, facets, limit, score)
  }

  // ---------- The top result, a first-party page, new domains ----------

  function Strong(cs: seq<Candidate>, floor: real): (r: seq<Candidate>)
    ensures forall c :: c in r ==> c in cs
  {
    if cs == [] then []
    else Strong(cs[..|cs|-1], floor) + if cs[|cs|-1].preliminary >= floor then [cs[|cs|-1]] else []
  }

  /** The results near the top score, among the first ones. */
  function Shortlist(cs: seq<Candidate>, limit: int): (r: seq<Candidate>)
    ensures forall c :: c in r ==> c in cs
  {
    if cs == [] then [] else Strong(TakeUpTo(cs, Max(10, limit * 3)), Greater(0.15, cs[0].preliminary * 0.55))
  }

  function FirstOfficial(cs: seq<Candidate>, taken: set<string>): (r: Option<Candidate>)
    ensures r.Some? ==> r.value in cs && r.value.official && r.value.key !in taken
  {
    if cs == [] then None
    else if cs[0].official && cs[0].key !in taken then Some(cs[0])
    else FirstOfficial(cs[1..], taken)
  }

  function AddOfficial(selected: seq<Candidate>, shortlist: seq<Candidate>, limit: int): seq<Candidate> {
    var official := FirstOfficial(shortlist, KeySet(selected));
    if official.Some? then AddNew(selected, official.value, limit) else selected
  }

  function Domains(cs: seq<Candidate>): set<string> {
    set c | c in cs :: c.domain
  }

  function AddNewDomains(selected: seq<Candidate>, shortlist: seq<Candidate>, limit: int): seq<Candidate> {
    if shortlist == [] then selected
    else
      var before := AddNewDomains(selected, shortlist[..|shortlist|-1], limit);
      var c := shortlist[|shortlist|-1];
      if c.domain in Domains(before) then before else AddNew(before, c, limit)
  }

  // ---------- The selection ----------

  function Preferred(preferred: seq<Candidate>, limit: int): seq<Candidate> {
    AddAll([], preferred, limit)
  }

  function Top(selected: seq<Candidate>, cs: seq<Candidate>, limit: int): seq<Candidate> {
    if cs == [] then selected else AddNew(selected, cs[0], limit)
  }

  function Middle(selected: seq<Candidate>, cs: seq<Candidate>, facets: seq<Facet>, limit: int,
                  score: Score): seq<Candidate>
  {
    var reserved := ReserveRounds(selected, cs, facets, limit, score, Rounds(facets, limit));
    var shortlist := Shortlist(cs, limit);
    AddNewDomains(AddOfficial(Top(reserved, cs, limit), shortlist, limit), shortlist, limit)
  }

  function Selection(cs: seq<Candidate>, limit: int, facets: seq<Facet>, preferred: seq<Candidate>,
                     score: Score): seq<Candidate>
  {
    if limit <= 0 then [] else AddAll(Middle(Preferred(preferred, limit), cs, facets, limit, score), cs, limit)
  }

  // ---------- What every stage keeps ----------

  /** A stage only appends candidates from the pool, of new keys, within the limit. */
  ghost predicate Extends(before: seq<Candidate>, after: seq<Candidate>, pool: set<Candidate>, limit: int) {
    && before <= after
    && (|before| <= limit ==> |after| <= limit)
    && (DistinctKeys(before) ==> DistinctKeys(after))
    && (forall c :: c in after ==> c in before || c in pool)
  }

  lemma {:induction false} AddingAllExtends(selected: seq<Candidate>, cs: seq<Candidate>, pool: set<Candidate>,
                                            limit: int)
    requires forall c :: c in cs ==> c in pool
    ensures Extends(selected, AddAll(selected, cs, limit), pool, limit)
  {
    if cs != [] {
      AddingAllExtends(selected, cs[..|cs|-1], pool, limit);
    }
  }

  lemma {:induction false} FacetsExtend(selected: seq<Candidate>, cs: seq<Candidate>, facets: seq<Facet>, limit: int,
                                        score: Score, pool: set<Candidate>)
    requires forall c :: c in cs ==> c in pool
    ensures Extends(selected, ReserveFacets(selected, cs, facets, limit, score), pool, limit)
  {
    if facets != [] {
      FacetsExtend(selected, cs, facets[..|facets|-1], limit, score, pool);
    }
  }

  lemma {:induction false} RoundsExtend(selected: seq<Candidate>, cs: seq<Candidate>, facets: seq<Facet>, limit: int,
                                        score: Score,
                                        rounds: nat, pool: set<Candidate>)
    requires forall c :: c in cs ==> c in pool
    ensures Extends(selected, ReserveRounds(selected, cs, facets, limit, score, rounds), pool, limit)
  {
    if rounds > 0 {
      RoundsExtend(selected, cs, facets, limit, score, rounds - 1, pool);
      FacetsExtend(ReserveRounds(selected, cs, facets, limit, score, rounds - 1), cs, facets, limit, score, pool);
    }
  }

  lemma {:induction false} NewDomainsExtend(selected: seq<Candidate>, shortlist: seq<Candidate>, limit: int,
                                            pool: set<Candidate>)
    requires forall c :: c in shortlist ==> c in pool
    ensures Extends(selected, AddNewDomains(selected, shortlist, limit), pool, limit)
  {
    if shortlist != [] {
      NewDomainsExtend(selected, shortlist[..|shortlist|-1], limit, pool);
    }
  }

  lemma MiddleExtends(selected: seq<Candidate>, cs: seq<Candidate>, facets: seq<Facet>, limit: int, score: Score,
                      pool: set<Candidate>)
    requires forall c :: c in cs ==> c in pool
    ensures Extends(selected, Middle(selected, cs, facets, limit, score), pool, limit)
  {
    var reserved := ReserveRounds(selected, cs, facets, limit, score, Rounds(facets, limit));
    var shortlist := Shortlist(cs, limit);
    RoundsExtend(selected, cs, facets, limit, score, Rounds(facets, limit), pool);
    NewDomainsExtend(AddOfficial(Top(reserved, cs, limit), shortlist, limit), shortlist, limit, pool);
  }

  // ---------- Completeness ----------

  /** Unless the limit is reached, every key offered is taken. */
  lemma {:induction false} AddingAllIsComplete(selected: seq<Candidate>, cs: seq<Candidate>, limit: int, c: Candidate)
    requires c in cs && |AddAll(selected, cs, limit)| < limit
    ensures c.key in KeySet(AddAll(selected, cs, limit))
  {
    var before := AddAll(selected, cs[..|cs|-1], limit);
    var after := AddAll(selected, cs, limit);
    assert cs == cs[..|cs|-1] + [cs[|cs|-1]];
    if c == cs[|cs|-1] {
      if c.key !in KeySet(before) { assert after[|before|] == c; }
    } else {
      AddingAllIsComplete(selected, cs[..|cs|-1], limit, c);
    }
  }

  /** Each key once, at its first candidate. */
  function FirstOfEachKey(cs: seq<Candidate>): seq<Candidate> {
    if cs == [] then []
    else
      var before := FirstOfEachKey(cs[..|cs|-1]);
      if cs[|cs|-1].key in KeySet(before) then before else before + [cs[|cs|-1]]
  }

  lemma {:induction false} PreferredComeInOrder(preferred: seq<Candidate>, limit: int)
    requires limit > 0
    ensures Preferred(preferred, limit) == TakeUpTo(FirstOfEachKey(preferred), limit)
  {
    if preferred != [] {
      PreferredComeInOrder(preferred[..|preferred|-1], limit);
    }
  }

  lemma SelectionExtends(cs: seq<Candidate>, limit: int, facets: seq<Facet>, preferred: seq<Candidate>, score: Score)
    requires limit > 0
    ensures Extends([], Selection(cs, limit, facets, preferred, score), (set c | c in preferred + cs), limit)
    ensures Preferred(preferred, limit) <= Selection(cs, limit, facets, preferred, score)
  {
    var pool := set c | c in preferred + cs;
    var first := Preferred(preferred, limit);
    AddingAllExtends([], preferred, pool, limit);
    MiddleExtends(first, cs, facets, limit, score, pool);
    AddingAllExtends(Middle(first, cs, facets, limit, score), cs, pool, limit);
  }

  /** Unless the limit is reached, every key among the preferred candidates and the results is selected. */
  lemma SelectionTakesEveryKey(cs: seq<Candidate>, limit: int, facets: seq<Facet>, preferred: seq<Candidate>,
                               score: Score, c: Candidate)
    requires limit > 0 && c in preferred + cs && |Selection(cs, limit, facets, preferred, score)| < limit
    ensures c.key in KeySet(Selection(cs, limit, facets, preferred, score))
  {
    var first := Preferred(preferred, limit);
    SelectionExtends(cs, limit, facets, preferred, score);
    if c in cs {
      AddingAllIsComplete(Middle(first, cs, facets, limit, score), cs, limit, c);
    } else {
      AddingAllIsComplete([], preferred, limit, c);
    }
  }

  /** For every limit, scores and facets: distinct keys, exactly as many as there are or as fit, all from
      the preferred candidates and the results, the distinct preferred ones first and in order. */
  lemma SelectionIsComplete(cs: seq<Candidate>, limit: int, facets: seq<Facet>, preferred: seq<Candidate>, score: Score)
    ensures var r := Selection(cs, limit, facets, preferred, score);
            && DistinctKeys(r)
            && |r| == Min(Max(limit, 0), |KeySet(preferred + cs)|)
            && (forall c :: c in r ==> c in preferred + cs)
            && TakeUpTo(FirstOfEachKey(preferred), limit) <= r
  {
    if limit > 0 {
      var r := Selection(cs, limit, facets, preferred, score);
      SelectionExtends(cs, limit, facets, preferred, score);
      PreferredComeInOrder(preferred, limit);
      DistinctKeysCount(r);
      if |r| < limit {
        forall c | c in preferred + cs ensures c.key in KeySet(r) {
          SelectionTakesEveryKey(cs, limit, facets, preferred, score, c);
        }
        assert KeySet(r) == KeySet(preferred + cs);
      } else {
        SubsetIsNoLarger(KeySet(r), KeySet(preferred + cs));
      }
    }
  }

  lemma DistinctKeysCount(cs: seq<Candidate>)
    requires DistinctKeys(cs)
    ensures |KeySet(cs)| == |cs|
  {
    DistinctElements(Keys(cs));
    forall k ensures k in KeySet(cs) <==> k in Keys(cs) { KeysAreTheKeySet(cs, k); }
    assert KeySet(cs) == Elements(Keys(cs));
  }
}
