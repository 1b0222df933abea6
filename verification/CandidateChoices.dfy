/** What the stages of the candidate selection choose. */
module CandidateChoices {
  import opened Wrappers
  import opened Clipping
  import opened Maxima
  import opened Candidates
  import opened FetchCandidates

  // ---------- The best for a facet ----------

  /** The candidate shares two terms with the facet, or the only one. */
  predicate Shares(c: Candidate, f: Facet) {
    |f.terms * c.terms| >= 2 || (|f.terms| < 2 && f.terms <= c.terms)
  }

  lemma SharesIff(c: Candidate, f: Facet)
    ensures Shares(c, f) <==> |f.terms * c.terms| >= Min(2, |f.terms|)
  {
    SubsetIsNoLarger(f.terms * c.terms, f.terms);
    if f.terms <= c.terms { assert f.terms * c.terms == f.terms; }
    if |f.terms| < 2 && |f.terms * c.terms| >= |f.terms| {
      assert f.terms == f.terms * c.terms + (f.terms - c.terms);
      assert f.terms - c.terms == {};
    }
  }

  /** The candidate shares terms with the facet and its score is at least 0.12 and 0.55 of the best one's. */
  ghost predicate IsGood(c: Candidate, cs: seq<Candidate>, f: Facet, score: Score) {
    && c in cs && Shares(c, f) && score(f, c) >= 0.12
    && forall other :: other in cs && Shares(other, f) ==> score(f, c) >= 0.55 * score(f, other)
  }

  lemma FacetScoresAreOfSharers(cs: seq<Candidate>, f: Facet, score: Score)
    ensures forall i :: 0 <= i < |cs| ==>
              FacetScores(cs, f, score)[i] == if Shares(cs[i], f) then Some((score(f, cs[i]), 0.0)) else None
  {
    forall i | 0 <= i < |cs| ensures Shares(cs[i], f) <==> |f.terms * cs[i].terms| >= Min(2, |f.terms|) {
      SharesIff(cs[i], f);
    }
  }

  lemma BestScoreBounds(cs: seq<Candidate>, f: Facet, score: Score)
    ensures forall c :: c in cs && Shares(c, f) ==> score(f, c) <= BestScore(FacetScores(cs, f, score))
    ensures (exists c :: c in cs && Shares(c, f) && score(f, c) == BestScore(FacetScores(cs, f, score)))
            || forall c :: c in cs ==> !Shares(c, f)
  {
    var keys := FacetScores(cs, f, score);
    FacetScoresAreOfSharers(cs, f, score);
    forall c | c in cs && Shares(c, f) ensures score(f, c) <= BestScore(keys) {
      var i :| 0 <= i < |cs| && cs[i] == c;
      assert keys[i].Some?;
    }
    var best := ArgMax(keys);
    if best.Some? {
      assert cs[best.value] in cs && score(f, cs[best.value]) == BestScore(keys);
    } else {
      forall c | c in cs ensures !Shares(c, f) {
        var i :| 0 <= i < |cs| && cs[i] == c;
        assert keys[i].None?;
      }
    }
  }

  lemma GoodIff(cs: seq<Candidate>, f: Facet, score: Score, i: nat)
    requires i < |cs| && Shares(cs[i], f)
    ensures score(f, cs[i]) >= Greater(0.12, BestScore(FacetScores(cs, f, score)) * 0.55)
            <==> IsGood(cs[i], cs, f, score)
  {
    BestScoreBounds(cs, f, score);
  }

  /** Of the candidates of new keys that share terms with the facet, the one at `i` is good and has the greatest score,
      as the first of equals. */
  ghost predicate IsBestNew(i: nat, taken: set<string>, cs: seq<Candidate>, f: Facet, score: Score) {
    && i < |cs| && IsGood(cs[i], cs, f, score) && cs[i].key !in taken
    && forall j :: 0 <= j < |cs| && Shares(cs[j], f) && cs[j].key !in taken ==>
         score(f, cs[j]) <= score(f, cs[i]) && (j < i ==> score(f, cs[j]) < score(f, cs[i]))
  }

  /** The keys for the new and good candidates are their scores, and the others score below the floor. */
  ghost predicate AreNewScores(news: seq<Option<Key>>, taken: set<string>, cs: seq<Candidate>, f: Facet, score: Score,
                               floor: real) {
    && |news| == |cs|
    && forall i :: 0 <= i < |cs| ==>
         && (news[i].Some? <==> cs[i].key !in taken && IsGood(cs[i], cs, f, score))
         && (news[i].Some? ==> news[i].value == (score(f, cs[i]), 0.0) && score(f, cs[i]) >= floor)
         && (Shares(cs[i], f) && cs[i].key !in taken && news[i].None? ==> score(f, cs[i]) < floor)
  }

  lemma BestOfNewScores(news: seq<Option<Key>>, taken: set<string>, cs: seq<Candidate>, f: Facet, score: Score,
                        floor: real)
    requires AreNewScores(news, taken, cs, f, score, floor)
    ensures ArgMax(news).None? <==> forall c :: IsGood(c, cs, f, score) ==> c.key in taken
    ensures ArgMax(news).Some? ==> IsBestNew(ArgMax(news).value, taken, cs, f, score)
  {
    var best := ArgMax(news);
    if best.None? {
      forall c | IsGood(c, cs, f, score) ensures c.key in taken {
        var i :| 0 <= i < |cs| && cs[i] == c;
        assert news[i].None?;
      }
    } else {
      assert IsGood(cs[best.value], cs, f, score);
    }
  }

  /** The facet's match is the best new candidate; there is none exactly when no good candidate has a new key. */
  lemma FacetMatchIsBest(selected: seq<Candidate>, cs: seq<Candidate>, f: Facet, score: Score) returns (i: nat)
    ensures FacetMatch(selected, cs, f, score).None?
            <==> forall c :: IsGood(c, cs, f, score) ==> c.key in KeySet(selected)
    ensures FacetMatch(selected, cs, f, score).Some? ==>
              IsBestNew(i, KeySet(selected), cs, f, score) && FacetMatch(selected, cs, f, score).value == cs[i]
  {
    var taken, keys := KeySet(selected), FacetScores(cs, f, score);
    var floor := Greater(0.12, BestScore(keys) * 0.55);
    var news := NewScores(keys, cs, taken, floor);
    FacetScoresAreOfSharers(cs, f, score);
    forall j | 0 <= j < |cs|
      ensures news[j].Some? <==> cs[j].key !in taken && IsGood(cs[j], cs, f, score)
      ensures news[j].Some? ==> news[j].value == (score(f, cs[j]), 0.0) && score(f, cs[j]) >= floor
      ensures Shares(cs[j], f) && cs[j].key !in taken && news[j].None? ==> score(f, cs[j]) < floor
    {
      if Shares(cs[j], f) { GoodIff(cs, f, score, j); }
    }
    BestOfNewScores(news, taken, cs, f, score, floor);
    var best := ArgMax(news);
    i := if best.Some? then best.value else 0;
  }

  // ---------- Results near the top ----------

  lemma {:induction false} StrongComeInOrder(cs: seq<Candidate>, floor: real) returns (ps: seq<nat>)
    ensures PicksInOrder(cs, Strong(cs, floor), ps)
    ensures forall c :: c in Strong(cs, floor) <==> c in cs && c.preliminary >= floor
  {
    if cs == [] {
      ps := [];
    } else {
      var n := |cs| - 1;
      ps := StrongComeInOrder(cs[..n], floor);
      assert cs == cs[..n] + [cs[n]];
      if cs[n].preliminary >= floor { ps := ps + [n]; }
    }
  }

  /** The shortlist are those of the first results, ten or three per fetch, that score at least 0.15 and 0.55 of what
      the top result does, in order. */
  lemma ShortlistIsNearTheTop(cs: seq<Candidate>, limit: int) returns (ps: seq<nat>)
    requires cs != []
    ensures PicksInOrder(cs, Shortlist(cs, limit), ps)
    ensures forall c :: c in Shortlist(cs, limit) <==>
              && c in TakeUpTo(cs, Max(10, 3 * limit))
              && c.preliminary >= 0.15 && c.preliminary >= 0.55 * cs[0].preliminary
  {
    ps := StrongComeInOrder(TakeUpTo(cs, Max(10, limit * 3)), Greater(0.15, cs[0].preliminary * 0.55));
  }

  lemma {:induction false} FirstOfficialIsFirst(cs: seq<Candidate>, taken: set<string>) returns (k: nat)
    ensures k <= |cs| && forall j :: 0 <= j < k ==> !cs[j].official || cs[j].key in taken
    ensures if k < |cs| then FirstOfficial(cs, taken) == Some(cs[k]) && cs[k].official && cs[k].key !in taken
            else FirstOfficial(cs, taken) == None
  {
    if cs == [] || (cs[0].official && cs[0].key !in taken) {
      k := 0;
    } else {
      k := FirstOfficialIsFirst(cs[1..], taken);
      k := k + 1;
    }
  }

  // ---------- New domains ----------

  /** Every candidate added is of a domain that was not selected before it. */
  lemma {:induction false} AddedDomainsAreNew(selected: seq<Candidate>, shortlist: seq<Candidate>, limit: int, i: nat)
    requires |selected| <= i < |AddNewDomains(selected, shortlist, limit)|
    ensures var r := AddNewDomains(selected, shortlist, limit);
            r[i] in shortlist && r[i].domain !in Domains(r[..i])
  {
    if shortlist != [] {
      var before := AddNewDomains(selected, shortlist[..|shortlist|-1], limit);
      var r := AddNewDomains(selected, shortlist, limit);
      if i < |before| {
        AddedDomainsAreNew(selected, shortlist[..|shortlist|-1], limit, i);
        assert r[..i] == before[..i];
      } else {
        assert r[..i] == before;
      }
    }
  }

  /** Unless the limit is reached, every domain of the shortlist is selected, except for pages already selected
      under another domain. */
  lemma {:induction false} NewDomainsAreRepresented(selected: seq<Candidate>, shortlist: seq<Candidate>, limit: int,
                                                    c: Candidate)
    requires c in shortlist && |AddNewDomains(selected, shortlist, limit)| < limit
    ensures var r := AddNewDomains(selected, shortlist, limit);
            c.domain in Domains(r) || c.key in KeySet(r)
  {
    var n := |shortlist| - 1;
    var before, r := AddNewDomains(selected, shortlist[..n], limit), AddNewDomains(selected, shortlist, limit);
    assert shortlist == shortlist[..n] + [shortlist[n]];
    if c != shortlist[n] {
      NewDomainsAreRepresented(selected, shortlist[..n], limit, c);
      LaterKnowsMore(before, r);
    } else if r != before {
      assert r[|before|] == c;
    }
  }

  lemma LaterKnowsMore(before: seq<Candidate>, after: seq<Candidate>)
    requires before <= after
    ensures Domains(before) <= Domains(after) && KeySet(before) <= KeySet(after)
  {
  }

  // ---------- Reservations ----------

  /** A good candidate for the facet is selected, or one of its key. */
  ghost predicate IsRepresented(f: Facet, selected: seq<Candidate>, cs: seq<Candidate>, score: Score) {
    exists c :: IsGood(c, cs, f, score) && c.key in KeySet(selected)
  }

  lemma StaysRepresented(f: Facet, before: seq<Candidate>, after: seq<Candidate>, cs: seq<Candidate>, score: Score)
    requires before <= after && IsRepresented(f, before, cs, score)
    ensures IsRepresented(f, after, cs, score)
  {
    LaterKnowsMore(before, after);
  }

  lemma MatchIsReserved(before: seq<Candidate>, cs: seq<Candidate>, f: Facet, limit: int, score: Score, top: Candidate)
    requires |before| < limit && IsGood(top, cs, f, score)
    ensures var m := FacetMatch(before, cs, f, score);
            IsRepresented(f, if m.Some? then AddNew(before, m.value, limit) else before, cs, score)
  {
    var i := FacetMatchIsBest(before, cs, f, score);
    var m := FacetMatch(before, cs, f, score);
    if m.Some? {
      assert m.value in before + [m.value];
    } else {
      assert top.key in KeySet(before);
    }
  }

  /** Below the limit, every facet that has a good candidate is represented after a round of reservations. */
  lemma {:induction false} FacetsAreRepresented(selected: seq<Candidate>, cs: seq<Candidate>, facets: seq<Facet>,
                                                limit: int, score: Score, f: Facet, top: Candidate)
    requires f in facets && |ReserveFacets(selected, cs, facets, limit, score)| < limit && IsGood(top, cs, f, score)
    ensures IsRepresented(f, ReserveFacets(selected, cs, facets, limit, score), cs, score)
  {
    var n := |facets| - 1;
    var before := ReserveFacets(selected, cs, facets[..n], limit, score);
    if f == facets[n] {
      MatchIsReserved(before, cs, f, limit, score, top);
    } else {
      assert f in facets[..n];
      FacetsAreRepresented(selected, cs, facets[..n], limit, score, f, top);
      StaysRepresented(f, before, ReserveFacets(selected, cs, facets, limit, score), cs, score);
    }
  }

  lemma {:induction false} FacetsKeepSelected(selected: seq<Candidate>, cs: seq<Candidate>, facets: seq<Facet>,
                                              limit: int, score: Score)
    ensures selected <= ReserveFacets(selected, cs, facets, limit, score)
  {
    if facets != [] { FacetsKeepSelected(selected, cs, facets[..|facets|-1], limit, score); }
  }

  /** A round gives a facet that still has a good candidate of a new key another one. */
  ghost predicate GainsFor(f: Facet, before: seq<Candidate>, after: seq<Candidate>, cs: seq<Candidate>, score: Score) {
    exists c :: IsGood(c, cs, f, score) && c.key !in KeySet(before) && c.key in KeySet(after)
  }

  lemma GainsLater(f: Facet, start: seq<Candidate>, before: seq<Candidate>, after: seq<Candidate>, cs: seq<Candidate>,
                   score: Score)
    requires GainsFor(f, start, before, cs, score) && before <= after
    ensures GainsFor(f, start, after, cs, score)
  {
    LaterKnowsMore(before, after);
  }

  lemma MatchIsNew(start: seq<Candidate>, before: seq<Candidate>, cs: seq<Candidate>, f: Facet, limit: int,
                   score: Score, left: Candidate)
    requires start <= before && |before| < limit && IsGood(left, cs, f, score) && left.key !in KeySet(before)
    ensures var m := FacetMatch(before, cs, f, score);
            m.Some? && GainsFor(f, start, AddNew(before, m.value, limit), cs, score)
  {
    var i := FacetMatchIsBest(before, cs, f, score);
    LaterKnowsMore(start, before);
    assert cs[i] in before + [cs[i]];
  }

  lemma LastFacetGains(selected: seq<Candidate>, cs: seq<Candidate>, facets: seq<Facet>, limit: int, score: Score,
                       left: Candidate)
    requires facets != []
    requires var before := ReserveFacets(selected, cs, facets[..|facets|-1], limit, score);
             |before| < limit && IsGood(left, cs, facets[|facets|-1], score) && left.key !in KeySet(before)
    ensures GainsFor(facets[|facets|-1], selected, ReserveFacets(selected, cs, facets, limit, score), cs, score)
  {
    var before := ReserveFacets(selected, cs, facets[..|facets|-1], limit, score);
    FacetsKeepSelected(selected, cs, facets[..|facets|-1], limit, score);
    MatchIsNew(selected, before, cs, facets[|facets|-1], limit, score, left);
  }

  lemma FacetsGrow(selected: seq<Candidate>, cs: seq<Candidate>, facets: seq<Facet>, limit: int, score: Score)
    requires facets != []
    ensures ReserveFacets(selected, cs, facets[..|facets|-1], limit, score)
            <= ReserveFacets(selected, cs, facets, limit, score)
  {
  }

  lemma {:induction false} RoundGains(selected: seq<Candidate>, cs: seq<Candidate>, facets: seq<Facet>, limit: int,
                                      score: Score, f: Facet, left: Candidate, after: seq<Candidate>)
    requires after == ReserveFacets(selected, cs, facets, limit, score) && f in facets && |after| < limit
    requires IsGood(left, cs, f, score) && left.key !in KeySet(after)
    ensures GainsFor(f, selected, after, cs, score)
  {
    var rest := facets[..|facets|-1];
    var before := ReserveFacets(selected, cs, rest, limit, score);
    FacetsGrow(selected, cs, facets, limit, score);
    LaterKnowsMore(before, after);
    if f == facets[|facets|-1] {
      LastFacetGains(selected, cs, facets, limit, score, left);
    } else {
      RoundGains(selected, cs, rest, limit, score, f, left, before);
      GainsLater(f, selected, before, after, cs, score);
    }
  }

  /** With room for two per facet, and below the limit, every facet has two good candidates selected, or all it has. */
  lemma TwoForEveryFacet(selected: seq<Candidate>, cs: seq<Candidate>, facets: seq<Facet>, limit: int, score: Score,
                         f: Facet, left: Candidate)
    requires f in facets && 2 * |facets| <= limit
    requires var after := ReserveRounds(selected, cs, facets, limit, score, Rounds(facets, limit));
             |after| < limit && IsGood(left, cs, f, score) && left.key !in KeySet(after)
    ensures var after := ReserveRounds(selected, cs, facets, limit, score, Rounds(facets, limit));
            exists a, b :: IsGood(a, cs, f, score) && IsGood(b, cs, f, score) && a.key != b.key
                           && a.key in KeySet(after) && b.key in KeySet(after)
  {
    var first := ReserveFacets(selected, cs, facets, limit, score);
    var second := ReserveFacets(first, cs, facets, limit, score);
    assert ReserveRounds(selected, cs, facets, limit, score, 1) == first;
    FacetsKeepSelected(first, cs, facets, limit, score);
    LaterKnowsMore(first, second);
    RoundGains(selected, cs, facets, limit, score, f, left, first);
    RoundGains(first, cs, facets, limit, score, f, left, second);
    var a :| IsGood(a, cs, f, score) && a.key !in KeySet(selected) && a.key in KeySet(first);
    var b :| IsGood(b, cs, f, score) && b.key !in KeySet(first) && b.key in KeySet(second);
    assert a.key != b.key;
  }

  // ---------- All stages ----------

  lemma {:induction false} DomainsKeepSelected(selected: seq<Candidate>, shortlist: seq<Candidate>, limit: int)
    ensures selected <= AddNewDomains(selected, shortlist, limit)
  {
    if shortlist != [] { DomainsKeepSelected(selected, shortlist[..|shortlist|-1], limit); }
  }

  lemma TopIsTaken(selected: seq<Candidate>, cs: seq<Candidate>, limit: int)
    requires cs != [] && |Top(selected, cs, limit)| < limit
    ensures selected <= Top(selected, cs, limit) && cs[0].key in KeySet(Top(selected, cs, limit))
  {
    if cs[0].key !in KeySet(selected) { assert cs[0] in selected + [cs[0]]; }
  }

  lemma OfficialIsTaken(selected: seq<Candidate>, shortlist: seq<Candidate>, limit: int, c: Candidate)
    requires c in shortlist && c.official && |AddOfficial(selected, shortlist, limit)| < limit
    ensures selected <= AddOfficial(selected, shortlist, limit)
    ensures exists o :: o in shortlist && o.official && o.key in KeySet(AddOfficial(selected, shortlist, limit))
  {
    var k := FirstOfficialIsFirst(shortlist, KeySet(selected));
    if k < |shortlist| {
      assert shortlist[k] in selected + [shortlist[k]];
    } else {
      assert c.key in KeySet(selected);
    }
  }

  /** Unless the limit is reached before the last stage, the selection holds the top result, for every facet with a good
      candidate one of them, a first-party page if the shortlist has one, and every domain of the shortlist, each by
      its key. */
  lemma EveryStageIsServed(selected: seq<Candidate>, cs: seq<Candidate>, facets: seq<Facet>, limit: int, score: Score,
                           c: Candidate)
    requires cs != [] && |Middle(selected, cs, facets, limit, score)| < limit
    ensures var m, shortlist := Middle(selected, cs, facets, limit, score), Shortlist(cs, limit);
            && cs[0].key in KeySet(m)
            && (c in shortlist ==> c.domain in Domains(m) || c.key in KeySet(m))
            && (c in shortlist && c.official ==> exists o :: o in shortlist && o.official && o.key in KeySet(m))
            && forall f :: f in facets && IsGood(c, cs, f, score) ==> IsRepresented(f, m, cs, score)
  {
    var shortlist, rounds := Shortlist(cs, limit), Rounds(facets, limit);
    var before := ReserveRounds(selected, cs, facets, limit, score, rounds - 1);
    var reserved := ReserveFacets(before, cs, facets, limit, score);
    var top := Top(reserved, cs, limit);
    var official := AddOfficial(top, shortlist, limit);
    var m := AddNewDomains(official, shortlist, limit);
    assert reserved <= top <= official;
    DomainsKeepSelected(official, shortlist, limit);
    TopIsTaken(reserved, cs, limit);
    LaterKnowsMore(top, m);
    LaterKnowsMore(official, m);
    if c in shortlist {
      NewDomainsAreRepresented(official, shortlist, limit, c);
      if c.official { OfficialIsTaken(top, shortlist, limit, c); }
    }
    forall f | f in facets && IsGood(c, cs, f, score) ensures IsRepresented(f, m, cs, score) {
      FacetsAreRepresented(before, cs, facets, limit, score, f, c);
      StaysRepresented(f, reserved, m, cs, score);
    }
  }
}
