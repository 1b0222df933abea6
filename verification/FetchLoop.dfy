/** The selection of candidates as it runs, and what it means for the retrieval that follows. */
module FetchLoop {
  import opened Wrappers
  import opened Clipping
  import opened Candidates
  import opened FetchCandidates
  import Retrieval
  import RetrievalProperties
  import RetrievalExits

  lemma {:induction false} FullStaysFull(selected: seq<Candidate>, cs: seq<Candidate>, limit: int, k: nat)
    requires k <= |cs| && |AddAll(selected, cs[..k], limit)| >= limit
    ensures AddAll(selected, cs, limit) == AddAll(selected, cs[..k], limit)
  {
    if k == |cs| {
      assert cs[..k] == cs;
    } else {
      assert cs[..|cs|-1][..k] == cs[..k];
      FullStaysFull(selected, cs[..|cs|-1], limit, k);
    }
  }

  /** Adds candidates of new keys until the limit is reached. */
  method AddUntilFull(start: seq<Candidate>, cs: seq<Candidate>, limit: int) returns (selected: seq<Candidate>)
    ensures selected == AddAll(start, cs, limit)
  {
    selected := start;
    var i := 0;
    while i < |cs| && |selected| < limit
      invariant 0 <= i <= |cs| && selected == AddAll(start, cs[..i], limit)
    {
      assert cs[..i+1][..i] == cs[..i];
      if cs[i].key !in KeySet(selected) { selected := selected + [cs[i]]; }
      i := i + 1;
    }
    if i < |cs| {
      FullStaysFull(start, cs, limit, i);
    } else {
      assert cs[..i] == cs;
    }
  }

  /** One round of facet reservations. */
  method ReserveOnce(start: seq<Candidate>, cs: seq<Candidate>, facets: seq<Facet>, limit: int, score: Score)
    returns (selected: seq<Candidate>)
    ensures selected == ReserveFacets(start, cs, facets, limit, score)
  {
    selected := start;
    for i := 0 to |facets|
      invariant selected == ReserveFacets(start, cs, facets[..i], limit, score)
    {
      assert facets[..i+1][..i] == facets[..i];
      var next := FacetMatch(selected, cs, facets[i], score);
      if next.Some? && |selected| < limit { selected := selected + [next.value]; }
    }
    assert facets[..|facets|] == facets;
  }

  method AddDomains(start: seq<Candidate>, shortlist: seq<Candidate>, limit: int) returns (selected: seq<Candidate>)
    ensures selected == AddNewDomains(start, shortlist, limit)
  {
    selected := start;
    for i := 0 to |shortlist|
      invariant selected == AddNewDomains(start, shortlist[..i], limit)
    {
      assert shortlist[..i+1][..i] == shortlist[..i];
      var c := shortlist[i];
      if |selected| < limit && c.key !in KeySet(selected) && c.domain !in Domains(selected) {
        selected := selected + [c];
      }
    }
    assert shortlist[..|shortlist|] == shortlist;
  }

  method AddMiddle(start: seq<Candidate>, cs: seq<Candidate>, facets: seq<Facet>, limit: int, score: Score)
    returns (selected: seq<Candidate>)
    ensures selected == Middle(start, cs, facets, limit, score)
  {
    selected := start;
    for round := 0 to Rounds(facets, limit)
      invariant selected == ReserveRounds(start, cs, facets, limit, score, round)
    {
      selected := ReserveOnce(selected, cs, facets, limit, score);
    }
    if cs != [] && cs[0].key !in KeySet(selected) && |selected| < limit { selected := selected + [cs[0]]; }
    var shortlist := Shortlist(cs, limit);
    var official := FirstOfficial(shortlist, KeySet(selected));
    if official.Some? && |selected| < limit { selected := selected + [official.value]; }
    selected := AddDomains(selected, shortlist, limit);
  }

  /** A full selection is final: nothing later can add to it. */
  lemma FullIsFinal(selected: seq<Candidate>, cs: seq<Candidate>, facets: seq<Facet>, limit: int, score: Score)
    requires |selected| == limit
    ensures AddAll(Middle(selected, cs, facets, limit, score), cs, limit) == selected
  {
    var pool := set c | c in cs;
    MiddleExtends(selected, cs, facets, limit, score, pool);
    AddingAllExtends(Middle(selected, cs, facets, limit, score), cs, pool, limit);
  }

  method SelectFetchCandidates(cs: seq<Candidate>, limit: int, facets: seq<Facet>, preferred: seq<Candidate>,
                               score: Score)
    returns (selected: seq<Candidate>)
    ensures selected == Selection(cs, limit, facets, preferred, score)
    ensures DistinctKeys(selected) && |selected| == Min(Max(limit, 0), |KeySet(preferred + cs)|)
  {
    SelectionIsComplete(cs, limit, facets, preferred, score);
    if limit <= 0 { return []; }
    selected := AddUntilFull([], preferred, limit);
    if |selected| >= limit {
      AddingAllExtends([], preferred, (set c | c in preferred), limit);
      FullIsFinal(selected, cs, facets, limit, score);
      return;
    }
    selected := AddMiddle(selected, cs, facets, limit, score);
    selected := AddUntilFull(selected, cs, limit);
  }

  /** The candidates so selected are each attempted at most once, the attempts stay within the cap, and a
      retrieval for several facets that the deadline does not stop makes exactly as many as the cap. */
  lemma SelectedCandidatesAreAttemptedOnce(cs: seq<Candidate>, poolLimit: int, preferred: seq<Candidate>, score: Score,
                                           facets: seq<Facet>, limit: int, byFacet: map<string, Candidate>,
                                           failures: seq<Retrieval.Failure>, world: Retrieval.World)
    ensures var pool := Selection(cs, poolLimit, if |facets| > 1 then facets else [], preferred, score);
            var t := Retrieval.Retrieved(pool, facets, Some(limit), byFacet, failures, world);
            var cap := Max(0, Min(limit, Min(Max(poolLimit, 0), |KeySet(preferred + cs)|)));
            && Distinct(t.order) && |t.order| == t.attempts <= cap
            && (|facets| > 1 && (forall n :: !world.late(n)) ==> t.attempts == cap)
  {
    var pool := Selection(cs, poolLimit, if |facets| > 1 then facets else [], preferred, score);
    SelectionIsComplete(cs, poolLimit, if |facets| > 1 then facets else [], preferred, score);
    RetrievalProperties.NoKeyIsAttemptedTwice(pool, facets, Some(limit), byFacet, failures, world);
    RetrievalProperties.RetrievalKeepsInv(pool, facets, Some(limit), byFacet, failures, world);
    RetrievalExits.RetrievalStopsForAReason(pool, facets, Some(limit), byFacet, failures, world);
  }
}
