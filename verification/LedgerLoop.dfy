/** The selection as it runs: a pool that shrinks, a list that grows, and counts per source. */
module LedgerLoop {
  import opened Wrappers
  import opened Maxima
  import opened TermCoverage
  import opened Ledger
  import opened LedgerProperties

  lemma NextFacet(s: State, limit: int, facets: seq<set<string>>, i: nat)
    requires i < |facets| && |ReserveFacets(s, limit, facets[..i]).selected| < limit
    ensures ReserveFacets(s, limit, facets[..i+1]) == Reserve(ReserveFacets(s, limit, facets[..i]), facets[i], None)
  {
    assert facets[..i+1][..i] == facets[..i];
  }

  lemma NextMaxBase(items: seq<Item>, i: nat)
    requires 0 < i < |items|
    ensures MaxBase(items[..i+1]) == if BaseScore(items[i]) > MaxBase(items[..i]) then BaseScore(items[i])
            else MaxBase(items[..i])
  {
    assert items[..i+1][..i] == items[..i];
  }

  class Selection {
    var remaining: seq<Item>
    var selected: seq<Item>
    var selectedTokens: seq<set<string>>
    var sourceCounts: map<string, nat>

    ghost predicate Valid()
      reads this
    {
      && |selectedTokens| == |selected|
      && (forall i :: 0 <= i < |selected| ==> selectedTokens[i] == selected[i].tokens)
      && (forall id :: id in sourceCounts ==> sourceCounts[id] > 0)
      && (forall id {:trigger Count(selected, id)} :: Count(selected, id) == Counted(id))
    }

    function Counted(id: string): nat
      reads this
    {
      if id in sourceCounts then sourceCounts[id] else 0
    }

    ghost function View(): State
      reads this
    {
      State(remaining, selected)
    }

    constructor (candidates: seq<Item>)
      ensures Valid() && View() == State(Admitted(candidates), [])
    {
      remaining, selected, selectedTokens, sourceCounts := Admitted(candidates), [], [], map[];
    }

    method Select(i: nat)
      requires Valid() && i < |remaining|
      modifies this
      ensures Valid() && View() == Take(old(View()), i)
    {
      var item := remaining[i];
      ghost var before := selected;
      ghost var counts := sourceCounts;
      remaining := remaining[..i] + remaining[i+1..];
      selected := selected + [item];
      selectedTokens := selectedTokens + [item.tokens];
      sourceCounts := sourceCounts[item.sourceId := Counted(item.sourceId) + 1];
      forall id ensures Count(selected, id) == Counted(id) {
        assert Count(before, id) == if id in counts then counts[id] else 0;
      }
    }

    method KeyOf(terms: set<string>, authority: Option<Authority>, item: Item) returns (key: Option<Key>)
      requires Valid()
      ensures key == ReservationKey(View(), terms, authority, item)
    {
      assert Count(selected, item.sourceId) == Counted(item.sourceId);
      var eligible := if authority.Some? then authority.value.recognises(item.url)
        else Counted(item.sourceId) < PER_SOURCE;
      var coverage := Coverage(terms, item);
      key := if eligible && coverage >= Required(terms) then Some((coverage, BaseScore(item))) else None;
    }

    /** The best reservation candidate: greatest coverage, then greatest score, then first. */
    method BestMatch(terms: set<string>, authority: Option<Authority>) returns (best: Option<nat>)
      requires Valid()
      ensures best == ArgMax(ReservationKeys(View(), terms, authority))
    {
      ghost var keys := ReservationKeys(View(), terms, authority);
      best := None;
      var bestKey := (0.0, 0.0);
      for i := 0 to |remaining|
        invariant best == ArgMax(keys[..i])
        invariant best.Some? ==> best.value < |keys| && keys[best.value] == Some(bestKey)
      {
        NextArgMax(keys, i);
        var key := KeyOf(terms, authority, remaining[i]);
        if key.Some? && (best.None? || Less(bestKey, key.value)) { best, bestKey := Some(i), key.value; }
      }
      assert keys[..|keys|] == keys;
    }

    method Place(terms: set<string>, authority: Option<Authority>)
      requires Valid()
      modifies this
      ensures Valid() && View() == Reserve(old(View()), terms, authority)
    {
      var best := BestMatch(terms, authority);
      if best.Some? { Select(best.value); }
    }

    method PlaceAuthority(limit: int, authority: Option<Authority>)
      requires Valid()
      modifies this
      ensures Valid() && View() == ReserveAuthority(old(View()), limit, authority)
    {
      if authority.Some? && |selected| < limit {
        Place(authority.value.terms, authority);
      }
    }

    method PlaceFacets(limit: int, facets: seq<set<string>>)
      requires Valid()
      modifies this
      ensures Valid() && View() == ReserveFacets(old(View()), limit, facets)
    {
      ghost var start := View();
      var i := 0;
      while i < |facets| && |selected| < limit
        invariant 0 <= i <= |facets| && Valid() && View() == ReserveFacets(start, limit, facets[..i])
      {
        NextFacet(start, limit, facets, i);
        Place(facets[i], None);
        i := i + 1;
      }
      if i < |facets| {
        FullStaysFull(start, limit, facets, i);
      } else {
        assert facets[..i] == facets;
      }
    }

    method Strongest() returns (best: real)
      requires remaining != []
      ensures best == MaxBase(remaining)
    {
      best := BaseScore(remaining[0]);
      assert remaining[..1] == [remaining[0]];
      for i := 1 to |remaining|
        invariant best == MaxBase(remaining[..i])
      {
        NextMaxBase(remaining, i);
        if BaseScore(remaining[i]) > best { best := BaseScore(remaining[i]); }
      }
      assert remaining[..|remaining|] == remaining;
    }

    method DropWeak()
      requires Valid()
      modifies this`remaining
      ensures Valid() && View() == ApplyFloor(old(View()))
    {
      if remaining != [] {
        var best := Strongest();
        remaining := Filter(remaining, BaseGate(best * 0.50));
      }
    }

    method SimilarityTo(tokens: set<string>) returns (r: real)
      requires Valid()
      ensures r == Similarity(tokens, selected)
    {
      r := 0.0;
      for i := 0 to |selectedTokens|
        invariant r == Similarity(tokens, selected[..i])
      {
        assert selected[..i+1][..i] == selected[..i];
        var s := Jaccard(tokens, selectedTokens[i]);
        if s > r { r := s; }
      }
      assert selected[..|selected|] == selected;
    }

    method Score(item: Item) returns (score: real)
      requires Valid()
      ensures score == Worth(View(), item)
    {
      var similarity := SimilarityTo(item.tokens);
      assert Count(selected, item.sourceId) == Counted(item.sourceId);
      var bonus := if item.sourceId !in sourceCounts then 0.08 else 0.0;
      score := BaseScore(item) + bonus - 0.25 * similarity - 0.06 * Counted(item.sourceId) as real;
    }

    /** The position to take next. The search starts from position 0 with the score -1, which every
        eligible item beats. */
    method BestWorth() returns (best: nat, found: bool)
      requires Valid() && forall x :: x in remaining ==> BaseScore(x) >= 0.0
      ensures ArgMax(WorthKeys(View())) == if found then Some(best) else None
    {
      ghost var keys := WorthKeys(View());
      best, found := 0, false;
      var bestScore := -1.0;
      for i := 0 to |remaining|
        invariant ArgMax(keys[..i]) == if found then Some(best) else None
        invariant found ==> best < |keys| && keys[best] == Some((bestScore, 0.0))
        invariant !found ==> best == 0 && bestScore == -1.0
      {
        NextArgMax(keys, i);
        var item := remaining[i];
        assert Count(selected, item.sourceId) == Counted(item.sourceId);
        if Counted(item.sourceId) < PER_SOURCE {
          var score := Score(item);
          WorthIsAboveSentinel(View(), item);
          found := true;
          if score > bestScore { best, bestScore := i, score; }
        }
      }
      assert keys[..|keys|] == keys;
    }

    method FillUp(limit: int)
      requires Valid() && forall x :: x in remaining ==> BaseScore(x) >= 0.0
      modifies this
      ensures Valid() && View() == Fill(old(View()), limit)
    {
      while remaining != [] && |selected| < limit
        invariant Valid() && forall x :: x in remaining ==> BaseScore(x) >= 0.0
        invariant Fill(View(), limit) == Fill(old(View()), limit)
        decreases |remaining|
      {
        var best, found := BestWorth();
        if !found { return; }
        Select(best);
      }
    }
  }

  lemma {:induction false} FullStaysFull(s: State, limit: int, facets: seq<set<string>>, k: nat)
    requires k <= |facets| && |ReserveFacets(s, limit, facets[..k]).selected| >= limit
    ensures ReserveFacets(s, limit, facets) == ReserveFacets(s, limit, facets[..k])
  {
    if k == |facets| {
      assert facets[..k] == facets;
    } else {
      assert facets[..|facets|-1][..k] == facets[..k];
      FullStaysFull(s, limit, facets[..|facets|-1], k);
    }
  }

  method SelectDiverse(candidates: seq<Item>, limit: int, authority: Option<Authority>, facets: seq<set<string>>)
    returns (r: seq<Item>)
    ensures r == Selected(candidates, limit, authority, facets)
  {
    var selection := new Selection(candidates);
    selection.PlaceAuthority(limit, authority);
    selection.PlaceFacets(limit, facets);
    FloorLeavesNoNegative(selection.View());
    selection.DropWeak();
    selection.FillUp(limit);
    r := selection.selected;
  }
}
