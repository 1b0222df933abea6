/** What the greedy phase of the selection prefers, said of the selected passages themselves. */
module LedgerRanking {
  import opened Wrappers
  import opened Maxima
  import opened TermCoverage
  import opened Ledger
  import opened LedgerProperties

  // ---------- The parts of the ranking ----------

  /** The base score is an average of the three scores: passage to source counts 3 : 2, source to quality 6 : 5. */
  lemma BaseScoreWeighs(item: Item, x: real, y: real)
    ensures item.passageScore == item.sourceScore == item.quality ==> BaseScore(item) == item.quality
    ensures BaseScore(item.(passageScore := item.passageScore + 2.0 * x, sourceScore := item.sourceScore - 3.0 * x))
            == BaseScore(item)
    ensures BaseScore(item.(sourceScore := item.sourceScore + 5.0 * y, quality := item.quality - 6.0 * y))
            == BaseScore(item)
  {
  }

  /** The similarity to the selected passages is the greatest to any of them, and 0 without any. */
  lemma {:induction false} SimilarityIsTheGreatest(tokens: set<string>, selected: seq<Item>)
    ensures forall x :: x in selected ==> Jaccard(tokens, x.tokens) <= Similarity(tokens, selected)
    ensures selected == [] ==> Similarity(tokens, selected) == 0.0
    ensures selected != [] ==> exists x :: x in selected && Jaccard(tokens, x.tokens) == Similarity(tokens, selected)
  {
    if selected != [] {
      var before, last := selected[..|selected|-1], selected[|selected|-1];
      assert selected == before + [last];
      SimilarityIsTheGreatest(tokens, before);
      assert last in selected;
    }
  }

  /** A passage with the tokens of a selected one. */
  ghost predicate IsCopy(tokens: set<string>, selected: seq<Item>) {
    tokens != {} && exists x :: x in selected && x.tokens == tokens
  }

  /** A passage without a token of any selected one. */
  ghost predicate IsStranger(tokens: set<string>, selected: seq<Item>) {
    forall x :: x in selected ==> tokens * x.tokens == {}
  }

  /** A copy is as similar as can be, a stranger is not at all, and every other passage is in between. */
  lemma CopiesAndStrangers(tokens: set<string>, selected: seq<Item>)
    ensures Similarity(tokens, selected) == 1.0 <==> IsCopy(tokens, selected)
    ensures Similarity(tokens, selected) == 0.0 <==> IsStranger(tokens, selected)
  {
    SimilarityIsTheGreatest(tokens, selected);
    forall x | x in selected
      ensures Jaccard(tokens, x.tokens) == 0.0 <==> tokens * x.tokens == {}
      ensures Jaccard(tokens, x.tokens) == 1.0 <==> tokens == x.tokens && tokens != {}
    {
      JaccardMeasuresOverlap(tokens, x.tokens);
    }
  }

  /** The positions of a source's passages. */
  ghost function PositionsOf(selected: seq<Item>, sourceId: string): set<nat> {
    set i: nat | i < |selected| && selected[i].sourceId == sourceId
  }

  lemma {:induction false} CountIsTheNumberOfPositions(selected: seq<Item>, sourceId: string)
    ensures Count(selected, sourceId) == |PositionsOf(selected, sourceId)|
  {
    if selected == [] {
      assert PositionsOf(selected, sourceId) == {};
    } else {
      var n := |selected| - 1;
      CountIsTheNumberOfPositions(selected[..n], sourceId);
      assert PositionsOf(selected, sourceId)
             == PositionsOf(selected[..n], sourceId) + if selected[n].sourceId == sourceId then {n} else {};
    }
  }

  lemma ThreeMakeThree(r: seq<Item>, i: nat, j: nat, k: nat)
    requires i < j < k < |r| && r[i].sourceId == r[j].sourceId == r[k].sourceId
    ensures Count(r, r[i].sourceId) >= 3
  {
    CountIsTheNumberOfPositions(r, r[i].sourceId);
    SubsetIsNoLarger({i, j, k}, PositionsOf(r, r[i].sourceId));
  }

  /** No three selected passages are from one source. */
  lemma NoThreeOfOneSource(candidates: seq<Item>, limit: int, authority: Option<Authority>, facets: seq<set<string>>,
                           i: nat, j: nat, k: nat)
    requires i < j < k < |Selected(candidates, limit, authority, facets)|
    ensures var r := Selected(candidates, limit, authority, facets);
            !(r[i].sourceId == r[j].sourceId == r[k].sourceId)
  {
    SelectionIsSound(candidates, limit, authority, facets);
    var r := Selected(candidates, limit, authority, facets);
    if r[i].sourceId == r[j].sourceId == r[k].sourceId { ThreeMakeThree(r, i, j, k); }
  }

  lemma {:induction false} FilterKeepsOrder(items: seq<Item>, gate: Gate) returns (ps: seq<nat>)
    ensures PicksInOrder(items, Filter(items, gate), ps)
  {
    if items == [] {
      ps := [];
    } else {
      var rest := Filter(items[1..], gate);
      assert items == [items[0]] + items[1..];
      ps := FilterKeepsOrder(items[1..], gate);
      ps := SkipFirst(items[0], items[1..], rest, ps);
      if Passes(items[0], gate) {
        PickFirst(items[0], items[1..], rest, ps);
        ps := [0] + ps;
      } else {
        assert Filter(items, gate) == rest;
      }
    }
  }

  /** The relative floor is half of the greatest base score left. */
  lemma {:induction false} MaxBaseIsAttained(items: seq<Item>)
    requires items != []
    ensures exists x :: x in items && BaseScore(x) == MaxBase(items)
    ensures forall x :: x in items ==> BaseScore(x) <= MaxBase(items)
  {
    if |items| > 1 {
      var n := |items| - 1;
      MaxBaseIsAttained(items[..n]);
      assert items == items[..n] + [items[n]];
      assert items[n] in items;
    } else {
      assert items[0] in items;
    }
  }

  /** A passage covers a facet when it has all of one or two terms, or three fifths of more. */
  lemma CoversIff(item: Item, terms: set<string>)
    ensures Covers(item, terms)
            <==> terms != {} && (if |terms| <= 2 then terms <= item.meaningful
                                 else 5 * |terms * item.meaningful| >= 3 * |terms|)
  {
    EnoughIsMentionedIff(terms, item.meaningful);
  }

  /** A facet's reservation takes the covering passage of an open source with the greatest share of the terms, and of
      equal shares the one with the best base score; there is none exactly when no covering passage is open. */
  lemma ReservationTakesTheBest(s: State, terms: set<string>, i: nat)
    requires i < |s.remaining| && Open(s, s.remaining[i]) && Covers(s.remaining[i], terms)
    ensures var r := Reserve(s, terms, None).selected;
            && r != [] && r[..|r|-1] == s.selected && Open(s, r[|r|-1]) && Covers(r[|r|-1], terms)
            && var shared, best := |terms * s.remaining[i].meaningful|, |terms * r[|r|-1].meaningful|;
               shared < best || (shared == best && BaseScore(s.remaining[i]) <= BaseScore(r[|r|-1]))
  {
    var keys := ReservationKeys(s, terms, None);
    assert keys[i] == Some((Coverage(terms, s.remaining[i]), BaseScore(s.remaining[i])));
    var x := s.remaining[ArgMax(keys).value];
    assert keys[ArgMax(keys).value] == Some((Coverage(terms, x), BaseScore(x)));
    CoversIff(x, terms);
    MoreTermsCoverMore(terms, s.remaining[i].meaningful, x.meaningful);
  }

  lemma MoreTermsCoverMore(terms: set<string>, a: set<string>, b: set<string>)
    requires terms != {}
    ensures Mentioned(terms, a) < Mentioned(terms, b) <==> |terms * a| < |terms * b|
    ensures Mentioned(terms, a) == Mentioned(terms, b) <==> |terms * a| == |terms * b|
  {
    FractionsCompare(|terms * a|, |terms * b|, |terms|);
  }

  lemma FractionsCompare(x: nat, y: nat, n: nat)
    requires n > 0
    ensures x as real / n as real < y as real / n as real <==> x < y
    ensures x as real / n as real == y as real / n as real <==> x == y
  {
    var r, q := x as real / n as real, y as real / n as real;
    SharesCompare(r, q, x as real, y as real, n as real);
  }

  lemma SharesCompare(r: real, q: real, x: real, y: real, n: real)
    requires n > 0.0 && r * n == x && q * n == y
    ensures r < q <==> x < y
    ensures r == q <==> x == y
  {
    ShareAtLeast(r, q, x, n);
    ShareAtLeast(q, r, y, n);
  }

  // ---------- Which passage is taken next ----------

  /** What taking `x` rather than `y` after `selected` says about the two. */
  ghost predicate Prefers(selected: seq<Item>, x: Item, y: Item) {
    var cx, cy := Count(selected, x.sourceId), Count(selected, y.sourceId);
    var sx, sy := Similarity(x.tokens, selected), Similarity(y.tokens, selected);
    && (cx == cy && sx == sy ==> BaseScore(x) >= BaseScore(y))
    && (cx == cy ==> BaseScore(x) - BaseScore(y) >= (sx - sy) / 4.0)
    && (sx == sy && BaseScore(x) == BaseScore(y) ==> cx <= cy)
    && (sx == sy && cx > 0 && cy == 0 ==> BaseScore(x) >= BaseScore(y) + 0.14)
    && (sx == sy && cx == 0 && cy > 0 ==> BaseScore(x) >= BaseScore(y) - 0.14)
  }

  lemma WorthPrefers(s: State, x: Item, y: Item)
    requires Open(s, x) && Open(s, y) && Worth(s, x) >= Worth(s, y)
    ensures Prefers(s.selected, x, y)
  {
  }

  /** The passage that the greedy phase takes next is preferred to every open one that is left. */
  lemma NextIsPreferred(s: State, i: nat, y: Item)
    requires ArgMax(WorthKeys(s)) == Some(i) && y in s.remaining && Open(s, y)
    ensures Open(s, s.remaining[i]) && Prefers(s.selected, s.remaining[i], y)
  {
    var j :| 0 <= j < |s.remaining| && s.remaining[j] == y;
    assert WorthKeys(s)[j] == Some((Worth(s, y), 0.0));
    assert WorthKeys(s)[i] == Some((Worth(s, s.remaining[i]), 0.0));
    WorthPrefers(s, s.remaining[i], y);
  }

  lemma StillThere(s: State, i: nat, y: Item, r: seq<Item>, k: nat)
    requires i < |s.remaining| && |s.selected| < k < |r| && Take(s, i).selected <= r
    requires multiset(s.selected + s.remaining)[y] > multiset(r[..k])[y]
    ensures multiset(Take(s, i).selected + Take(s, i).remaining)[y] > multiset(r[..k])[y]
  {
    TakingConserves(s, i);
    assert multiset(Take(s, i).selected + Take(s, i).remaining) == multiset(s.selected + s.remaining);
  }

  /** Every passage selected by the greedy phase is preferred, after what was selected before it, to every
      passage not selected by then whose source is still open. */
  lemma {:induction false} FillingPrefers(s: State, limit: int, k: nat, y: Item)
    requires |s.selected| <= k < |Fill(s, limit).selected|
    requires multiset(s.selected + s.remaining)[y] > multiset(Fill(s, limit).selected[..k])[y]
    requires Count(Fill(s, limit).selected[..k], y.sourceId) < PER_SOURCE
    ensures Prefers(Fill(s, limit).selected[..k], Fill(s, limit).selected[k], y)
    decreases |s.remaining|
  {
    var r, i := Fill(s, limit).selected, ArgMax(WorthKeys(s)).value;
    FillingAdvances(Take(s, i), limit);
    if k == |s.selected| {
      assert r[..k] == s.selected;
      assert y in s.remaining;
      NextIsPreferred(s, i, y);
    } else {
      StillThere(s, i, y, r, k);
      FillingPrefers(Take(s, i), limit, k, y);
    }
  }

  lemma FlooredStillThere(reserved: State, floor: real, pool: seq<Item>, before: seq<Item>, y: Item)
    requires Advances(State(pool, []), reserved) && multiset(pool)[y] > multiset(before)[y] && BaseScore(y) >= floor
    ensures multiset(Floored(reserved, floor).selected + Floored(reserved, floor).remaining)[y] > multiset(before)[y]
  {
    FloorKeepsTheGood(reserved, floor, y);
    SameOccurrences(State(pool, []), reserved, y);
  }

  lemma FlooredFillingPrefers(reserved: State, limit: int, pool: seq<Item>, r: seq<Item>, k: nat, y: Item)
    requires r == Fill(ApplyFloor(reserved), limit).selected && |reserved.selected| <= k < |r|
    requires Advances(State(pool, []), reserved) && reserved.remaining != []
    requires BaseScore(y) >= MaxBase(reserved.remaining) * 0.50
    requires multiset(pool)[y] > multiset(r[..k])[y] && Count(r[..k], y.sourceId) < PER_SOURCE
    ensures Prefers(r[..k], r[k], y)
  {
    var floor := MaxBase(reserved.remaining) * 0.50;
    FlooredStillThere(reserved, floor, pool, r[..k], y);
    FillingPrefers(Floored(reserved, floor), limit, k, y);
  }

  /** So every passage of the selection that was not reserved is preferred, after those selected before it, to
      every admitted passage that is above the relative floor, not selected by then and from an open source. */
  lemma SelectionPrefers(candidates: seq<Item>, limit: int, authority: Option<Authority>, facets: seq<set<string>>,
                         reserved: State, r: seq<Item>, k: nat, y: Item)
    requires reserved == Reserved(candidates, limit, authority, facets)
    requires r == Selected(candidates, limit, authority, facets)
    requires |reserved.selected| <= k < |r| && reserved.remaining != []
    requires BaseScore(y) >= MaxBase(reserved.remaining) * 0.50
    requires multiset(Admitted(candidates))[y] > multiset(r[..k])[y] && Count(r[..k], y.sourceId) < PER_SOURCE
    ensures Prefers(r[..k], r[k], y)
  {
    ReservedAdvances(candidates, limit, authority, facets);
    FlooredFillingPrefers(reserved, limit, Admitted(candidates), r, k, y);
  }

  /** A copy of a selected passage loses to a stranger from a source as often taken, unless its base score is at
      least 0.25 above; and a stranger wins as long as its base score is at most 0.25 below. */
  lemma CopiesLoseToStrangers(selected: seq<Item>, x: Item, y: Item)
    requires Prefers(selected, x, y) && Count(selected, x.sourceId) == Count(selected, y.sourceId)
    ensures IsCopy(x.tokens, selected) && IsStranger(y.tokens, selected) ==> BaseScore(x) >= BaseScore(y) + 0.25
    ensures IsStranger(x.tokens, selected) && IsCopy(y.tokens, selected) ==> BaseScore(x) >= BaseScore(y) - 0.25
  {
    CopiesAndStrangers(x.tokens, selected);
    CopiesAndStrangers(y.tokens, selected);
  }

  // ---------- Better scores never hurt ----------

  /** The same passage with scores that are nowhere lower. */
  ghost predicate Raised(x: Item, y: Item) {
    && y == x.(passageScore := y.passageScore, sourceScore := y.sourceScore, quality := y.quality)
    && y.passageScore >= x.passageScore && y.sourceScore >= x.sourceScore && y.quality >= x.quality
  }

  /** Raising scores of the passage taken next keeps it the one taken next. */
  lemma RaisingKeepsItTaken(s: State, i: nat, y: Item)
    requires ArgMax(WorthKeys(s)) == Some(i) && Raised(s.remaining[i], y)
    ensures ArgMax(WorthKeys(s.(remaining := s.remaining[i := y]))) == Some(i)
  {
    var t := s.(remaining := s.remaining[i := y]);
    var before, after := WorthKeys(s), WorthKeys(t);
    assert after == before[i := Some((Worth(s, y), 0.0))];
    assert Worth(s, y) >= Worth(s, s.remaining[i]);
    RaisedMaximum(before, i, Worth(s, y));
  }

  lemma RaisedMaximum(keys: seq<Option<Key>>, i: nat, worth: real)
    requires ArgMax(keys) == Some(i) && keys[i].value.0 <= worth && keys[i].value.1 == 0.0
    ensures ArgMax(keys[i := Some((worth, 0.0))]) == Some(i)
  {
    var raised := keys[i := Some((worth, 0.0))];
    assert raised[i].Some?;
    forall j | 0 <= j < |raised| && j != i && raised[j].Some?
      ensures !Less(raised[i].value, raised[j].value) && (j < i ==> Less(raised[j].value, raised[i].value))
    {
      assert raised[j] == keys[j];
    }
  }
}
