/** What the selected evidence always satisfies, and why the selection stops where it does. */
module LedgerProperties {
  import opened Wrappers
  import opened Clipping
  import opened Maxima
  import opened Ledger

  // ---------- One step ----------

  lemma TakingConserves(s: State, i: nat)
    requires i < |s.remaining|
    ensures multiset(Take(s, i).selected) + multiset(Take(s, i).remaining)
            == multiset(s.selected) + multiset(s.remaining)
  {
    assert s.remaining == s.remaining[..i] + [s.remaining[i]] + s.remaining[i+1..];
  }

  /** Filtering keeps every passing item as often as it occurs, and no other. */
  lemma {:induction false} FilterKeepsPassing(items: seq<Item>, gate: Gate, x: Item)
    ensures multiset(Filter(items, gate))[x] == if Passes(x, gate) then multiset(items)[x] else 0
  {
    if items != [] {
      FilterKeepsPassing(items[1..], gate, x);
      assert items == [items[0]] + items[1..];
    }
  }

  lemma FilterIsPart(items: seq<Item>, gate: Gate)
    ensures multiset(Filter(items, gate)) <= multiset(items)
  {
    forall x ensures multiset(Filter(items, gate))[x] <= multiset(items)[x] {
      FilterKeepsPassing(items, gate, x);
    }
  }

  /** The state is made of the pool: its items and the selected ones are all from there, each once. */
  ghost predicate MadeOf(s: State, pool: seq<Item>) {
    multiset(s.selected) + multiset(s.remaining) <= multiset(pool)
  }

  ghost predicate Capped(s: State) {
    forall id :: Count(s.selected, id) <= PER_SOURCE
  }

  ghost predicate Sound(s: State, pool: seq<Item>, limit: int) {
    MadeOf(s, pool) && Capped(s) && |s.selected| <= Max(limit, 0)
  }

  lemma TakingIsSound(s: State, i: nat, pool: seq<Item>, limit: int)
    requires Sound(s, pool, limit) && i < |s.remaining| && Open(s, s.remaining[i]) && |s.selected| < limit
    ensures Sound(Take(s, i), pool, limit)
  {
    TakingConserves(s, i);
  }

  lemma ReservingIsSound(s: State, terms: set<string>, authority: Option<Authority>, pool: seq<Item>, limit: int)
    requires Sound(s, pool, limit) && |s.selected| < limit && (authority.Some? ==> s.selected == [])
    ensures Sound(Reserve(s, terms, authority), pool, limit)
  {
    var best := ArgMax(ReservationKeys(s, terms, authority));
    if best.Some? { TakingIsSound(s, best.value, pool, limit); }
  }

  lemma {:induction false} FacetsAreSound(s: State, limit: int, facets: seq<set<string>>, pool: seq<Item>)
    requires Sound(s, pool, limit)
    ensures Sound(ReserveFacets(s, limit, facets), pool, limit)
  {
    if facets != [] {
      var before := ReserveFacets(s, limit, facets[..|facets|-1]);
      FacetsAreSound(s, limit, facets[..|facets|-1], pool);
      if |before.selected| < limit { ReservingIsSound(before, facets[|facets|-1], None, pool, limit); }
    }
  }

  lemma {:induction false} FillingIsSound(s: State, limit: int, pool: seq<Item>)
    requires Sound(s, pool, limit)
    ensures Sound(Fill(s, limit), pool, limit)
    decreases |s.remaining|
  {
    var best := ArgMax(WorthKeys(s));
    if |s.selected| < limit && best.Some? {
      TakingIsSound(s, best.value, pool, limit);
      FillingIsSound(Take(s, best.value), limit, pool);
    }
  }

  lemma FloorIsSound(s: State, floor: real, pool: seq<Item>, limit: int)
    requires Sound(s, pool, limit)
    ensures Sound(Floored(s, floor), pool, limit)
  {
    FilterIsPart(s.remaining, BaseGate(floor));
  }

  lemma ReservedIsSound(candidates: seq<Item>, limit: int, authority: Option<Authority>, facets: seq<set<string>>)
    ensures Sound(Reserved(candidates, limit, authority, facets), Admitted(candidates), limit)
  {
    var start := State(Admitted(candidates), []);
    if authority.Some? && 0 < limit {
      ReservingIsSound(start, authority.value.terms, authority, Admitted(candidates), limit);
    }
    FacetsAreSound(ReserveAuthority(start, limit, authority), limit, facets, Admitted(candidates));
  }

  lemma FinalIsSound(candidates: seq<Item>, limit: int, authority: Option<Authority>, facets: seq<set<string>>)
    ensures Sound(Final(candidates, limit, authority, facets), Admitted(candidates), limit)
  {
    var s := Reserved(candidates, limit, authority, facets);
    ReservedIsSound(candidates, limit, authority, facets);
    if s.remaining != [] { FloorIsSound(s, MaxBase(s.remaining) * 0.50, Admitted(candidates), limit); }
    FillingIsSound(ApplyFloor(s), limit, Admitted(candidates));
  }

  /** For every input: at most `limit` passages, each candidate at most as often as it occurs, every one
      from a source past the admission gate, and at most two of one source over all phases. */
  lemma SelectionIsSound(candidates: seq<Item>, limit: int, authority: Option<Authority>, facets: seq<set<string>>)
    ensures var r := Selected(candidates, limit, authority, facets);
            && |r| <= Max(limit, 0)
            && multiset(r) <= multiset(candidates)
            && (forall x :: x in r ==> x.sourceScore >= ADMISSION)
            && (forall id :: Count(r, id) <= PER_SOURCE)
  {
    var r, pool := Selected(candidates, limit, authority, facets), Admitted(candidates);
    FinalIsSound(candidates, limit, authority, facets);
    FilterIsPart(candidates, SourceGate(ADMISSION));
    forall x | x in r ensures x.sourceScore >= ADMISSION {
      assert multiset(r)[x] <= multiset(pool)[x];
      assert x in pool;
    }
  }

  // ---------- Scores stay above the sentinel ----------

  lemma {:induction false} MaxBaseBounds(items: seq<Item>, x: Item)
    requires x in items
    ensures BaseScore(x) <= MaxBase(items)
  {
    var n := |items| - 1;
    assert items == items[..n] + [items[n]];
    if n > 0 && x in items[..n] { MaxBaseBounds(items[..n], x); }
  }

  /** The relative floor leaves nothing of negative score, even when every score is negative: half of
      a negative maximum is above the maximum. */
  lemma FloorLeavesNoNegative(s: State)
    ensures forall x :: x in ApplyFloor(s).remaining ==> BaseScore(x) >= 0.0
  {
    if s.remaining != [] {
      var m := MaxBase(s.remaining);
      forall x | x in ApplyFloor(s).remaining ensures BaseScore(x) >= 0.0 {
        MaxBaseBounds(s.remaining, x);
        assert Passes(x, BaseGate(m * 0.50));
      }
    }
  }

  /** An item of non-negative score whose source is still open is worth more than the sentinel -1. */
  lemma WorthIsAboveSentinel(s: State, item: Item)
    requires BaseScore(item) >= 0.0 && Open(s, item)
    ensures Worth(s, item) > -1.0
  {
    assert Count(s.selected, item.sourceId) as real <= 1.0;
  }

  // ---------- What happens to each item ----------

  lemma {:induction false} CountIsMonotone(xs: seq<Item>, ys: seq<Item>, id: string)
    requires xs <= ys
    ensures Count(xs, id) <= Count(ys, id)
  {
    if |xs| < |ys| {
      CountIsMonotone(xs, ys[..|ys|-1], id);
    } else {
      assert xs == ys;
    }
  }

  /** From one state to a later one of the same phase nothing is lost and nothing is unselected. */
  ghost predicate Advances(s: State, t: State) {
    && s.selected <= t.selected
    && multiset(t.selected) + multiset(t.remaining) == multiset(s.selected) + multiset(s.remaining)
  }

  lemma ReservingAdvances(s: State, terms: set<string>, authority: Option<Authority>)
    ensures Advances(s, Reserve(s, terms, authority))
  {
    var best := ArgMax(ReservationKeys(s, terms, authority));
    if best.Some? { TakingConserves(s, best.value); }
  }

  lemma {:induction false} FacetsAdvance(s: State, limit: int, facets: seq<set<string>>)
    ensures Advances(s, ReserveFacets(s, limit, facets))
  {
    if facets != [] {
      FacetsAdvance(s, limit, facets[..|facets|-1]);
      ReservingAdvances(ReserveFacets(s, limit, facets[..|facets|-1]), facets[|facets|-1], None);
    }
  }

  /** Later facets only add to what earlier facets reserved. */
  lemma {:induction false} MoreFacetsAdvance(s: State, limit: int, facets: seq<set<string>>, k: nat)
    requires k <= |facets|
    ensures Advances(ReserveFacets(s, limit, facets[..k]), ReserveFacets(s, limit, facets))
  {
    if k == |facets| {
      assert facets[..k] == facets;
    } else {
      var shorter := facets[..|facets|-1];
      assert shorter[..k] == facets[..k];
      MoreFacetsAdvance(s, limit, shorter, k);
      ReservingAdvances(ReserveFacets(s, limit, shorter), facets[|facets|-1], None);
    }
  }

  lemma {:induction false} FillingAdvances(s: State, limit: int)
    ensures Advances(s, Fill(s, limit))
    decreases |s.remaining|
  {
    var best := ArgMax(WorthKeys(s));
    if |s.selected| < limit && best.Some? {
      TakingConserves(s, best.value);
      FillingAdvances(Take(s, best.value), limit);
    }
  }

  /** Filling stops below the limit only when every item left is from a source that already has two. */
  lemma {:induction false} FillingStops(s: State, limit: int)
    ensures var t := Fill(s, limit); |t.selected| < limit ==> forall x :: x in t.remaining ==> !Open(t, x)
    decreases |s.remaining|
  {
    var best := ArgMax(WorthKeys(s));
    if |s.selected| < limit {
      if best.Some? {
        FillingStops(Take(s, best.value), limit);
      } else {
        forall x | x in s.remaining ensures !Open(s, x) {
          var i :| 0 <= i < |s.remaining| && s.remaining[i] == x;
          assert WorthKeys(s)[i].None?;
        }
      }
    }
  }

  lemma ReservedAdvances(candidates: seq<Item>, limit: int, authority: Option<Authority>, facets: seq<set<string>>)
    ensures Advances(State(Admitted(candidates), []), Reserved(candidates, limit, authority, facets))
  {
    var start := State(Admitted(candidates), []);
    if authority.Some? { ReservingAdvances(start, authority.value.terms, authority); }
    FacetsAdvance(ReserveAuthority(start, limit, authority), limit, facets);
  }

  lemma PrefixHasFewer(xs: seq<Item>, ys: seq<Item>, x: Item)
    requires xs <= ys
    ensures multiset(xs)[x] <= multiset(ys)[x]
  {
    assert ys == xs + ys[|xs|..];
  }

  lemma SameOccurrences(s: State, t: State, x: Item)
    requires multiset(t.selected) + multiset(t.remaining) == multiset(s.selected) + multiset(s.remaining)
    ensures multiset(t.selected)[x] + multiset(t.remaining)[x] == multiset(s.selected)[x] + multiset(s.remaining)[x]
  {
    assert (multiset(t.selected) + multiset(t.remaining))[x] == (multiset(s.selected) + multiset(s.remaining))[x];
  }

  lemma FloorKeepsTheGood(s: State, floor: real, x: Item)
    requires BaseScore(x) >= floor
    ensures multiset(Floored(s, floor).remaining)[x] == multiset(s.remaining)[x]
  {
    FilterKeepsPassing(s.remaining, BaseGate(floor), x);
  }

  /** An item that was there before the floor and is not selected in the end was dropped by the floor,
      or is still there. */
  lemma LeftBehind(reserved: State, floor: real, final: State, x: Item)
    requires Advances(Floored(reserved, floor), final)
    requires multiset(reserved.selected)[x] + multiset(reserved.remaining)[x] > multiset(final.selected)[x]
    ensures x in reserved.remaining && (x in final.remaining || BaseScore(x) < floor)
  {
    PrefixHasFewer(reserved.selected, final.selected, x);
    SameOccurrences(Floored(reserved, floor), final, x);
    if BaseScore(x) >= floor { FloorKeepsTheGood(reserved, floor, x); }
  }

  /** What remains at the end, below the limit, is from sources that already have two. */
  lemma RemainingIsClosed(candidates: seq<Item>, limit: int, authority: Option<Authority>, facets: seq<set<string>>,
                          x: Item)
    requires x in Final(candidates, limit, authority, facets).remaining
             && |Selected(candidates, limit, authority, facets)| < limit
    ensures Count(Selected(candidates, limit, authority, facets), x.sourceId) == PER_SOURCE
  {
    FillingStops(ApplyFloor(Reserved(candidates, limit, authority, facets)), limit);
    FinalIsSound(candidates, limit, authority, facets);
  }

  lemma LeftAfterFloor(reserved: State, final: State, x: Item)
    requires Advances(ApplyFloor(reserved), final)
    requires multiset(reserved.selected)[x] + multiset(reserved.remaining)[x] > multiset(final.selected)[x]
    ensures x in reserved.remaining && (x in final.remaining || BaseScore(x) < MaxBase(reserved.remaining) * 0.50)
  {
    if reserved.remaining == [] {
      PrefixHasFewer(reserved.selected, final.selected, x);
    } else {
      LeftBehind(reserved, MaxBase(reserved.remaining) * 0.50, final, x);
    }
  }

  /** Of the admitted passages, those left out in the end remain or were below the floor. */
  lemma LeftOut(candidates: seq<Item>, limit: int, authority: Option<Authority>, facets: seq<set<string>>, x: Item)
    requires multiset(Admitted(candidates))[x] > multiset(Selected(candidates, limit, authority, facets))[x]
    ensures var reserved := Reserved(candidates, limit, authority, facets).remaining;
            x in reserved && (x in Final(candidates, limit, authority, facets).remaining
              || BaseScore(x) < MaxBase(reserved) * 0.50)
  {
    var reserved := Reserved(candidates, limit, authority, facets);
    ReservedAdvances(candidates, limit, authority, facets);
    SameOccurrences(State(Admitted(candidates), []), reserved, x);
    FillingAdvances(ApplyFloor(reserved), limit);
    LeftAfterFloor(reserved, Final(candidates, limit, authority, facets), x);
  }

  /** When fewer than `limit` passages are selected, each passage left out, counted with repetitions,
      is from a source that already has two, or is below half of the best score left after reservations. */
  lemma LeftoversAreJustified(candidates: seq<Item>, limit: int, authority: Option<Authority>,
                              facets: seq<set<string>>, x: Item)
    requires var r := Selected(candidates, limit, authority, facets);
             |r| < limit && multiset(Admitted(candidates))[x] > multiset(r)[x]
    ensures var reserved := Reserved(candidates, limit, authority, facets).remaining;
            || Count(Selected(candidates, limit, authority, facets), x.sourceId) == PER_SOURCE
            || (x in reserved && BaseScore(x) < MaxBase(reserved) * 0.50)
  {
    LeftOut(candidates, limit, authority, facets, x);
    if x in Final(candidates, limit, authority, facets).remaining {
      RemainingIsClosed(candidates, limit, authority, facets, x);
    }
  }

  // ---------- Reservations are honoured ----------

  /** A reservation either takes a covering item, or every covering item of the pool is selected or
      from a source that already has two. */
  lemma ReservationIsHonoured(s: State, terms: set<string>, pool: seq<Item>, x: Item)
    requires multiset(s.selected) + multiset(s.remaining) == multiset(pool) && x in pool && Covers(x, terms)
    ensures (exists y :: y in Reserve(s, terms, None).selected && Covers(y, terms))
            || Count(s.selected, x.sourceId) >= PER_SOURCE
  {
    var best := ArgMax(ReservationKeys(s, terms, None));
    if best.Some? {
      var y := s.remaining[best.value];
      assert y in Reserve(s, terms, None).selected && Covers(y, terms);
    } else {
      assert x in multiset(s.selected) + multiset(s.remaining);
      if x in s.selected {
        assert x in Reserve(s, terms, None).selected;
      } else {
        NoneOpen(s, terms, x);
      }
    }
  }

  /** What the first `k` facets reserved stays selected. */
  lemma ReservationsStay(candidates: seq<Item>, limit: int, authority: Option<Authority>, facets: seq<set<string>>,
                         k: nat)
    requires k <= |facets|
    ensures var stage := Reserved(candidates, limit, authority, facets[..k]);
            && stage.selected <= Selected(candidates, limit, authority, facets)
            && multiset(stage.selected) + multiset(stage.remaining) == multiset(Admitted(candidates))
  {
    MoreFacetsAdvance(ReserveAuthority(State(Admitted(candidates), []), limit, authority), limit, facets, k);
    FillingAdvances(ApplyFloor(Reserved(candidates, limit, authority, facets)), limit);
    ReservedAdvances(candidates, limit, authority, facets[..k]);
  }

  /** When fewer than `limit` passages are selected, each facet is covered by a selected passage, unless
      every admitted passage that covers it is from a source that already has two. */
  lemma FacetsAreServed(candidates: seq<Item>, limit: int, authority: Option<Authority>, facets: seq<set<string>>,
                        k: nat, x: Item)
    requires k < |facets| && |Selected(candidates, limit, authority, facets)| < limit
    requires x in Admitted(candidates) && Covers(x, facets[k])
    ensures var r := Selected(candidates, limit, authority, facets);
            (exists y :: y in r && Covers(y, facets[k])) || Count(r, x.sourceId) == PER_SOURCE
  {
    var before := Reserved(candidates, limit, authority, facets[..k]);
    ReservationsStay(candidates, limit, authority, facets, k);
    ReservationsStay(candidates, limit, authority, facets, k + 1);
    assert facets[..k+1][..k] == facets[..k];
    assert Reserved(candidates, limit, authority, facets[..k+1]) == Reserve(before, facets[k], None);
    FinalIsSound(candidates, limit, authority, facets);
    ReservationIsHonoured(before, facets[k], Admitted(candidates), x);
    CountIsMonotone(before.selected, Selected(candidates, limit, authority, facets), x.sourceId);
  }

  lemma NoneOpen(s: State, terms: set<string>, x: Item)
    requires ArgMax(ReservationKeys(s, terms, None)).None? && x in s.remaining && Covers(x, terms)
    ensures Count(s.selected, x.sourceId) >= PER_SOURCE
  {
    var i :| 0 <= i < |s.remaining| && s.remaining[i] == x;
    assert ReservationKeys(s, terms, None)[i].None?;
  }

  /** A covering passage of a recognised authority comes first, the best of them by coverage and score. */
  lemma AuthorityComesFirst(candidates: seq<Item>, limit: int, authority: Authority, facets: seq<set<string>>, x: Item)
    requires limit > 0 && x in Admitted(candidates) && authority.recognises(x.url) && Covers(x, authority.terms)
    ensures var r := Selected(candidates, limit, Some(authority), facets);
            && r != [] && authority.recognises(r[0].url) && Covers(r[0], authority.terms)
            && !Less((Coverage(authority.terms, r[0]), BaseScore(r[0])), (Coverage(authority.terms, x), BaseScore(x)))
  {
    var start := State(Admitted(candidates), []);
    var keys := ReservationKeys(start, authority.terms, Some(authority));
    var i :| 0 <= i < |start.remaining| && start.remaining[i] == x;
    assert keys[i] == Some((Coverage(authority.terms, x), BaseScore(x)));
    var s := ReserveAuthority(start, limit, Some(authority));
    assert s.selected == [start.remaining[ArgMax(keys).value]];
    FacetsAdvance(s, limit, facets);
    FillingAdvances(ApplyFloor(Reserved(candidates, limit, Some(authority), facets)), limit);
  }
}
