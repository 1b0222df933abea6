/** Choosing a diverse set of passages for the evidence ledger.

    Scores are real numbers and token sets are sets of strings; how they are computed, and which hosts
    a query names as an authority, is given. */
module Ledger {
  import opened Wrappers
  import opened Clipping
  import opened Maxima
  import opened TermCoverage

  datatype Item = Item(sourceId: string, url: string, tokens: set<string>, meaningful: set<string>,
                       passageScore: real, sourceScore: real, quality: real)

  /** The terms of the authority query and the addresses it recognises. */
  datatype Authority = Authority(terms: set<string>, recognises: string -> bool)

  const ADMISSION := 0.18
  const PER_SOURCE := 2

  function BaseScore(item: Item): real {
    0.45 * item.passageScore + 0.30 * item.sourceScore + 0.25 * item.quality
  }

  // ---------- Filtering and counting ----------

  /** The two quality gates: an absolute one on the source, a relative one on the whole score. */
  datatype Gate = SourceGate(bound: real) | BaseGate(bound: real)

  predicate Passes(item: Item, gate: Gate) {
    (if gate.SourceGate? then item.sourceScore else BaseScore(item)) >= gate.bound
  }

  function Filter(items: seq<Item>, gate: Gate): (r: seq<Item>)
    ensures forall x :: x in r <==> x in items && Passes(x, gate)
  {
    if items == [] then []
    else
      (if Passes(items[0], gate) then [items[0]] else []) + Filter(items[1..], gate)
  }

  function Admitted(candidates: seq<Item>): seq<Item> {
    Filter(candidates, SourceGate(ADMISSION))
  }

  function Count(selected: seq<Item>, sourceId: string): nat {
    if selected == [] then 0
    else Count(selected[..|selected|-1], sourceId) + if selected[|selected|-1].sourceId == sourceId then 1 else 0
  }

  // ---------- Reservations ----------

  function Coverage(terms: set<string>, item: Item): real {
    Mentioned(terms, item.meaningful)
  }

  predicate Covers(item: Item, terms: set<string>) {
    Coverage(terms, item) >= Required(terms)
  }

  datatype State = State(remaining: seq<Item>, selected: seq<Item>)

  function Take(s: State, i: nat): State
    requires i < |s.remaining|
  {
    State(s.remaining[..i] + s.remaining[i+1..], s.selected + [s.remaining[i]])
  }

  predicate Open(s: State, item: Item) {
    Count(s.selected, item.sourceId) < PER_SOURCE
  }

  /** The authority's reservation looks at addresses, a facet's at how often the source was taken. */
  predicate Eligible(s: State, authority: Option<Authority>, item: Item) {
    if authority.Some? then authority.value.recognises(item.url) else Open(s, item)
  }

  function ReservationKey(s: State, terms: set<string>, authority: Option<Authority>, item: Item): Option<Key> {
    if Eligible(s, authority, item) && Covers(item, terms) then Some((Coverage(terms, item), BaseScore(item))) else None
  }

  function ReservationKeys(s: State, terms: set<string>, authority: Option<Authority>): (r: seq<Option<Key>>)
    ensures |r| == |s.remaining|
  {
    seq(|s.remaining|, i requires 0 <= i < |s.remaining| => ReservationKey(s, terms, authority, s.remaining[i]))
  }

  function Reserve(s: State, terms: set<string>, authority: Option<Authority>): State {
    var best := ArgMax(ReservationKeys(s, terms, authority));
    if best.Some? then Take(s, best.value) else s
  }

  function ReserveAuthority(s: State, limit: int, authority: Option<Authority>): State {
    if authority.Some? && |s.selected| < limit then Reserve(s, authority.value.terms, authority) else s
  }

  function ReserveFacets(s: State, limit: int, facets: seq<set<string>>): State {
    if facets == [] then s
    else
      var before := ReserveFacets(s, limit, facets[..|facets|-1]);
      if |before.selected| >= limit then before else Reserve(before, facets[|facets|-1], None)
  }

  // ---------- The relative floor ----------

  function MaxBase(items: seq<Item>): real
    requires items != []
  {
    if |items| == 1 then BaseScore(items[0])
    else
      var before := MaxBase(items[..|items|-1]);
      var last := BaseScore(items[|items|-1]);
      if last > before then last else before
  }

  function Floored(s: State, floor: real): State {
    State(Filter(s.remaining, BaseGate(floor)), s.selected)
  }

  function ApplyFloor(s: State): State {
    if s.remaining == [] then s else Floored(s, MaxBase(s.remaining) * 0.50)
  }

  // ---------- Filling up greedily ----------

  function Jaccard(a: set<string>, b: set<string>): (r: real)
    ensures 0.0 <= r <= 1.0
  {
    JaccardIsAFraction(a, b);
    |a * b| as real / Max(1, |a + b|) as real
  }

  lemma Fractions(x: nat, y: nat)
    requires x <= y && y > 0
    ensures x as real / y as real == 0.0 <==> x == 0
    ensures x as real / y as real == 1.0 <==> x == y
  {
    var r := x as real / y as real;
    assert r * y as real == x as real;
  }

  lemma SameNumberIsSame(a: set<string>, b: set<string>)
    ensures |a * b| <= |a + b| && (|a * b| == |a + b| ==> a == b)
  {
    assert a + b == (a * b) + (a + b - a * b);
    if |a * b| == |a + b| { assert a + b - a * b == {}; }
  }

  /** It is the share of the common elements in all: 0 exactly for sets without a common element, and 1 exactly for
      the same non-empty set. */
  lemma JaccardMeasuresOverlap(a: set<string>, b: set<string>)
    ensures Jaccard(a, b) == 0.0 <==> a * b == {}
    ensures Jaccard(a, b) == 1.0 <==> a == b && a != {}
    ensures Jaccard(a, b) * |a + b| as real == |a * b| as real
  {
    SameNumberIsSame(a, b);
    Fractions(|a * b|, Max(1, |a + b|));
    assert a == b ==> a * b == a && a + b == a;
  }

  lemma JaccardIsAFraction(a: set<string>, b: set<string>)
    ensures 0.0 <= |a * b| as real / Max(1, |a + b|) as real <= 1.0
  {
    assert a + b == (a * b) + (a + b - a * b);
    assert |a * b| <= |a + b|;
  }

  function Similarity(tokens: set<string>, selected: seq<Item>): (r: real)
    ensures 0.0 <= r <= 1.0
  {
    if selected == [] then 0.0
    else
      var before := Similarity(tokens, selected[..|selected|-1]);
      var last := Jaccard(tokens, selected[|selected|-1].tokens);
      if last > before then last else before
  }

  /** What taking this item now is worth. */
  function Worth(s: State, item: Item): real {
    var count := Count(s.selected, item.sourceId);
    BaseScore(item) + (if count == 0 then 0.08 else 0.0)
    - 0.25 * Similarity(item.tokens, s.selected) - 0.06 * count as real
  }

  function WorthKey(s: State, item: Item): Option<Key> {
    if Open(s, item) then Some((Worth(s, item), 0.0)) else None
  }

  function WorthKeys(s: State): (r: seq<Option<Key>>)
    ensures |r| == |s.remaining|
  {
    seq(|s.remaining|, i requires 0 <= i < |s.remaining| => WorthKey(s, s.remaining[i]))
  }

  function Fill(s: State, limit: int): State
    decreases |s.remaining|
  {
    var best := ArgMax(WorthKeys(s));
    if |s.selected| >= limit || best.None? then s else Fill(Take(s, best.value), limit)
  }

  function Reserved(candidates: seq<Item>, limit: int, authority: Option<Authority>, facets: seq<set<string>>): State {
    ReserveFacets(ReserveAuthority(State(Admitted(candidates), []), limit, authority), limit, facets)
  }

  function Final(candidates: seq<Item>, limit: int, authority: Option<Authority>, facets: seq<set<string>>): State {
    Fill(ApplyFloor(Reserved(candidates, limit, authority, facets)), limit)
  }

  function Selected(candidates: seq<Item>, limit: int, authority: Option<Authority>,
                    facets: seq<set<string>>): seq<Item>
  {
    Final(candidates, limit, authority, facets).selected
  }
}
