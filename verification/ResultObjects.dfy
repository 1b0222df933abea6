/** Search results as objects that merging updates in place, and the copies that keep the originals apart. */
module ResultObjects {
  import opened Wrappers
  import opened Clipping
  import opened Merging

  class SearchResult {
    var url: string
    var canonical: string
    var title: string
    var snippet: string
    var domain: string
    var engines: set<string>
    var searchScore: real
    var preliminary: real
    var rank: Option<nat>

    constructor (r: Result)
      ensures View() == r
    {
      url, canonical, title, snippet, domain := r.url, r.canonical, r.title, r.snippet, r.domain;
      engines, searchScore, preliminary, rank := r.engines, r.searchScore, r.preliminary, r.rank;
    }

    function View(): Result
      reads this
    {
      Result(url, canonical, title, snippet, domain, engines, searchScore, preliminary, rank)
    }

    method MergeIn(other: SearchResult)
      modifies this
      ensures View() == Merged(old(View()), old(other.View()))
    {
      engines := engines + other.engines;
      if other.searchScore > searchScore { searchScore := other.searchScore; }
      if |other.snippet| > |snippet| { snippet := other.snippet; }
    }
  }

  ghost function Views(rs: seq<SearchResult>): (vs: seq<Result>)
    reads rs
    ensures |vs| == |rs|
  {
    seq(|rs|, i requires 0 <= i < |rs| reads rs => rs[i].View())
  }

  ghost predicate DistinctObjects(rs: seq<SearchResult>) {
    forall i, j :: 0 <= i < j < |rs| ==> rs[i] != rs[j]
  }

  /** The positions of all ranks below `rank`, and of that rank in the first `g` groups. */
  ghost function UpTo(groups: seq<seq<Result>>, rank: nat, g: nat): (ps: seq<(nat, nat)>)
    requires g <= |groups|
    ensures ArePositions(groups, ps)
  {
    ColumnsHoldPositions(groups, rank);
    ColumnHoldsPositions(groups, rank, g);
    Columns(groups, rank) + Column(groups, rank, g)
  }

  /** The list with a copy of the item, ranked by its place. */
  method AppendCopy(merged: seq<SearchResult>, source: SearchResult) returns (longer: seq<SearchResult>)
    ensures |longer| == |merged| + 1 && longer[..|merged|] == merged && fresh(longer[|merged|])
    ensures Views(longer) == old(Views(merged)) + [old(source.View()).(rank := Some(|merged| + 1))]
    ensures DistinctObjects(merged) ==> DistinctObjects(longer)
  {
    var item := new SearchResult(source.View());
    item.rank := Some(|merged| + 1);
    longer := merged + [item];
  }

  method LongestOf(groups: seq<seq<SearchResult>>, ghost values: seq<seq<Result>>) returns (longest: nat)
    requires |values| == |groups| && forall g :: 0 <= g < |groups| ==> values[g] == Views(groups[g])
    ensures longest == LongestGroup(values)
  {
    longest := 0;
    for g := 0 to |groups|
      invariant longest == LongestGroup(values[..g])
    {
      assert values[..g+1][..g] == values[..g];
      longest := Max(longest, |groups[g]|);
    }
    assert values[..|values|] == values;
  }

  /** Appends a copy of the group's item of this rank, if it has one. */
  method AppendFrom(merged: seq<SearchResult>, group: seq<SearchResult>, ghost values: seq<seq<Result>>, rank: nat,
                    ghost g: nat)
    returns (longer: seq<SearchResult>)
    requires g < |values| && values[g] == Views(group)
    requires DistinctObjects(merged) && Views(merged) == Ranked(values, UpTo(values, rank, g))
    ensures DistinctObjects(longer) && merged <= longer && forall i :: |merged| <= i < |longer| ==> fresh(longer[i])
    ensures Views(longer) == Ranked(values, UpTo(values, rank, g + 1))
  {
    longer := merged;
    if rank < |group| {
      longer := AppendCopy(merged, group[rank]);
    }
  }

  /** The groups as values. */
  ghost predicate Shown(groups: seq<seq<SearchResult>>, values: seq<seq<Result>>)
    reads set g, i | 0 <= g < |groups| && 0 <= i < |groups[g]| :: groups[g][i]
  {
    |values| == |groups| && forall g :: 0 <= g < |groups| ==> values[g] == Views(groups[g])
  }

  /** Appends copies of the items of one rank. */
  method AppendRank(merged: seq<SearchResult>, groups: seq<seq<SearchResult>>, ghost values: seq<seq<Result>>,
                    rank: nat)
    returns (longer: seq<SearchResult>)
    requires Shown(groups, values)
    requires DistinctObjects(merged) && Views(merged) == Ranked(values, UpTo(values, rank, 0))
    ensures DistinctObjects(longer) && merged <= longer && forall i :: |merged| <= i < |longer| ==> fresh(longer[i])
    ensures Views(longer) == Ranked(values, UpTo(values, rank + 1, 0))
  {
    longer := merged;
    for g := 0 to |groups|
      invariant DistinctObjects(longer) && merged <= longer && forall i :: |merged| <= i < |longer| ==> fresh(longer[i])
      invariant Views(longer) == Ranked(values, UpTo(values, rank, g))
    {
      longer := AppendFrom(longer, groups[g], values, rank, g);
    }
  }

  /** Copies of the groups' items, rank by rank; the groups themselves are only read. */
  method InterleaveResults(groups: seq<seq<SearchResult>>, ghost values: seq<seq<Result>>)
    returns (merged: seq<SearchResult>)
    requires Shown(groups, values)
    ensures DistinctObjects(merged) && forall i :: 0 <= i < |merged| ==> fresh(merged[i])
    ensures Views(merged) == Interleaved(values)
  {
    merged := [];
    var longest := LongestOf(groups, values);
    for rank := 0 to longest
      invariant DistinctObjects(merged) && forall i :: 0 <= i < |merged| ==> fresh(merged[i])
      invariant Views(merged) == Ranked(values, UpTo(values, rank, 0))
    {
      merged := AppendRank(merged, groups, values, rank);
    }
  }

  // ---------- Merging in place ----------

  /** Merging into one object changes that object's entry alone. */
  method MergeInto(kept: seq<SearchResult>, ghost i: nat, target: SearchResult, other: SearchResult)
    requires i < |kept| && kept[i] == target && DistinctObjects(kept) && other != target
    modifies target
    ensures Views(kept) == old(Views(kept))[i := Merged(old(target.View()), old(other.View()))]
  {
    target.MergeIn(other);
  }

  /** The dictionary of kept objects finds what searching by key finds. */
  ghost predicate Indexes(byUrl: map<string, SearchResult>, unique: seq<SearchResult>, values: seq<Result>) {
    && |values| == |unique|
    && forall key :: (key in byUrl <==> Find(values, key).Some?)
                     && (key in byUrl ==> byUrl[key] == unique[Find(values, key).value])
  }

  lemma IndexingNew(byUrl: map<string, SearchResult>, unique: seq<SearchResult>, values: seq<Result>, x: SearchResult,
                    v: Result)
    requires Indexes(byUrl, unique, values) && KeyOf(v) !in byUrl
    ensures Indexes(byUrl[KeyOf(v) := x], unique + [x], values + [v])
  {
    forall key ensures Find(values + [v], key) == if key == KeyOf(v) then Some(|values|) else Find(values, key) {
      assert (values + [v])[..|values|] == values;
    }
  }

  lemma IndexingMerged(byUrl: map<string, SearchResult>, unique: seq<SearchResult>, values: seq<Result>, i: nat,
                       v: Result)
    requires Indexes(byUrl, unique, values) && i < |values| && KeyOf(v) == KeyOf(values[i])
    ensures Indexes(byUrl, unique, values[i := v])
  {
    forall key ensures Find(values[i := v], key) == Find(values, key) {
      FindGoesByKeys(values[i := v], values, key);
    }
  }

  /** Merges the result into the kept object of its key. */
  method MergeKnown(unique: seq<SearchResult>, byUrl: map<string, SearchResult>, result: SearchResult,
                    ghost rest: seq<SearchResult>)
    requires DistinctObjects(unique) && result !in unique && forall j :: 0 <= j < |rest| ==> rest[j] !in unique
    requires Indexes(byUrl, unique, Views(unique)) && KeyOf(result.View()) in byUrl
    modifies unique
    ensures Views(rest) == old(Views(rest)) && Views(unique) == Absorbed(old(Views(unique)), old(result.View()))
  {
    ghost var k := Find(Views(unique), KeyOf(result.View())).value;
    assert byUrl[KeyOf(result.View())] == unique[k];
    MergeInto(unique, k, byUrl[KeyOf(result.View())], result);
  }

  /** Merges the result into the kept object of its key, or keeps it. */
  method AbsorbExact(unique: seq<SearchResult>, byUrl: map<string, SearchResult>, result: SearchResult,
                     ghost rest: seq<SearchResult>)
    returns (longer: seq<SearchResult>, index: map<string, SearchResult>)
    requires DistinctObjects(unique) && result !in unique && forall j :: 0 <= j < |rest| ==> rest[j] !in unique
    requires Indexes(byUrl, unique, Views(unique))
    modifies unique
    ensures Views(rest) == old(Views(rest))
    ensures longer == unique || longer == unique + [result]
    ensures Views(longer) == Absorbed(old(Views(unique)), old(result.View())) && Indexes(index, longer, Views(longer))
  {
    ghost var before, value := Views(unique), result.View();
    var key := KeyOf(result.View());
    longer, index := unique, byUrl;
    if key in byUrl {
      ghost var k := Find(before, key).value;
      IndexingMerged(byUrl, unique, before, k, Merged(before[k], value));
      MergeKnown(unique, byUrl, result, rest);
    } else {
      IndexingNew(byUrl, unique, before, result, value);
      longer, index := unique + [result], byUrl[key := result];
      assert Views(longer) == before + [value];
    }
  }

  /** The kept objects are results before position `i`, at the positions `at`. */
  ghost predicate KeptAt(kept: seq<SearchResult>, results: seq<SearchResult>, at: seq<nat>, i: nat) {
    && |at| == |kept| && i <= |results|
    && (forall k :: 0 <= k < |at| ==> at[k] < i && kept[k] == results[at[k]])
    && (forall j, k :: 0 <= j < k < |at| ==> at[j] != at[k])
  }

  lemma KeptAreEarlier(kept: seq<SearchResult>, results: seq<SearchResult>, at: seq<nat>, i: nat)
    requires DistinctObjects(results) && KeptAt(kept, results, at, i)
    ensures DistinctObjects(kept)
    ensures forall k :: 0 <= k < |kept| ==> kept[k] in results
    ensures forall j :: i <= j < |results| ==> results[j] !in kept
    ensures forall j :: 0 <= j < |results[i..]| ==> results[i..][j] !in kept
  {
  }

  lemma KeptNext(kept: seq<SearchResult>, longer: seq<SearchResult>, results: seq<SearchResult>, at: seq<nat>, i: nat)
    requires i < |results| && KeptAt(kept, results, at, i) && (longer == kept || longer == kept + [results[i]])
    ensures KeptAt(longer, results, if longer == kept then at else at + [i], i + 1)
  {
  }

  /** The results from position `i` on still have their values. */
  ghost predicate Untouched(results: seq<SearchResult>, values: seq<Result>, i: nat)
    reads results
  {
    |values| == |results| && i <= |results| && Views(results[i..]) == values[i..]
  }

  lemma NextUntouched(results: seq<SearchResult>, values: seq<Result>, i: nat)
    requires i < |results| && Untouched(results, values, i)
    ensures results[i].View() == values[i] && Untouched(results, values, i + 1)
  {
    assert Views(results[i..])[0] == values[i..][0];
    assert results[i+1..] == results[i..][1..] && values[i+1..] == values[i..][1..];
  }

  /** Before result `i`: the kept objects are earlier ones, and the rest has its values. */
  ghost predicate Progress(results: seq<SearchResult>, values: seq<Result>, kept: seq<SearchResult>, at: seq<nat>,
                           i: nat)
    reads results
  {
    KeptAt(kept, results, at, i) && Untouched(results, values, i)
  }

  method StepExact(results: seq<SearchResult>, ghost values: seq<Result>, unique: seq<SearchResult>, ghost at: seq<nat>,
                   byUrl: map<string, SearchResult>, i: nat)
    returns (longer: seq<SearchResult>, ghost at': seq<nat>, index: map<string, SearchResult>)
    requires DistinctObjects(results) && i < |results| && Progress(results, values, unique, at, i)
    requires Views(unique) == Deduplicated(values[..i]) && Indexes(byUrl, unique, Views(unique))
    modifies results
    ensures Progress(results, values, longer, at', i + 1)
    ensures Views(longer) == Deduplicated(values[..i+1]) && Indexes(index, longer, Views(longer))
  {
    assert values[..i+1][..i] == values[..i];
    KeptAreEarlier(unique, results, at, i);
    NextUntouched(results, values, i);
    KeptNext(unique, unique, results, at, i);
    KeptAreEarlier(unique, results, at, i + 1);
    longer, index := AbsorbExact(unique, byUrl, results[i], results[i+1..]);
    at' := if longer == unique then at else at + [i];
    KeptNext(unique, longer, results, at, i);
  }

  /** Keeps the first object of each key and merges the others into it. */
  method DeduplicateExact(results: seq<SearchResult>) returns (unique: seq<SearchResult>)
    requires DistinctObjects(results)
    modifies results
    ensures DistinctObjects(unique) && forall i :: 0 <= i < |unique| ==> unique[i] in results
    ensures Views(unique) == Deduplicated(old(Views(results)))
  {
    ghost var values := Views(results);
    unique := [];
    ghost var at: seq<nat> := [];
    var byUrl: map<string, SearchResult> := map[];
    for i := 0 to |results|
      invariant Progress(results, values, unique, at, i)
      invariant Views(unique) == Deduplicated(values[..i]) && Indexes(byUrl, unique, Views(unique))
    {
      unique, at, byUrl := StepExact(results, values, unique, at, byUrl, i);
    }
    assert values[..|values|] == values;
    KeptAreEarlier(unique, results, at, |results|);
  }

  // ---------- Merging lookalikes in place ----------

  type Similar = (Result, Result) -> bool

  method AbsorbLookalike(kept: seq<SearchResult>, candidate: SearchResult, similar: Similar,
                         ghost rest: seq<SearchResult>)
    returns (longer: seq<SearchResult>)
    requires DistinctObjects(kept) && candidate !in kept && forall j :: 0 <= j < |rest| ==> rest[j] !in kept
    modifies kept
    ensures Views(rest) == old(Views(rest))
    ensures longer == kept || longer == kept + [candidate]
    ensures Views(longer) == AbsorbedSimilar(old(Views(kept)), old(candidate.View()), similar)
  {
    ghost var before, value := Views(kept), candidate.View();
    var i := 0;
    while i < |kept| && candidate.canonical != kept[i].canonical && !similar(candidate.View(), kept[i].View())
      invariant 0 <= i <= |kept| && FindSimilar(before[..i], value, similar).None?
      invariant Views(kept) == before && candidate.View() == value
    {
      assert before[..i+1][..i] == before[..i];
      i := i + 1;
    }
    longer := kept;
    if i < |kept| {
      FirstSimilar(before, value, similar, i);
      MergeInto(kept, i, kept[i], candidate);
    } else {
      assert before[..i] == before;
      longer := kept + [candidate];
      assert Views(longer) == before + [value];
    }
  }

  lemma {:induction false} FirstSimilar(kept: seq<Result>, c: Result, similar: Similar, i: nat)
    requires i < |kept| && FindSimilar(kept[..i], c, similar).None?
    requires kept[i].canonical == c.canonical || similar(c, kept[i])
    ensures FindSimilar(kept, c, similar) == Some(i)
  {
    var n := |kept| - 1;
    if i < n {
      assert kept[..n][..i] == kept[..i];
      FirstSimilar(kept[..n], c, similar, i);
    }
  }

  method StepLookalike(results: seq<SearchResult>, ghost values: seq<Result>, kept: seq<SearchResult>,
                       ghost at: seq<nat>,
                       i: nat, similar: Similar)
    returns (longer: seq<SearchResult>, ghost at': seq<nat>)
    requires DistinctObjects(results) && i < |results| && Progress(results, values, kept, at, i)
    requires Views(kept) == WithoutLookalikes(values[..i], similar)
    modifies results
    ensures Progress(results, values, longer, at', i + 1)
    ensures Views(longer) == WithoutLookalikes(values[..i+1], similar)
  {
    assert values[..i+1][..i] == values[..i];
    KeptAreEarlier(kept, results, at, i);
    NextUntouched(results, values, i);
    KeptNext(kept, kept, results, at, i);
    KeptAreEarlier(kept, results, at, i + 1);
    longer := AbsorbLookalike(kept, results[i], similar, results[i+1..]);
    at' := if longer == kept then at else at + [i];
    KeptNext(kept, longer, results, at, i);
  }

  method DeduplicateLookalikes(results: seq<SearchResult>, similar: Similar) returns (kept: seq<SearchResult>)
    requires DistinctObjects(results)
    modifies results
    ensures DistinctObjects(kept) && forall i :: 0 <= i < |kept| ==> kept[i] in results
    ensures Views(kept) == WithoutLookalikes(old(Views(results)), similar)
  {
    ghost var values := Views(results);
    kept := [];
    ghost var at: seq<nat> := [];
    for i := 0 to |results|
      invariant Progress(results, values, kept, at, i) && Views(kept) == WithoutLookalikes(values[..i], similar)
    {
      kept, at := StepLookalike(results, values, kept, at, i, similar);
    }
    assert values[..|values|] == values;
    KeptAreEarlier(kept, results, at, |results|);
  }

  // ---------- Preparing copies ----------

  /** Normalised, scored copies of the admitted results. */
  method CopyAdmitted(results: seq<SearchResult>, rules: Rules) returns (items: seq<SearchResult>)
    ensures DistinctObjects(items) && forall i :: 0 <= i < |items| ==> fresh(items[i])
    ensures Views(items) == Entries(Views(results), rules)
  {
    items := [];
    ghost var values := Views(results);
    for i := 0 to |results|
      invariant DistinctObjects(items) && forall j :: 0 <= j < |items| ==> fresh(items[j])
      invariant Views(items) == Entries(values[..i], rules)
    {
      assert values[..i+1][..i] == values[..i] && values[i] == results[i].View();
      items := CopyEntry(items, results[i], i + 1, rules);
    }
    assert values[..|values|] == values;
  }

  method CopyEntry(items: seq<SearchResult>, result: SearchResult, position: nat, rules: Rules)
    returns (longer: seq<SearchResult>)
    requires DistinctObjects(items)
    ensures DistinctObjects(longer) && items <= longer && forall i :: |items| <= i < |longer| ==> fresh(longer[i])
    ensures Views(longer) == old(Views(items)) + Entry(result.View(), position, rules)
  {
    longer := items;
    var admitted := rules.admit(result.View());
    if admitted.Some? {
      var item := new SearchResult(admitted.value);
      if item.rank.None? { item.rank := Some(position); }
      var score := rules.score(item.View());
      item.preliminary := score;
      longer := items + [item];
    }
  }

  method Rescore(items: seq<SearchResult>, rules: Rules)
    requires DistinctObjects(items)
    modifies items
    ensures Views(items) == ScoredAll(old(Views(items)), rules)
  {
    ghost var values := Views(items);
    for i := 0 to |items|
      invariant Untouched(items, values, i)
      invariant forall j :: 0 <= j < i ==> items[j].View() == Scored(values[j], rules)
    {
      var score := rules.score(items[i].View());
      items[i].preliminary := score;
    }
  }

  lemma {:induction false} PlaceAt(sorted: seq<Result>, x: Result, k: nat)
    requires k <= |sorted| && (k > 0 ==> sorted[k-1].preliminary >= x.preliminary)
    requires forall j :: k <= j < |sorted| ==> sorted[j].preliminary < x.preliminary
    ensures Place(sorted, x) == sorted[..k] + [x] + sorted[k..]
  {
    if k < |sorted| {
      var n := |sorted| - 1;
      PlaceAt(sorted[..n], x, k);
      assert sorted[..n][..k] == sorted[..k] && sorted[..n][k..] + [sorted[n]] == sorted[k..];
    }
  }

  /** The place of a new item: behind the last one that scores at least as high. */
  method PlaceFor(sorted: seq<SearchResult>, x: SearchResult) returns (k: nat)
    ensures k <= |sorted| && Place(Views(sorted), x.View()) == Views(sorted)[..k] + [x.View()] + Views(sorted)[k..]
  {
    k := |sorted|;
    while k > 0 && sorted[k-1].preliminary < x.preliminary
      invariant k <= |sorted| && forall j :: k <= j < |sorted| ==> sorted[j].preliminary < x.preliminary
    {
      k := k - 1;
    }
    PlaceAt(Views(sorted), x.View(), k);
  }

  ghost predicate SameObjects(xs: seq<SearchResult>, ys: seq<SearchResult>) {
    |xs| == |ys| && DistinctObjects(xs) && forall i :: 0 <= i < |xs| ==> xs[i] in ys
  }

  lemma InsertingKeepsObjects(sorted: seq<SearchResult>, items: seq<SearchResult>, x: SearchResult, k: nat)
    requires SameObjects(sorted, items) && x !in items && k <= |sorted|
    ensures SameObjects(sorted[..k] + [x] + sorted[k..], items + [x])
  {
    var longer := sorted[..k] + [x] + sorted[k..];
    forall i | 0 <= i < |longer| ensures longer[i] in items + [x] {
      if i < k { assert sorted[i] in items; } else if i > k { assert longer[i] == sorted[i - 1]; }
    }
  }

  lemma ViewsOfInserted(sorted: seq<SearchResult>, x: SearchResult, k: nat)
    requires k <= |sorted|
    ensures Views(sorted[..k] + [x] + sorted[k..]) == Views(sorted)[..k] + [x.View()] + Views(sorted)[k..]
  {
    var longer, views := sorted[..k] + [x] + sorted[k..], Views(sorted)[..k] + [x.View()] + Views(sorted)[k..];
    forall i | 0 <= i < |longer| ensures Views(longer)[i] == views[i] {
      if i > k { assert longer[i] == sorted[i - 1]; }
    }
  }

  method SortByScore(items: seq<SearchResult>) returns (sorted: seq<SearchResult>)
    requires DistinctObjects(items)
    ensures SameObjects(sorted, items)
    ensures Views(sorted) == Descending(Views(items))
  {
    ghost var values := Views(items);
    sorted := [];
    for i := 0 to |items|
      invariant SameObjects(sorted, items[..i])
      invariant Views(sorted) == Descending(values[..i])
    {
      assert values[..i+1][..i] == values[..i] && values[i] == items[i].View();
      assert items[..i+1] == items[..i] + [items[i]];
      var k := PlaceFor(sorted, items[i]);
      InsertingKeepsObjects(sorted, items[..i], items[i], k);
      ViewsOfInserted(sorted, items[i], k);
      sorted := sorted[..k] + [items[i]] + sorted[k..];
    }
    assert items[..|items|] == items && values[..|items|] == values;
  }

  method MergeExact(items: seq<SearchResult>, rules: Rules) returns (merged: seq<SearchResult>)
    requires DistinctObjects(items)
    modifies items
    ensures DistinctObjects(merged) && forall i :: 0 <= i < |merged| ==> merged[i] in items
    ensures Views(merged) == ScoredAll(Deduplicated(old(Views(items))), rules)
  {
    merged := DeduplicateExact(items);
    Rescore(merged, rules);
  }

  method MergeAndSort(items: seq<SearchResult>, rules: Rules) returns (merged: seq<SearchResult>)
    requires DistinctObjects(items)
    modifies items
    ensures DistinctObjects(merged) && forall i :: 0 <= i < |merged| ==> merged[i] in items
    ensures Views(merged) == Descending(ScoredAll(WithoutLookalikes(old(Views(items)), rules.similar), rules))
  {
    var kept := DeduplicateLookalikes(items, rules.similar);
    Rescore(kept, rules);
    merged := SortByScore(kept);
    forall i | 0 <= i < |merged| ensures merged[i] in items {
      assert merged[i] in kept;
    }
  }

  /** Works on copies: no result that existed before is changed. */
  method PrepareResults(results: seq<SearchResult>, rules: Rules, byScore: bool) returns (prepared: seq<SearchResult>)
    ensures DistinctObjects(prepared) && forall i :: 0 <= i < |prepared| ==> fresh(prepared[i])
    ensures Views(prepared) == if byScore then PreparedByScore(Views(results), rules)
            else PreparedExact(Views(results), rules)
  {
    ghost var values := Views(results);
    var items := CopyAdmitted(results, rules);
    if byScore {
      prepared := MergeAndSort(items, rules);
    } else {
      prepared := MergeExact(items, rules);
    }
    forall i | 0 <= i < |prepared| ensures fresh(prepared[i]) {
      assert prepared[i] in items;
    }
    assert Views(results) == values;
  }
}
