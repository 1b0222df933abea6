/** Merging search results: interleaving groups by rank, and merging results of one page.

    Engine lists are sets, as the code sorts and deduplicates them whenever it merges. */
module Merging {
  import opened Wrappers
  import opened Clipping
  import opened Payload

  datatype Result = Result(url: string, canonical: string, title: string, snippet: string, domain: string,
                           engines: set<string>, searchScore: real, preliminary: real, rank: Option<nat>)

  // ---------- Interleaving ----------

  predicate IsPosition(groups: seq<seq<Result>>, p: (nat, nat)) {
    p.0 < |groups| && p.1 < |groups[p.0]|
  }

  /** The groups with an item of rank `r`, among the first `k`: pairs of group and rank. */
  function Column(groups: seq<seq<Result>>, r: nat, k: nat): seq<(nat, nat)>
    requires k <= |groups|
  {
    if k == 0 then [] else Column(groups, r, k - 1) + if r < |groups[k-1]| then [(k - 1, r)] else []
  }

  function Columns(groups: seq<seq<Result>>, n: nat): seq<(nat, nat)> {
    if n == 0 then [] else Columns(groups, n - 1) + Column(groups, n - 1, |groups|)
  }

  ghost predicate ArePositions(groups: seq<seq<Result>>, ps: seq<(nat, nat)>) {
    forall i :: 0 <= i < |ps| ==> IsPosition(groups, ps[i])
  }

  lemma {:induction false} ColumnHoldsPositions(groups: seq<seq<Result>>, r: nat, k: nat)
    requires k <= |groups|
    ensures ArePositions(groups, Column(groups, r, k))
  {
    if k > 0 { ColumnHoldsPositions(groups, r, k - 1); }
  }

  lemma {:induction false} ColumnsHoldPositions(groups: seq<seq<Result>>, n: nat)
    ensures ArePositions(groups, Columns(groups, n))
  {
    if n > 0 {
      ColumnsHoldPositions(groups, n - 1);
      ColumnHoldsPositions(groups, n - 1, |groups|);
    }
  }

  predicate Before(p: (nat, nat), q: (nat, nat)) {
    p.1 < q.1 || (p.1 == q.1 && p.0 < q.0)
  }

  lemma {:induction false} ColumnIsSorted(groups: seq<seq<Result>>, r: nat, k: nat, i: nat, j: nat)
    requires k <= |groups| && i <= j < |Column(groups, r, k)|
    ensures var ps := Column(groups, r, k); ps[j].1 == r && ps[j].0 < k && (i < j ==> Before(ps[i], ps[j]))
  {
    var before := Column(groups, r, k - 1);
    if j < |before| {
      ColumnIsSorted(groups, r, k - 1, i, j);
    } else if i < j {
      ColumnIsSorted(groups, r, k - 1, i, i);
    }
  }

  lemma {:induction false} ColumnsAreBelow(groups: seq<seq<Result>>, n: nat, i: nat)
    requires i < |Columns(groups, n)|
    ensures Columns(groups, n)[i].1 < n
  {
    var k := |Columns(groups, n - 1)|;
    if i < k {
      ColumnsAreBelow(groups, n - 1, i);
    } else {
      ColumnIsSorted(groups, n - 1, |groups|, i - k, i - k);
    }
  }

  /** Position `i` in an earlier column and position `j` in the last one. */
  lemma AcrossColumns(groups: seq<seq<Result>>, n: nat, i: nat, j: nat)
    requires n > 0 && i < |Columns(groups, n - 1)| && j < |Column(groups, n - 1, |groups|)|
    ensures Before(Columns(groups, n - 1)[i], Column(groups, n - 1, |groups|)[j])
  {
    ColumnsAreBelow(groups, n - 1, i);
    ColumnIsSorted(groups, n - 1, |groups|, j, j);
  }

  lemma {:induction false} ColumnsAreSorted(groups: seq<seq<Result>>, n: nat, i: nat, j: nat)
    requires i < j < |Columns(groups, n)|
    ensures Before(Columns(groups, n)[i], Columns(groups, n)[j])
  {
    var k := |Columns(groups, n - 1)|;
    if j < k {
      ColumnsAreSorted(groups, n - 1, i, j);
    } else if i < k {
      AcrossColumns(groups, n, i, j - k);
    } else {
      ColumnIsSorted(groups, n - 1, |groups|, i - k, j - k);
    }
  }

  /** Every position is in its column. */
  lemma {:induction false} ColumnHoldsEveryGroup(groups: seq<seq<Result>>, r: nat, k: nat, g: nat) returns (i: nat)
    requires g < k <= |groups| && r < |groups[g]|
    ensures i < |Column(groups, r, k)| && Column(groups, r, k)[i] == (g, r)
  {
    if g < k - 1 {
      i := ColumnHoldsEveryGroup(groups, r, k - 1, g);
    } else {
      i := |Column(groups, r, k - 1)|;
    }
  }

  lemma {:induction false} ColumnsHoldEveryPosition(groups: seq<seq<Result>>, n: nat, p: (nat, nat)) returns (i: nat)
    requires IsPosition(groups, p) && p.1 < n
    ensures i < |Columns(groups, n)| && Columns(groups, n)[i] == p
  {
    if p.1 < n - 1 {
      i := ColumnsHoldEveryPosition(groups, n - 1, p);
    } else {
      i := ColumnHoldsEveryGroup(groups, p.1, |groups|, p.0);
      i := i + |Columns(groups, n - 1)|;
    }
  }

  function LongestGroup(groups: seq<seq<Result>>): (n: nat)
    ensures forall g :: 0 <= g < |groups| ==> |groups[g]| <= n
  {
    if groups == [] then 0 else Max(LongestGroup(groups[..|groups|-1]), |groups[|groups|-1]|)
  }

  /** Where the items of the interleaved list come from. */
  function Origins(groups: seq<seq<Result>>): seq<(nat, nat)> {
    Columns(groups, LongestGroup(groups))
  }

  function At(groups: seq<seq<Result>>, p: (nat, nat)): Result
    requires IsPosition(groups, p)
  {
    groups[p.0][p.1]
  }

  function Ranked(groups: seq<seq<Result>>, ps: seq<(nat, nat)>): (r: seq<Result>)
    requires ArePositions(groups, ps)
    ensures |r| == |ps|
  {
    seq(|ps|, i requires 0 <= i < |ps| => At(groups, ps[i]).(rank := Some(i + 1)))
  }

  function Interleaved(groups: seq<seq<Result>>): seq<Result> {
    ColumnsHoldPositions(groups, LongestGroup(groups));
    Ranked(groups, Origins(groups))
  }

  /** Interleaving is a permutation with the ranks 1 to n, in which every item of rank r of any group
      comes before every item of rank r + 1, and groups keep their order within a rank. */
  lemma InterleavingIsARankedPermutation(groups: seq<seq<Result>>)
    ensures var ps := Origins(groups);
            && |Interleaved(groups)| == |ps| && ArePositions(groups, ps)
            && (forall p :: IsPosition(groups, p) ==> p in ps)
            && (forall i, j :: 0 <= i < |ps| && 0 <= j < |ps| ==>
                  (i < j <==> Before(ps[i], ps[j])) && (ps[i] == ps[j] ==> i == j))
            && (forall i :: 0 <= i < |ps| ==> Interleaved(groups)[i] == At(groups, ps[i]).(rank := Some(i + 1)))
  {
    var ps, n := Origins(groups), LongestGroup(groups);
    ColumnsHoldPositions(groups, n);
    forall i, j | 0 <= i < |ps| && 0 <= j < |ps| && i != j ensures (i < j <==> Before(ps[i], ps[j])) && ps[i] != ps[j] {
      if i < j { ColumnsAreSorted(groups, n, i, j); } else { ColumnsAreSorted(groups, n, j, i); }
    }
    forall p | IsPosition(groups, p) ensures p in ps {
      var i := ColumnsHoldEveryPosition(groups, n, p);
      assert ps[i] == p;
    }
  }

  // ---------- Merging results of one page ----------

  function KeyOf(r: Result): string {
    if r.canonical != "" then r.canonical else r.url
  }

  function Merged(kept: Result, other: Result): Result {
    kept.(engines := kept.engines + other.engines,
          searchScore := if other.searchScore > kept.searchScore then other.searchScore else kept.searchScore,
          snippet := if |other.snippet| > |kept.snippet| then other.snippet else kept.snippet)
  }

  function KeysOf(rs: seq<Result>): (ks: seq<string>)
    ensures |ks| == |rs| && forall i :: 0 <= i < |rs| ==> ks[i] == KeyOf(rs[i])
  {
    seq(|rs|, i requires 0 <= i < |rs| => KeyOf(rs[i]))
  }

  /** Where this key is kept, if it is. */
  function Find(kept: seq<Result>, key: string): (i: Option<nat>)
    ensures i.None? <==> key !in KeysOf(kept)
    ensures i.Some? ==> i.value < |kept| && KeyOf(kept[i.value]) == key
                        && forall j :: 0 <= j < i.value ==> KeyOf(kept[j]) != key
  {
    if kept == [] then None
    else
      assert KeysOf(kept) == KeysOf(kept[..|kept|-1]) + [KeyOf(kept[|kept|-1])];
      match Find(kept[..|kept|-1], key)
      case Some(i) => Some(i)
      case None => if KeyOf(kept[|kept|-1]) == key then Some(|kept| - 1) else None
  }

  function Absorbed(kept: seq<Result>, r: Result): seq<Result> {
    match Find(kept, KeyOf(r))
    case None => kept + [r]
    case Some(i) => kept[i := Merged(kept[i], r)]
  }

  function Deduplicated(rs: seq<Result>): seq<Result> {
    if rs == [] then [] else Absorbed(Deduplicated(rs[..|rs|-1]), rs[|rs|-1])
  }

  lemma {:induction false} FindGoesByKeys(xs: seq<Result>, ys: seq<Result>, key: string)
    requires KeysOf(xs) == KeysOf(ys)
    ensures Find(xs, key) == Find(ys, key)
  {
    if xs != [] {
      var n := |xs| - 1;
      assert KeysOf(xs[..n]) == KeysOf(xs)[..n] && KeysOf(ys[..n]) == KeysOf(ys)[..n];
      FindGoesByKeys(xs[..n], ys[..n], key);
      assert KeysOf(xs)[n] == KeyOf(xs[n]) && KeysOf(ys)[n] == KeyOf(ys[n]);
    }
  }

  // ---------- What each survivor is ----------

  /** The results of one key, in order. */
  function OfKey(rs: seq<Result>, key: string): (r: seq<Result>)
    ensures forall x :: x in r <==> x in rs && KeyOf(x) == key
  {
    if rs == [] then [] else OfKey(rs[..|rs|-1], key) + if KeyOf(rs[|rs|-1]) == key then [rs[|rs|-1]] else []
  }

  function MergedAll(rs: seq<Result>): (r: Result)
    requires rs != []
  {
    if |rs| == 1 then rs[0] else Merged(MergedAll(rs[..|rs|-1]), rs[|rs|-1])
  }

  /** Reference: a survivor has the identity of the first result of its key, the union of the engines,
      the greatest score, and the first of the longest snippets. */
  ghost predicate Combines(r: Result, rs: seq<Result>) {
    && rs != []
    && r == rs[0].(engines := r.engines, searchScore := r.searchScore, snippet := r.snippet)
    && (forall e :: e in r.engines <==> exists x :: x in rs && e in x.engines)
    && (forall x :: x in rs ==> x.searchScore <= r.searchScore)
    && (exists x :: x in rs && x.searchScore == r.searchScore)
    && (exists i :: 0 <= i < |rs| && r.snippet == rs[i].snippet
                    && (forall j :: 0 <= j < |rs| ==> |rs[j].snippet| <= |r.snippet|)
                    && (forall j :: 0 <= j < i ==> |rs[j].snippet| < |r.snippet|))
  }

  lemma CombiningOneMore(r: Result, rs: seq<Result>, x: Result, all: seq<Result>)
    requires Combines(r, rs) && all == rs + [x]
    ensures Combines(Merged(r, x), all)
  {
    var m := Merged(r, x);
    forall e ensures e in m.engines <==> exists y :: y in all && e in y.engines {
      if e in r.engines {
        var y :| y in rs && e in y.engines;
        assert y in all;
      }
      if e in x.engines { assert x in all; }
    }
    var best :| best in rs && best.searchScore == r.searchScore;
    assert best in all && x in all;
    var i :| 0 <= i < |rs| && r.snippet == rs[i].snippet && forall j :: 0 <= j < i ==> |rs[j].snippet| < |r.snippet|;
    assert all[i] == rs[i] && all[|rs|] == x;
  }

  lemma {:induction false} MergedAllCombines(rs: seq<Result>)
    requires rs != []
    ensures Combines(MergedAll(rs), rs)
  {
    if |rs| == 1 {
      assert rs == [rs[0]];
    } else {
      var n := |rs| - 1;
      MergedAllCombines(rs[..n]);
      CombiningOneMore(MergedAll(rs[..n]), rs[..n], rs[n], rs);
    }
  }

  /** `x` is the merger of all results of its key. */
  ghost predicate IsMerger(x: Result, rs: seq<Result>) {
    OfKey(rs, KeyOf(x)) != [] && x == MergedAll(OfKey(rs, KeyOf(x)))
  }

  lemma SnocOfKey(rs: seq<Result>, y: Result, key: string)
    ensures OfKey(rs + [y], key) == if KeyOf(y) == key then OfKey(rs, key) + [y] else OfKey(rs, key)
  {
    assert (rs + [y])[..|rs|] == rs;
    assert OfKey(rs, key) + [] == OfKey(rs, key);
  }

  lemma OtherKeysStay(x: Result, rs: seq<Result>, y: Result)
    requires IsMerger(x, rs) && KeyOf(y) != KeyOf(x)
    ensures IsMerger(x, rs + [y])
  {
    SnocOfKey(rs, y, KeyOf(x));
  }

  lemma SameKeyMerges(x: Result, rs: seq<Result>, y: Result)
    requires IsMerger(x, rs) && KeyOf(y) == KeyOf(x)
    ensures IsMerger(Merged(x, y), rs + [y])
  {
    SnocOfKey(rs, y, KeyOf(x));
    var same := OfKey(rs, KeyOf(x));
    assert (same + [y])[..|same|] == same;
  }

  lemma {:induction false} NoneOfKey(rs: seq<Result>, key: string)
    requires forall i :: 0 <= i < |rs| ==> KeyOf(rs[i]) != key
    ensures OfKey(rs, key) == []
  {
    if rs != [] { NoneOfKey(rs[..|rs|-1], key); }
  }

  lemma NewKeyIsItself(rs: seq<Result>, y: Result)
    requires KeyOf(y) !in KeysOf(rs)
    ensures IsMerger(y, rs + [y])
  {
    SnocOfKey(rs, y, KeyOf(y));
    forall i | 0 <= i < |rs| ensures KeyOf(rs[i]) != KeyOf(y) {
      assert KeysOf(rs)[i] == KeyOf(rs[i]);
    }
    NoneOfKey(rs, KeyOf(y));
  }

  ghost predicate Survivors(d: seq<Result>, rs: seq<Result>) {
    KeysOf(d) == FirstUse(KeysOf(rs)) && forall i :: 0 <= i < |d| ==> IsMerger(d[i], rs)
  }

  lemma KeysAfterNew(d: seq<Result>, rs: seq<Result>, y: Result)
    requires KeysOf(d) == FirstUse(KeysOf(rs)) && KeyOf(y) !in KeysOf(d)
    ensures KeysOf(d + [y]) == FirstUse(KeysOf(rs + [y])) && KeyOf(y) !in KeysOf(rs)
  {
    assert KeysOf(rs + [y]) == KeysOf(rs) + [KeyOf(y)] && KeysOf(d + [y]) == KeysOf(d) + [KeyOf(y)];
  }

  lemma AbsorbingNew(d: seq<Result>, rs: seq<Result>, y: Result)
    requires Survivors(d, rs) && KeyOf(y) !in KeysOf(d)
    ensures Survivors(d + [y], rs + [y])
  {
    KeysAfterNew(d, rs, y);
    NewKeyIsItself(rs, y);
    forall i | 0 <= i < |d| ensures IsMerger(d[i], rs + [y]) {
      assert KeysOf(d)[i] == KeyOf(d[i]);
      OtherKeysStay(d[i], rs, y);
    }
  }

  lemma SurvivorKeysDiffer(d: seq<Result>, rs: seq<Result>, i: nat, j: nat)
    requires KeysOf(d) == FirstUse(KeysOf(rs)) && i < |d| && j < |d| && i != j
    ensures KeyOf(d[i]) != KeyOf(d[j])
  {
    if KeysOf(d)[i] == KeysOf(d)[j] { FirstUseRepeatsNothing(KeysOf(rs), i, j); }
  }

  lemma OthersStay(d: seq<Result>, rs: seq<Result>, y: Result, k: nat, i: nat)
    requires Survivors(d, rs) && k < |d| && KeyOf(d[k]) == KeyOf(y) && i < |d| && i != k
    ensures IsMerger(d[i], rs + [y])
  {
    SurvivorKeysDiffer(d, rs, i, k);
    OtherKeysStay(d[i], rs, y);
  }

  lemma KeysAfterKnown(d: seq<Result>, rs: seq<Result>, y: Result, k: nat)
    requires KeysOf(d) == FirstUse(KeysOf(rs)) && k < |d| && KeyOf(d[k]) == KeyOf(y)
    ensures KeysOf(d[k := Merged(d[k], y)]) == FirstUse(KeysOf(rs + [y]))
  {
    assert KeysOf(rs + [y]) == KeysOf(rs) + [KeyOf(y)];
    assert KeysOf(d)[k] == KeyOf(y);
  }

  lemma AbsorbingKnown(d: seq<Result>, rs: seq<Result>, y: Result, k: nat)
    requires Survivors(d, rs) && k < |d| && KeyOf(d[k]) == KeyOf(y)
    ensures Survivors(d[k := Merged(d[k], y)], rs + [y])
  {
    KeysAfterKnown(d, rs, y, k);
    SameKeyMerges(d[k], rs, y);
    forall i | 0 <= i < |d| && i != k ensures IsMerger(d[i], rs + [y]) {
      OthersStay(d, rs, y, k, i);
    }
  }

  /** The survivors have the keys of the results in order of first use, and each is the merger of all
      results of its key. */
  lemma {:induction false} SurvivorsMergeTheirKeys(rs: seq<Result>)
    ensures Survivors(Deduplicated(rs), rs)
  {
    if rs != [] {
      var before, y := rs[..|rs|-1], rs[|rs|-1];
      SurvivorsMergeTheirKeys(before);
      assert rs == before + [y];
      match Find(Deduplicated(before), KeyOf(y))
      case None => AbsorbingNew(Deduplicated(before), before, y);
      case Some(k) => AbsorbingKnown(Deduplicated(before), before, y, k);
    }
  }

  /** Exact deduplication: distinct keys in order of first use; each survivor combines all results of its key. */
  lemma DeduplicationConserves(rs: seq<Result>)
    ensures var d := Deduplicated(rs);
            && KeysOf(d) == FirstUse(KeysOf(rs))
            && (forall i, j :: 0 <= i < j < |d| ==> KeyOf(d[i]) != KeyOf(d[j]))
            && (forall i :: 0 <= i < |d| ==> Combines(d[i], OfKey(rs, KeyOf(d[i]))))
  {
    var d := Deduplicated(rs);
    SurvivorsMergeTheirKeys(rs);
    forall i, j | 0 <= i < j < |d| ensures KeyOf(d[i]) != KeyOf(d[j]) {
      if KeyOf(d[i]) == KeyOf(d[j]) {
        assert KeysOf(d)[i] == KeysOf(d)[j];
        FirstUseRepeatsNothing(KeysOf(rs), i, j);
      }
    }
    forall i | 0 <= i < |d| ensures Combines(d[i], OfKey(rs, KeyOf(d[i]))) {
      MergedAllCombines(OfKey(rs, KeyOf(d[i])));
    }
  }

  lemma {:induction false} NotFound(kept: seq<Result>, key: string)
    requires forall i :: 0 <= i < |kept| ==> KeyOf(kept[i]) != key
    ensures Find(kept, key).None?
  {
    if kept != [] { NotFound(kept[..|kept|-1], key); }
  }

  /** Results of distinct keys are left as they are. */
  lemma {:induction false} DistinctKeysAreKept(rs: seq<Result>)
    requires forall i, j :: 0 <= i < j < |rs| ==> KeyOf(rs[i]) != KeyOf(rs[j])
    ensures Deduplicated(rs) == rs
  {
    if rs != [] {
      var n := |rs| - 1;
      DistinctKeysAreKept(rs[..n]);
      NotFound(rs[..n], KeyOf(rs[n]));
      assert rs[..n] + [rs[n]] == rs;
    }
  }

  lemma {:induction false} DeduplicationIsIdempotent(rs: seq<Result>)
    ensures Deduplicated(Deduplicated(rs)) == Deduplicated(rs)
  {
    DeduplicationConserves(rs);
    DistinctKeysAreKept(Deduplicated(rs));
  }

  // ---------- Merging results that look alike ----------

  /** The first kept result of the same canonical URL, or one that looks like the candidate. */
  function FindSimilar(kept: seq<Result>, c: Result, similar: (Result, Result) -> bool): (i: Option<nat>)
    ensures i.None? ==> forall j :: 0 <= j < |kept| ==> kept[j].canonical != c.canonical && !similar(c, kept[j])
    ensures i.Some? ==> i.value < |kept| && (kept[i.value].canonical == c.canonical || similar(c, kept[i.value]))
                        && forall j :: 0 <= j < i.value ==> kept[j].canonical != c.canonical && !similar(c, kept[j])
  {
    if kept == [] then None
    else
      var n := |kept| - 1;
      match FindSimilar(kept[..n], c, similar)
      case Some(i) => Some(i)
      case None => if kept[n].canonical == c.canonical || similar(c, kept[n]) then Some(n) else None
  }

  function AbsorbedSimilar(kept: seq<Result>, c: Result, similar: (Result, Result) -> bool): seq<Result> {
    match FindSimilar(kept, c, similar)
    case None => kept + [c]
    case Some(i) => kept[i := Merged(kept[i], c)]
  }

  function WithoutLookalikes(rs: seq<Result>, similar: (Result, Result) -> bool): seq<Result> {
    if rs == [] then [] else AbsorbedSimilar(WithoutLookalikes(rs[..|rs|-1], similar), rs[|rs|-1], similar)
  }

  ghost predicate HasEngine(rs: seq<Result>, e: string) {
    exists i :: 0 <= i < |rs| && e in rs[i].engines
  }

  lemma AbsorbingKeepsEngines(kept: seq<Result>, c: Result, similar: (Result, Result) -> bool, e: string)
    ensures HasEngine(AbsorbedSimilar(kept, c, similar), e) <==> HasEngine(kept, e) || e in c.engines
  {
    var after := AbsorbedSimilar(kept, c, similar);
    match FindSimilar(kept, c, similar)
    case None =>
      assert after[|kept|] == c && forall i :: 0 <= i < |kept| ==> after[i] == kept[i];
    case Some(k) =>
      assert after[k].engines == kept[k].engines + c.engines;
      assert forall i :: 0 <= i < |kept| && i != k ==> after[i] == kept[i];
  }

  lemma EnginesOfSnoc(rs: seq<Result>, c: Result, e: string)
    ensures HasEngine(rs + [c], e) <==> HasEngine(rs, e) || e in c.engines
  {
    var all := rs + [c];
    if HasEngine(rs, e) {
      var i :| 0 <= i < |rs| && e in rs[i].engines;
      assert all[i] == rs[i];
    }
    if e in c.engines { assert all[|rs|] == c; }
  }

  lemma {:induction false} EnginesAreConserved(rs: seq<Result>, similar: (Result, Result) -> bool, e: string)
    ensures HasEngine(WithoutLookalikes(rs, similar), e) <==> HasEngine(rs, e)
  {
    if rs != [] {
      var before, c := rs[..|rs|-1], rs[|rs|-1];
      var kept := WithoutLookalikes(before, similar);
      assert before + [c] == rs && WithoutLookalikes(rs, similar) == AbsorbedSimilar(kept, c, similar);
      EnginesAreConserved(before, similar, e);
      AbsorbingKeepsEngines(kept, c, similar, e);
      EnginesOfSnoc(before, c, e);
    }
  }

  ghost predicate DistinctCanonicals(kept: seq<Result>) {
    forall i, j :: 0 <= i < j < |kept| ==> kept[i].canonical != kept[j].canonical
  }

  lemma AbsorbingKeepsDistinct(kept: seq<Result>, c: Result, similar: (Result, Result) -> bool)
    requires DistinctCanonicals(kept)
    ensures DistinctCanonicals(AbsorbedSimilar(kept, c, similar)) && |AbsorbedSimilar(kept, c, similar)| <= |kept| + 1
  {
    match FindSimilar(kept, c, similar)
    case None =>
    case Some(k) =>
      var after := kept[k := Merged(kept[k], c)];
      assert forall i :: 0 <= i < |kept| ==> after[i].canonical == kept[i].canonical;
  }

  lemma {:induction false} CanonicalUrlsDiffer(rs: seq<Result>, similar: (Result, Result) -> bool)
    ensures |WithoutLookalikes(rs, similar)| <= |rs| && DistinctCanonicals(WithoutLookalikes(rs, similar))
  {
    if rs != [] {
      CanonicalUrlsDiffer(rs[..|rs|-1], similar);
      AbsorbingKeepsDistinct(WithoutLookalikes(rs[..|rs|-1], similar), rs[|rs|-1], similar);
    }
  }

  /** Whatever looks alike: canonical URLs are distinct, and no engine is lost or invented. */
  lemma LookalikesConserve(rs: seq<Result>, similar: (Result, Result) -> bool)
    ensures var kept := WithoutLookalikes(rs, similar);
            && |kept| <= |rs| && DistinctCanonicals(kept)
            && (forall e :: HasEngine(kept, e) <==> HasEngine(rs, e))
  {
    CanonicalUrlsDiffer(rs, similar);
    forall e ensures HasEngine(WithoutLookalikes(rs, similar), e) <==> HasEngine(rs, e) {
      EnginesAreConserved(rs, similar, e);
    }
  }

  /** The results merged into each kept one, in order. */
  function MergedGroups(rs: seq<Result>, similar: (Result, Result) -> bool): (groups: seq<seq<Result>>)
    ensures |groups| == |WithoutLookalikes(rs, similar)|
  {
    if rs == [] then []
    else
      var n := |rs| - 1;
      var before := MergedGroups(rs[..n], similar);
      match FindSimilar(WithoutLookalikes(rs[..n], similar), rs[n], similar)
      case None => before + [[rs[n]]]
      case Some(i) => before[i := before[i] + [rs[n]]]
  }

  /** Each kept result combines those merged into it: the identity of the first, the union of the engines,
      the greatest score, and the first of the longest snippets. */
  lemma {:induction false} LookalikesCombine(rs: seq<Result>, similar: (Result, Result) -> bool, i: nat)
    requires i < |WithoutLookalikes(rs, similar)|
    ensures Combines(WithoutLookalikes(rs, similar)[i], MergedGroups(rs, similar)[i])
  {
    var n := |rs| - 1;
    var kept, groups, x := WithoutLookalikes(rs[..n], similar), MergedGroups(rs[..n], similar), rs[n];
    var found := FindSimilar(kept, x, similar);
    if i < |kept| { LookalikesCombine(rs[..n], similar, i); }
    if found == Some(i) {
      CombiningOneMore(kept[i], groups[i], x, groups[i] + [x]);
    } else if i == |kept| {
      assert x in [x];
    }
  }

  function InAll(groups: seq<seq<Result>>): multiset<Result> {
    if groups == [] then multiset{} else InAll(groups[..|groups|-1]) + multiset(groups[|groups|-1])
  }

  lemma {:induction false} OneMoreInGroup(groups: seq<seq<Result>>, i: nat, x: Result)
    requires i < |groups|
    ensures InAll(groups[i := groups[i] + [x]]) == InAll(groups) + multiset{x}
  {
    var n, after := |groups| - 1, groups[i := groups[i] + [x]];
    if i < n {
      OneMoreInGroup(groups[..n], i, x);
      assert after[..n] == groups[..n][i := groups[..n][i] + [x]];
    } else {
      assert after[..n] == groups[..n];
    }
  }

  lemma OneMoreGroup(groups: seq<seq<Result>>, group: seq<Result>)
    ensures InAll(groups + [group]) == InAll(groups) + multiset(group)
  {
    assert (groups + [group])[..|groups|] == groups;
  }

  lemma GroupsOfSnoc(rs: seq<Result>, x: Result, similar: (Result, Result) -> bool)
    ensures var found := FindSimilar(WithoutLookalikes(rs, similar), x, similar);
            var before := MergedGroups(rs, similar);
            MergedGroups(rs + [x], similar)
            == if found.None? then before + [[x]] else before[found.value := before[found.value] + [x]]
  {
    assert (rs + [x])[..|rs|] == rs;
  }

  lemma OneMoreIsMerged(rs: seq<Result>, x: Result, similar: (Result, Result) -> bool)
    ensures InAll(MergedGroups(rs + [x], similar)) == InAll(MergedGroups(rs, similar)) + multiset{x}
  {
    var found, before := FindSimilar(WithoutLookalikes(rs, similar), x, similar), MergedGroups(rs, similar);
    GroupsOfSnoc(rs, x, similar);
    if found.None? { OneMoreGroup(before, [x]); } else { OneMoreInGroup(before, found.value, x); }
  }

  lemma FirstMany(rs: seq<Result>, n: nat)
    requires n < |rs|
    ensures rs[..n+1] == rs[..n] + [rs[n]] && multiset(rs[..n+1]) == multiset(rs[..n]) + multiset{rs[n]}
  {
    assert rs[..n+1] == rs[..n] + [rs[n]];
  }

  /** Every result is merged into exactly one kept result. */
  lemma LookalikesLoseNothing(rs: seq<Result>, similar: (Result, Result) -> bool)
    ensures InAll(MergedGroups(rs, similar)) == multiset(rs)
  {
    for n := 0 to |rs|
      invariant InAll(MergedGroups(rs[..n], similar)) == multiset(rs[..n])
    {
      FirstMany(rs, n);
      OneMoreIsMerged(rs[..n], rs[n], similar);
    }
    assert rs[..|rs|] == rs;
  }

  // ---------- Preparing results ----------

  /** `admit` normalises a result, or refuses it; `score` rates it; `similar` compares two. */
  datatype Rules = Rules(admit: Result -> Option<Result>, score: Result -> real, similar: (Result, Result) -> bool)

  function Scored(r: Result, rules: Rules): Result {
    r.(preliminary := rules.score(r))
  }

  /** One admitted result, ranked by its position if it has no rank of its own. */
  function Entry(r: Result, position: nat, rules: Rules): seq<Result> {
    match rules.admit(r)
    case None => []
    case Some(item) => [Scored(if item.rank.None? then item.(rank := Some(position)) else item, rules)]
  }

  function Entries(rs: seq<Result>, rules: Rules): seq<Result> {
    if rs == [] then [] else Entries(rs[..|rs|-1], rules) + Entry(rs[|rs|-1], |rs|, rules)
  }

  function ScoredAll(rs: seq<Result>, rules: Rules): (r: seq<Result>)
    ensures |r| == |rs|
  {
    seq(|rs|, i requires 0 <= i < |rs| => Scored(rs[i], rules))
  }

  /** The exact results in their own order. */
  function PreparedExact(rs: seq<Result>, rules: Rules): seq<Result> {
    ScoredAll(Deduplicated(Entries(rs, rules)), rules)
  }

  function PreparedUnsorted(rs: seq<Result>, rules: Rules): seq<Result> {
    ScoredAll(WithoutLookalikes(Entries(rs, rules), rules.similar), rules)
  }

  // ---------- Sorting by score ----------

  function Place(sorted: seq<Result>, x: Result): seq<Result> {
    if sorted == [] then [x]
    else
      var n := |sorted| - 1;
      if sorted[n].preliminary >= x.preliminary then sorted + [x] else Place(sorted[..n], x) + [sorted[n]]
  }

  function Descending(rs: seq<Result>): seq<Result> {
    if rs == [] then [] else Place(Descending(rs[..|rs|-1]), rs[|rs|-1])
  }

  function OfScore(rs: seq<Result>, score: real): seq<Result> {
    if rs == [] then [] else OfScore(rs[..|rs|-1], score) + if rs[|rs|-1].preliminary == score then [rs[|rs|-1]] else []
  }

  ghost predicate IsDescending(rs: seq<Result>) {
    forall i, j :: 0 <= i < j < |rs| ==> rs[i].preliminary >= rs[j].preliminary
  }

  lemma {:induction false} PlacingIsStable(sorted: seq<Result>, x: Result, score: real)
    ensures OfScore(Place(sorted, x), score) == OfScore(sorted + [x], score)
  {
    if sorted == [] {
      assert sorted + [x] == [x];
    } else if sorted[|sorted|-1].preliminary < x.preliminary {
      var front, last := sorted[..|sorted|-1], sorted[|sorted|-1];
      assert sorted == front + [last];
      PlacingIsStable(front, x, score);
    }
  }

  lemma {:induction false} PlacingSorts(sorted: seq<Result>, x: Result)
    requires IsDescending(sorted)
    ensures IsDescending(Place(sorted, x))
    ensures forall y :: y in Place(sorted, x) <==> y in sorted || y == x
  {
    if sorted != [] {
      var n := |sorted| - 1;
      assert sorted == sorted[..n] + [sorted[n]];
      if sorted[n].preliminary < x.preliminary {
        PlacingSorts(sorted[..n], x);
        var placed := Place(sorted[..n], x);
        forall i | 0 <= i < |placed| ensures placed[i].preliminary >= sorted[n].preliminary {
          assert placed[i] in placed;
        }
      }
    }
  }

  lemma {:induction false} SortingSorts(rs: seq<Result>)
    ensures IsDescending(Descending(rs))
  {
    if rs != [] {
      SortingSorts(rs[..|rs|-1]);
      PlacingSorts(Descending(rs[..|rs|-1]), rs[|rs|-1]);
    }
  }

  lemma {:induction false} SortingKeepsScores(rs: seq<Result>, score: real)
    ensures OfScore(Descending(rs), score) == OfScore(rs, score)
  {
    if rs != [] {
      var n := |rs| - 1;
      SortingKeepsScores(rs[..n], score);
      PlacingIsStable(Descending(rs[..n]), rs[n], score);
      assert rs[..n] + [rs[n]] == rs;
    }
  }

  /** Sorting puts the results in descending order of score and keeps the order of equal scores, so that
      the results of each score are the same as before. */
  lemma SortingIsStable(rs: seq<Result>)
    ensures IsDescending(Descending(rs))
    ensures forall score :: OfScore(Descending(rs), score) == OfScore(rs, score)
  {
    SortingSorts(rs);
    forall score ensures OfScore(Descending(rs), score) == OfScore(rs, score) { SortingKeepsScores(rs, score); }
  }

  /** All results, best first. */
  function PreparedByScore(rs: seq<Result>, rules: Rules): seq<Result> {
    Descending(PreparedUnsorted(rs, rules))
  }
}
