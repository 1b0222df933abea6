/** What preparing search results makes of them. */
module PreparedResults {
  import opened Wrappers
  import opened Payload
  import opened Merging

  // ---------- Admission and ranks ----------

  /** The result at a position, as admitted: with its own rank, or its position counted from 1, and a score. */
  ghost predicate IsAdmitted(x: Result, r: Result, position: nat, rules: Rules) {
    && rules.admit(r).Some?
    && var item := rules.admit(r).value;
       && x == item.(rank := x.rank, preliminary := x.preliminary)
       && x.rank == (if item.rank.Some? then item.rank else Some(position + 1))
       && x.preliminary == rules.score(item.(rank := x.rank))
  }

  /** `xs` are the admitted results at the increasing positions `ps`, and no other is admitted. */
  ghost predicate AreAdmitted(xs: seq<Result>, rs: seq<Result>, ps: seq<nat>, rules: Rules) {
    && |ps| == |xs|
    && (forall i :: 0 <= i < |ps| ==> ps[i] < |rs| && IsAdmitted(xs[i], rs[ps[i]], ps[i], rules))
    && (forall i, j :: 0 <= i < j < |ps| ==> ps[i] < ps[j])
    && forall k :: 0 <= k < |rs| && rules.admit(rs[k]).Some? ==> k in ps
  }

  lemma OneMoreAdmitted(xs: seq<Result>, rs: seq<Result>, ps: seq<nat>, rules: Rules, x: Result, r: Result)
    requires AreAdmitted(xs, rs, ps, rules) && IsAdmitted(x, r, |rs|, rules)
    ensures AreAdmitted(xs + [x], rs + [r], ps + [|rs|], rules)
  {
    var n, all := |rs|, ps + [|rs|];
    assert all[|ps|] == n;
    forall k | 0 <= k < |rs + [r]| && rules.admit((rs + [r])[k]).Some? ensures k in all {
      if k < n { assert k in ps; }
    }
  }

  lemma OneMoreRefused(xs: seq<Result>, rs: seq<Result>, ps: seq<nat>, rules: Rules, r: Result)
    requires AreAdmitted(xs, rs, ps, rules) && rules.admit(r).None?
    ensures AreAdmitted(xs, rs + [r], ps, rules)
  {
  }

  /** The entries are the admitted results, in order. */
  lemma {:induction false} EntriesAreTheAdmitted(rs: seq<Result>, rules: Rules) returns (ps: seq<nat>)
    ensures AreAdmitted(Entries(rs, rules), rs, ps, rules)
  {
    if rs == [] {
      ps := [];
    } else {
      var n := |rs| - 1;
      var before := Entries(rs[..n], rules);
      ps := EntriesAreTheAdmitted(rs[..n], rules);
      assert rs[..n] + [rs[n]] == rs;
      if rules.admit(rs[n]).Some? {
        var x := Entry(rs[n], n + 1, rules)[0];
        assert Entries(rs, rules) == before + [x];
        OneMoreAdmitted(before, rs[..n], ps, rules, x, rs[n]);
        ps := ps + [n];
      } else {
        assert Entries(rs, rules) == before;
        OneMoreRefused(before, rs[..n], ps, rules, rs[n]);
      }
    }
  }

  // ---------- One result per page ----------

  /** Results are told apart by their canonical URLs, and those without by their URLs. */
  lemma OneResultPerPage(rs: seq<Result>, i: nat, j: nat)
    requires i < j < |Deduplicated(rs)|
    ensures var d := Deduplicated(rs);
            && (d[i].canonical != "" ==> d[i].canonical != d[j].canonical)
            && (d[i].canonical == "" == d[j].canonical ==> d[i].url != d[j].url)
  {
    DeduplicationConserves(rs);
  }

  // ---------- Scores ----------

  /** A prepared exact result combines all entries of its page and has the score of what it then is. */
  lemma ExactAreScoredLast(rs: seq<Result>, rules: Rules, i: nat)
    requires i < |PreparedExact(rs, rules)|
    ensures var entries, x := Entries(rs, rules), PreparedExact(rs, rules)[i];
            exists merged :: Combines(merged, OfKey(entries, KeyOf(merged)))
                             && x == merged.(preliminary := rules.score(merged))
    ensures KeysOf(PreparedExact(rs, rules)) == FirstUse(KeysOf(Entries(rs, rules)))
  {
    var entries := Entries(rs, rules);
    var d := Deduplicated(entries);
    DeduplicationConserves(entries);
    assert Combines(d[i], OfKey(entries, KeyOf(d[i])));
    assert PreparedExact(rs, rules)[i] == d[i].(preliminary := rules.score(d[i]));
    forall k | 0 <= k < |d| ensures KeysOf(PreparedExact(rs, rules))[k] == KeysOf(d)[k] {
      assert PreparedExact(rs, rules)[k] == d[k].(preliminary := rules.score(d[k]));
    }
  }

  lemma {:induction false} PlacingMembers(sorted: seq<Result>, x: Result, y: Result)
    ensures y in Place(sorted, x) <==> y in sorted || y == x
  {
    if sorted != [] {
      var n := |sorted| - 1;
      assert sorted == sorted[..n] + [sorted[n]];
      if sorted[n].preliminary < x.preliminary { PlacingMembers(sorted[..n], x, y); }
    }
  }

  lemma {:induction false} SortingMembers(rs: seq<Result>, y: Result)
    ensures y in Descending(rs) <==> y in rs
  {
    if rs != [] {
      var n := |rs| - 1;
      assert rs == rs[..n] + [rs[n]];
      SortingMembers(rs[..n], y);
      PlacingMembers(Descending(rs[..n]), rs[n], y);
    }
  }

  /** A result prepared by score combines the entries merged into it, has the score of what it then is, and comes in
      descending order of the scores. */
  lemma SortedAreScoredLast(rs: seq<Result>, rules: Rules, x: Result) returns (i: nat, merged: Result)
    requires x in PreparedByScore(rs, rules)
    ensures IsDescending(PreparedByScore(rs, rules))
    ensures i < |MergedGroups(Entries(rs, rules), rules.similar)|
            && Combines(merged, MergedGroups(Entries(rs, rules), rules.similar)[i])
            && x == merged.(preliminary := rules.score(merged))
  {
    var entries := Entries(rs, rules);
    var kept, scored := WithoutLookalikes(entries, rules.similar), PreparedUnsorted(rs, rules);
    SortingSorts(scored);
    SortingMembers(scored, x);
    i :| 0 <= i < |scored| && scored[i] == x;
    merged := kept[i];
    LookalikesCombine(entries, rules.similar, i);
  }
}
