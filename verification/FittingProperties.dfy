/** What fitting the response never changes: citations, URLs, and sources that follow the evidence. */
module FittingProperties {
  import opened Payload
  import opened Fitting

  // ---------- What never changes ----------

  /** The citation and URL of every exact-query snippet, in order. */
  function ExactTargets(ss: seq<Snippet>): seq<(string, string)> {
    if ss == [] then []
    else (if ss[0].exact then [(ss[0].citation, ss[0].url)] else []) + ExactTargets(ss[1..])
  }

  function SourceTargets(ss: seq<Source>): seq<(string, string)> {
    seq(|ss|, i requires 0 <= i < |ss| => (ss[i].sourceId, ss[i].url))
  }

  /** The remaining evidence is a beginning of the original, with its citations and source ids. */
  ghost predicate EvidencePrefix(q: seq<Evidence>, p: seq<Evidence>) {
    && |q| <= |p|
    && forall i :: 0 <= i < |q| ==> q[i].citation == p[i].citation && q[i].sourceId == p[i].sourceId
  }

  ghost predicate Keeps(p: Response, q: Response) {
    && q.frame == p.frame
    && ExactTargets(q.snippets) == ExactTargets(p.snippets)
    && EvidencePrefix(q.evidence, p.evidence)
    && q.covered <= p.covered && q.missing <= p.missing
    && q.contradictions <= p.contradictions && q.failures <= p.failures
    && q.unresolved <= p.unresolved && q.warnings <= p.warnings
    && q.omittedEvidence == p.omittedEvidence && q.omittedSnippets == p.omittedSnippets
    && q.serializedChars == p.serializedChars
    && (p.textCompacted ==> q.textCompacted) && (p.budgetExceeded ==> q.budgetExceeded)
  }

  /** `sources` names exactly the sources rebuilt from the evidence, with their URLs. */
  ghost predicate SourcesMatch(p: Response, catalogue: Catalogue) {
    SourceTargets(p.sources) == SourceTargets(CompactSources(catalogue, p.evidence))
  }

  lemma {:induction false} ExactWithoutExpanded(ss: seq<Snippet>, i: nat)
    requires i < |ss| && !ss[i].exact
    ensures ExactTargets(Without(ss, i)) == ExactTargets(ss)
  {
    if i > 0 {
      ExactWithoutExpanded(ss[1..], i - 1);
      assert Without(ss, i)[0] == ss[0] && Without(ss, i)[1..] == Without(ss[1..], i - 1);
    } else {
      assert Without(ss, 0) == ss[1..];
    }
  }

  lemma {:induction false} ExactAfterUpdate(ss: seq<Snippet>, i: nat, s: Snippet)
    requires i < |ss| && s.exact == ss[i].exact && s.citation == ss[i].citation && s.url == ss[i].url
    ensures ExactTargets(ss[i := s]) == ExactTargets(ss)
  {
    if i > 0 {
      ExactAfterUpdate(ss[1..], i - 1, s);
      assert ss[i := s][1..] == ss[1..][i - 1 := s];
    } else {
      assert ss[0 := s][1..] == ss[1..];
    }
  }

  lemma ReductionsKeep(p: Response, cfg: Config, r: Reduction)
    requires Applicable(p, r)
    ensures Keeps(p, Reduced(p, cfg, r))
  {
    var q := Reduced(p, cfg, r);
    match r
    case DropExpandedSnippet => ExactWithoutExpanded(p.snippets, LastExpanded(p.snippets).value);
    case ShrinkSnippet(floor, step) =>
      var i := Longest(SnippetTexts(p.snippets), floor).value;
      ExactAfterUpdate(p.snippets, i, q.snippets[i]);
    case ShrinkSnippetTitle =>
      var i := Longest(SnippetTitles(p.snippets), TITLE_FLOOR).value;
      ExactAfterUpdate(p.snippets, i, q.snippets[i]);
    case _ =>
  }

  lemma ReductionsKeepSources(p: Response, cfg: Config, r: Reduction)
    requires Applicable(p, r) && SourcesMatch(p, cfg.catalogue)
    ensures SourcesMatch(Reduced(p, cfg, r), cfg.catalogue)
  {
    var q := Reduced(p, cfg, r);
    if !r.DropEvidence? {
      assert SourceIds(q.evidence) == SourceIds(p.evidence);
      assert SourceTargets(q.sources) == SourceTargets(p.sources);
    }
  }

  /** Fitting keeps the exact-query citations and URLs, an evidence prefix, and prefixes of every list;
      sources that follow the evidence keep following it. */
  lemma {:induction false} FittingKeeps(p: Response, cfg: Config, budget: int, size: Response -> nat)
    ensures Keeps(p, Fitted(p, cfg, budget, size))
    ensures SourcesMatch(p, cfg.catalogue) ==> SourcesMatch(Fitted(p, cfg, budget, size), cfg.catalogue)
    decreases |p.evidence|, Weight(p)
  {
    var c := Choice(p, cfg);
    if size(p) > budget && c.Some? {
      var next := Reduced(p, cfg, c.value);
      ReductionsMakeProgress(p, cfg, c.value);
      ReductionsKeep(p, cfg, c.value);
      if SourcesMatch(p, cfg.catalogue) { ReductionsKeepSources(p, cfg, c.value); }
      FittingKeeps(next, cfg, budget, size);
    }
  }

  // ---------- What the list of sources means ----------

  function FirstIndex(ids: seq<string>, x: string): (i: nat)
    requires x in ids
    ensures i < |ids| && ids[i] == x && forall j :: 0 <= j < i ==> ids[j] != x
  {
    if ids[0] == x then 0 else FirstIndex(ids[1..], x) + 1
  }

  lemma {:induction false} FirstIndexOfSnoc(ids: seq<string>, last: string, x: string)
    requires x in ids
    ensures FirstIndex(ids + [last], x) == FirstIndex(ids, x)
  {
    if ids[0] != x {
      assert (ids + [last])[1..] == ids[1..] + [last];
      FirstIndexOfSnoc(ids[1..], last, x);
    }
  }

  lemma {:induction false} FirstUseIsInOrder(ids: seq<string>, i: nat, j: nat)
    requires i < j < |FirstUse(ids)|
    ensures FirstIndex(ids, FirstUse(ids)[i]) < FirstIndex(ids, FirstUse(ids)[j])
  {
    var before, last := ids[..|ids|-1], ids[|ids|-1];
    var x, y := FirstUse(ids)[i], FirstUse(ids)[j];
    assert ids == before + [last] && x == FirstUse(before)[i];
    assert x in before;
    FirstIndexOfSnoc(before, last, x);
    if j < |FirstUse(before)| {
      assert y in before;
      FirstIndexOfSnoc(before, last, y);
      FirstUseIsInOrder(before, i, j);
    }
  }

  ghost predicate WellFormed(catalogue: Catalogue) {
    forall id :: id in catalogue ==> catalogue[id].sourceId == id
  }

  function Known(catalogue: Catalogue, ids: seq<string>): seq<string> {
    if ids == [] then []
    else (if ids[0] in catalogue then [ids[0]] else []) + Known(catalogue, ids[1..])
  }

  /** The sources list the known ids of the evidence in order of first use, each with its own URL. */
  lemma {:induction false} CompactSourcesFollowIds(catalogue: Catalogue, ids: seq<string>, i: nat)
    requires WellFormed(catalogue) && i < |Known(catalogue, ids)|
    ensures |CompactKnown(catalogue, ids)| == |Known(catalogue, ids)|
    ensures var id := Known(catalogue, ids)[i];
            var source := CompactKnown(catalogue, ids)[i];
            id in catalogue && source.sourceId == id && source.url == catalogue[id].url
  {
    SameLength(catalogue, ids);
    SameLength(catalogue, ids[1..]);
    if ids[0] !in catalogue {
      CompactSourcesFollowIds(catalogue, ids[1..], i);
    } else if i > 0 {
      CompactSourcesFollowIds(catalogue, ids[1..], i - 1);
    }
  }

  lemma {:induction false} SameLength(catalogue: Catalogue, ids: seq<string>)
    ensures |CompactKnown(catalogue, ids)| == |Known(catalogue, ids)|
  {
    if ids != [] { SameLength(catalogue, ids[1..]); }
  }
}
