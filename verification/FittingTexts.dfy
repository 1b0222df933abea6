/** What fitting leaves of the texts of a response. */
module FittingTexts {
  import opened Wrappers
  import opened TextSpans
  import opened Clipping
  import opened Payload
  import opened Fitting

  // ---------- One text ----------

  /** A proper beginning of `text`, not ended by white space, and the ellipsis: at least `n` characters. */
  ghost predicate IsCutFrom(t: string, text: string, n: nat) {
    && t != "" && n <= |t| <= |text|
    && t[..|t|-1] <= text && t[|t|-1..] == ELLIPSIS
    && (|t| > 1 ==> !IsSpace(t[|t|-2]))
  }

  /** The text itself, or with its white space normalised, or cut from that. */
  ghost predicate Abridges(t: string, original: string, n: nat) {
    t == original || t == Normalise(original) || IsCutFrom(t, Normalise(original), n)
  }

  lemma ClippingCuts(value: string, limit: int)
    requires 2 <= limit
    ensures if |Normalise(value)| <= limit then ClipText(value, limit) == Normalise(value)
            else IsCutFrom(ClipText(value, limit), Normalise(value), limit / 2)
                 && |ClipText(value, limit)| <= limit
  {
    if |Normalise(value)| > limit { ClipTextKeepsABeginning(value, limit); }
  }

  /** One step towards a floor normalises the text, or cuts it to a beginning of at least half of what the step
      allows: the floor, or the length less the step. */
  lemma ShrinkingKeepsHalf(text: string, floor: nat, step: nat)
    requires floor >= 2
    ensures var allowed, r := Max(floor, |text| - step), Shrunk(text, floor, step);
            if |Normalise(text)| <= allowed then r == Normalise(text)
            else IsCutFrom(r, Normalise(text), allowed / 2) && |r| <= allowed
  {
    ClippingCuts(text, Max(floor, |text| - step));
  }

  lemma CutIsNormal(t: string, text: string, n: nat)
    requires IsNormal(text) && IsCutFrom(t, text, n)
    ensures Normalise(t) == t
  {
    var kept := t[..|t|-1];
    assert t == kept + ELLIPSIS;
    BeginningWithEllipsisIsNormal(text, kept);
    NormalTextIsFixed(t);
  }

  lemma CutOfACut(t: string, cut: string, text: string, n: nat, m: nat)
    requires IsCutFrom(cut, text, n) && IsCutFrom(t, cut, m) && |t| < |cut|
    ensures IsCutFrom(t, text, m)
  {
    assert t[..|t|-1] <= cut[..|cut|-1] <= text;
  }

  lemma ShrinkingACut(t: string, text: string, floor: nat, step: nat, n: nat)
    requires IsNormal(text) && IsCutFrom(t, text, n)
    requires 2 * n <= floor && 2 <= floor < |t| && step > 0
    ensures IsCutFrom(Shrunk(t, floor, step), text, n)
  {
    var r := Shrunk(t, floor, step);
    CutIsNormal(t, text, n);
    ShrinkingKeepsHalf(t, floor, step);
    CutOfACut(r, t, text, n, Max(floor, |t| - step) / 2);
  }

  /** Shrinking an abridged text again abridges the original. */
  lemma ShrinkingAbridges(t: string, original: string, floor: nat, step: nat, n: nat)
    requires Abridges(t, original, n) && 2 * n <= floor && 2 <= floor < |t| && step > 0
    ensures Abridges(Shrunk(t, floor, step), original, n)
  {
    var text := Normalise(original);
    NormaliseIsNormal(original);
    if t == original || t == text {
      NormalTextIsFixed(text);
      ShrinkingKeepsHalf(t, floor, step);
    } else {
      ShrinkingACut(t, text, floor, step, n);
    }
  }

  // ---------- The parts of a response ----------

  ghost predicate AbridgesOption(t: Option<string>, original: Option<string>, n: nat) {
    t == original || (t.Some? && original.Some? && Abridges(t.value, original.value, n))
  }

  ghost predicate AbridgesEvidence(e: Evidence, original: Evidence) {
    && e.citation == original.citation && e.sourceId == original.sourceId
    && Abridges(e.text, original.text, 50) && AbridgesOption(e.heading, original.heading, 20)
  }

  ghost predicate AbridgesSnippet(s: Snippet, original: Snippet) {
    && s.citation == original.citation && s.exact == original.exact && s.url == original.url
    && Abridges(s.title, original.title, 30) && AbridgesOption(s.text, original.text, 10)
  }

  /** Metadata goes one by one, the date first. */
  ghost predicate AbridgesSource(s: Source, original: Source) {
    && s.sourceId == original.sourceId && s.url == original.url && Abridges(s.title, original.title, 30)
    && (s.publishedAt == original.publishedAt || s.publishedAt == None)
    && (s.sourceType == original.sourceType || (s.sourceType == None && s.publishedAt == None))
  }

  /** The source as the catalogue has it, with its whole title. */
  function WholeSource(r: SourceRecord): Source {
    Source(r.sourceId, r.title, r.url, r.publishedAt, if r.sourceType == "" then None else Some(r.sourceType))
  }

  ghost predicate IsSourceOf(s: Source, sources: seq<Source>, catalogue: Catalogue) {
    || (exists original :: original in sources && AbridgesSource(s, original))
    || (exists id :: id in catalogue && AbridgesSource(s, WholeSource(catalogue[id])))
  }

  ghost predicate EvidenceKept(es: seq<Evidence>, originals: seq<Evidence>) {
    |es| <= |originals| && forall i :: 0 <= i < |es| ==> AbridgesEvidence(es[i], originals[i])
  }

  ghost predicate SourcesKept(ss: seq<Source>, originals: seq<Source>, catalogue: Catalogue) {
    forall s :: s in ss ==> IsSourceOf(s, originals, catalogue)
  }

  /** The snippets are those at increasing positions `ps` of the originals, and every exact one is among them. */
  ghost predicate SnippetsKept(ss: seq<Snippet>, originals: seq<Snippet>, ps: seq<nat>) {
    && |ps| == |ss|
    && (forall i :: 0 <= i < |ps| ==> ps[i] < |originals| && AbridgesSnippet(ss[i], originals[ps[i]]))
    && (forall i, j :: 0 <= i < j < |ps| ==> ps[i] < ps[j])
    && forall k :: 0 <= k < |originals| && originals[k].exact ==> k in ps
  }

  /** What is left of the texts of `p` in `q`: floors are 100 and 20 for the texts of evidence and snippets, 60
      for titles, 40 for headings and 240 for the query. */
  ghost predicate TextsKept(q: Response, p: Response, catalogue: Catalogue, ps: seq<nat>) {
    && EvidenceKept(q.evidence, p.evidence)
    && SnippetsKept(q.snippets, p.snippets, ps)
    && SourcesKept(q.sources, p.sources, catalogue)
    && AbridgesOption(q.query, p.query, 120)
  }

  ghost predicate SameTexts(ss: seq<Snippet>, originals: seq<Snippet>, ps: seq<nat>) {
    |ps| == |ss| && forall i :: 0 <= i < |ps| ==> ps[i] < |originals| && ss[i].text == originals[ps[i]].text
  }

  ghost predicate SameEvidenceTexts(es: seq<Evidence>, originals: seq<Evidence>) {
    |es| <= |originals| && forall i :: 0 <= i < |es| ==> es[i].text == originals[i].text
  }

  /** A response without the flag for shortened texts has the texts of evidence and snippets unchanged. */
  ghost predicate CutsAreFlagged(q: Response, p: Response, ps: seq<nat>) {
    q.textCompacted || (SameEvidenceTexts(q.evidence, p.evidence) && SameTexts(q.snippets, p.snippets, ps))
  }

  // ---------- One reduction ----------

  lemma CutEvidenceIsKept(es: seq<Evidence>, originals: seq<Evidence>, i: nat, floor: nat, step: nat)
    requires EvidenceKept(es, originals) && i < |es| && 100 <= floor < |es[i].text| && step > 0
    ensures EvidenceKept(es[i := es[i].(text := Shrunk(es[i].text, floor, step))], originals)
  {
    assert AbridgesEvidence(es[i], originals[i]);
    ShrinkingAbridges(es[i].text, originals[i].text, floor, step, 50);
  }

  lemma CutHeadingIsKept(es: seq<Evidence>, originals: seq<Evidence>, i: nat)
    requires EvidenceKept(es, originals) && i < |es| && HEADING_FLOOR < |OrEmpty(es[i].heading)|
    ensures var heading := Shrunk(OrEmpty(es[i].heading), HEADING_FLOOR, 40);
            EvidenceKept(es[i := es[i].(heading := Some(heading))], originals)
  {
    assert AbridgesEvidence(es[i], originals[i]);
    ShrinkingAbridges(es[i].heading.value, originals[i].heading.value, HEADING_FLOOR, 40, 20);
  }

  lemma CutSnippetIsKept(ss: seq<Snippet>, originals: seq<Snippet>, ps: seq<nat>, i: nat, floor: nat, step: nat)
    requires SnippetsKept(ss, originals, ps) && i < |ss| && 20 <= floor < |OrEmpty(ss[i].text)| && step > 0
    ensures var text := Shrunk(OrEmpty(ss[i].text), floor, step);
            SnippetsKept(ss[i := ss[i].(text := Some(text))], originals, ps)
  {
    assert AbridgesSnippet(ss[i], originals[ps[i]]);
    ShrinkingAbridges(ss[i].text.value, originals[ps[i]].text.value, floor, step, 10);
  }

  lemma CutSnippetTitleIsKept(ss: seq<Snippet>, originals: seq<Snippet>, ps: seq<nat>, i: nat)
    requires SnippetsKept(ss, originals, ps) && i < |ss| && TITLE_FLOOR < |ss[i].title|
    ensures SnippetsKept(ss[i := ss[i].(title := Shrunk(ss[i].title, TITLE_FLOOR, 60))], originals, ps)
  {
    assert AbridgesSnippet(ss[i], originals[ps[i]]);
    ShrinkingAbridges(ss[i].title, originals[ps[i]].title, TITLE_FLOOR, 60, 30);
  }

  lemma StillListed(ps: seq<nat>, i: nat, k: nat)
    requires i < |ps| && k in ps && ps[i] != k
    ensures k in Without(ps, i)
  {
    var j :| 0 <= j < |ps| && ps[j] == k;
    assert Without(ps, i)[if j < i then j else j - 1] == k;
  }

  lemma DroppedSnippetIsExpanded(ss: seq<Snippet>, originals: seq<Snippet>, ps: seq<nat>, i: nat)
    requires SnippetsKept(ss, originals, ps) && i < |ss| && !ss[i].exact
    ensures SnippetsKept(Without(ss, i), originals, Without(ps, i))
  {
    assert AbridgesSnippet(ss[i], originals[ps[i]]);
    forall k | 0 <= k < |originals| && originals[k].exact ensures k in Without(ps, i) {
      StillListed(ps, i, k);
    }
  }

  lemma CutSourceTitleIsKept(s: Source, original: Source)
    requires AbridgesSource(s, original) && TITLE_FLOOR < |s.title|
    ensures AbridgesSource(s.(title := Shrunk(s.title, TITLE_FLOOR, 60)), original)
  {
    ShrinkingAbridges(s.title, original.title, TITLE_FLOOR, 60, 30);
  }

  lemma ChangedSourceIsKept(ss: seq<Source>, originals: seq<Source>, catalogue: Catalogue, i: nat, s: Source)
    requires SourcesKept(ss, originals, catalogue) && i < |ss|
    requires forall o :: AbridgesSource(ss[i], o) ==> AbridgesSource(s, o)
    ensures SourcesKept(ss[i := s], originals, catalogue)
  {
    assert IsSourceOf(ss[i], originals, catalogue);
    if exists o :: o in originals && AbridgesSource(ss[i], o) {
      var o :| o in originals && AbridgesSource(ss[i], o);
      assert AbridgesSource(s, o);
    } else {
      var id :| id in catalogue && AbridgesSource(ss[i], WholeSource(catalogue[id]));
      assert AbridgesSource(s, WholeSource(catalogue[id]));
    }
  }

  lemma CompactSourceAbridges(r: SourceRecord)
    ensures AbridgesSource(CompactSource(r), WholeSource(r))
  {
    ClippingCuts(r.title, 180);
  }

  lemma {:induction false} CompactKnownIsKept(catalogue: Catalogue, ids: seq<string>, originals: seq<Source>)
    ensures SourcesKept(CompactKnown(catalogue, ids), originals, catalogue)
  {
    if ids != [] {
      CompactKnownIsKept(catalogue, ids[1..], originals);
      if ids[0] in catalogue { CompactSourceAbridges(catalogue[ids[0]]); }
    }
  }

  /** The reductions that fitting makes do not cut texts below the lowest floors. */
  predicate Gentle(r: Reduction) {
    && (r.ShrinkEvidence? ==> r.floor >= 100)
    && (r.ShrinkSnippet? ==> r.floor >= 20)
  }

  lemma {:induction false} FirstOfIsListed(p: Response, rs: seq<Reduction>)
    ensures FirstOf(p, rs).Some? ==> FirstOf(p, rs).value in rs
  {
    if rs != [] { FirstOfIsListed(p, rs[1..]); }
  }

  lemma ChoiceIsGentle(p: Response, cfg: Config)
    requires cfg.evidenceFloor >= 100 && cfg.snippetFloor >= 20
    ensures Choice(p, cfg).Some? ==> Gentle(Choice(p, cfg).value)
  {
    FirstOfIsListed(p, Priorities(cfg));
    assert forall r :: r in EarlyReductions(cfg) ==> Gentle(r);
    assert forall r :: r in MiddleReductions() ==> Gentle(r);
    assert forall r :: r in LateReductions() ==> Gentle(r);
  }

  lemma ShrinkingSourcesIsKept(ss: seq<Source>, originals: seq<Source>, catalogue: Catalogue, i: nat)
    requires SourcesKept(ss, originals, catalogue) && i < |ss| && TITLE_FLOOR < |ss[i].title|
    ensures SourcesKept(ss[i := ss[i].(title := Shrunk(ss[i].title, TITLE_FLOOR, 60))], originals, catalogue)
  {
    var s := ss[i].(title := Shrunk(ss[i].title, TITLE_FLOOR, 60));
    forall o | AbridgesSource(ss[i], o) ensures AbridgesSource(s, o) {
      CutSourceTitleIsKept(ss[i], o);
    }
    ChangedSourceIsKept(ss, originals, catalogue, i, s);
  }

  lemma ReducingKeepsTexts(q: Response, p: Response, cfg: Config, r: Reduction, ps: seq<nat>) returns (qs: seq<nat>)
    requires TextsKept(q, p, cfg.catalogue, ps) && Applicable(q, r) && Gentle(r)
    ensures TextsKept(Reduced(q, cfg, r), p, cfg.catalogue, qs)
    ensures |ps| == |q.snippets|
            && qs == if r.DropExpandedSnippet? then Without(ps, LastExpanded(q.snippets).value) else ps
  {
    qs := ps;
    match r
    case DropExpandedSnippet =>
      var i := LastExpanded(q.snippets).value;
      DroppedSnippetIsExpanded(q.snippets, p.snippets, ps, i);
      qs := Without(ps, i);
    case DropEvidence(_) =>
      CompactKnownIsKept(cfg.catalogue, FirstUse(SourceIds(DropLast(q.evidence))), p.sources);
    case ShrinkEvidence(floor, step) =>
      CutEvidenceIsKept(q.evidence, p.evidence, Longest(EvidenceTexts(q.evidence), floor).value, floor, step);
    case ShrinkSnippet(floor, step) =>
      CutSnippetIsKept(q.snippets, p.snippets, ps, Longest(SnippetTexts(q.snippets), floor).value, floor, step);
    case DropSourceMetadata =>
      var i := LastWithMetadata(q.sources).value;
      ChangedSourceIsKept(q.sources, p.sources, cfg.catalogue, i, WithoutMetadatum(q.sources[i]));
    case ClipQuery => ShrinkingAbridges(q.query.value, p.query.value, QUERY_FLOOR, 120, 120);
    case ShrinkSourceTitle =>
      ShrinkingSourcesIsKept(q.sources, p.sources, cfg.catalogue, Longest(SourceTitles(q.sources), TITLE_FLOOR).value);
    case ShrinkSnippetTitle =>
      CutSnippetTitleIsKept(q.snippets, p.snippets, ps, Longest(SnippetTitles(q.snippets), TITLE_FLOOR).value);
    case ShrinkHeading =>
      CutHeadingIsKept(q.evidence, p.evidence, Longest(Headings(q.evidence), HEADING_FLOOR).value);
    case _ =>
  }

  lemma ReducingFlagsCuts(q: Response, p: Response, cfg: Config, r: Reduction, ps: seq<nat>, qs: seq<nat>)
    requires Applicable(q, r) && CutsAreFlagged(q, p, ps)
    requires |ps| == |q.snippets|
             && qs == if r.DropExpandedSnippet? then Without(ps, LastExpanded(q.snippets).value) else ps
    ensures CutsAreFlagged(Reduced(q, cfg, r), p, qs)
  {
    if !q.textCompacted {
      match r
      case DropExpandedSnippet => WithoutKeepsTexts(q.snippets, p.snippets, ps, LastExpanded(q.snippets).value);
      case _ =>
    }
  }

  lemma WithoutKeepsTexts(ss: seq<Snippet>, originals: seq<Snippet>, ps: seq<nat>, i: nat)
    requires SameTexts(ss, originals, ps) && i < |ss|
    ensures SameTexts(Without(ss, i), originals, Without(ps, i))
  {
  }

  // ---------- The whole fitting ----------

  lemma {:induction false} FittingOnKeepsTexts(q: Response, p: Response, cfg: Config, budget: int,
                                               size: Response -> nat, ps: seq<nat>) returns (qs: seq<nat>)
    requires cfg.evidenceFloor >= 100 && cfg.snippetFloor >= 20 && TextsKept(q, p, cfg.catalogue, ps)
    requires CutsAreFlagged(q, p, ps)
    ensures TextsKept(Fitted(q, cfg, budget, size), p, cfg.catalogue, qs)
    ensures CutsAreFlagged(Fitted(q, cfg, budget, size), p, qs)
    decreases |q.evidence|, Weight(q)
  {
    qs := ps;
    var c := Choice(q, cfg);
    if size(q) > budget && c.Some? {
      ChoiceIsGentle(q, cfg);
      ReductionsMakeProgress(q, cfg, c.value);
      qs := ReducingKeepsTexts(q, p, cfg, c.value, ps);
      ReducingFlagsCuts(q, p, cfg, c.value, ps, qs);
      qs := FittingOnKeepsTexts(Reduced(q, cfg, c.value), p, cfg, budget, size, qs);
    }
  }

  lemma StartingPositions(ss: seq<Snippet>) returns (ps: seq<nat>)
    ensures SnippetsKept(ss, ss, ps) && |ps| == |ss| && forall i :: 0 <= i < |ps| ==> ps[i] == i
  {
    ps := seq(|ss|, i requires 0 <= i < |ss| => i);
    forall k | 0 <= k < |ss| ensures k in ps {
      assert ps[k] == k;
    }
  }

  lemma NothingIsCutYet(p: Response, catalogue: Catalogue) returns (ps: seq<nat>)
    ensures TextsKept(p, p, catalogue, ps) && CutsAreFlagged(p, p, ps)
  {
    ps := StartingPositions(p.snippets);
    forall s | s in p.sources ensures IsSourceOf(s, p.sources, catalogue) {
      assert AbridgesSource(s, s);
    }
  }

  /** After any fitting every text, title, heading and the query is the original, or normalised, or a beginning of
      it with the ellipsis that is at least half as long as its lowest floor; a response without the flag for
      shortened texts has them unchanged. */
  lemma FittingKeepsTexts(p: Response, cfg: Config, budget: int, size: Response -> nat) returns (ps: seq<nat>)
    requires cfg.evidenceFloor >= 100 && cfg.snippetFloor >= 20
    ensures TextsKept(Fitted(p, cfg, budget, size), p, cfg.catalogue, ps)
    ensures CutsAreFlagged(Fitted(p, cfg, budget, size), p, ps)
  {
    ps := NothingIsCutYet(p, cfg.catalogue);
    ps := FittingOnKeepsTexts(p, p, cfg, budget, size, ps);
  }
}
