/** Fitting the compact response into its character budget.

    While the response is too large, the first applicable reduction of a fixed list is made. Dropping
    evidence rebuilds the sources, which restores titles and metadata trimmed before, so no single
    size shrinks in every round; evidence first, then everything else, does. The size measure is a
    parameter: nothing here depends on how the response is serialised. */
module Fitting {
  import opened Wrappers
  import opened Clipping
  import opened Payload

  datatype Config = Config(evidenceFloor: nat, snippetFloor: nat, minimumEvidence: nat, catalogue: Catalogue)

  function ConfigFor(budget: int, minimumEvidence: nat, catalogue: Catalogue): Config {
    Config(if budget < 6_000 then 180 else 300, if budget < 6_000 then 40 else 80, minimumEvidence, catalogue)
  }

  datatype Reduction =
    | DropExpandedSnippet
    | TrimWarnings(keep: nat)
    | TrimUnresolved(keep: nat)
    | TrimCovered(keep: nat)
    | TrimMissing(keep: nat)
    | TrimFailures(keep: nat)
    | DropContradiction
    | DropEvidence(keep: nat)
    | ShrinkEvidence(floor: nat, step: nat)
    | ShrinkSnippet(floor: nat, step: nat)
    | DropSourceMetadata
    | ClipQuery
    | ShrinkSourceTitle
    | ShrinkSnippetTitle
    | ShrinkHeading

  const QUERY_FLOOR := 240
  const TITLE_FLOOR := 60
  const HEADING_FLOOR := 40

  // ---------- Lengths ----------

  function EvidenceTexts(es: seq<Evidence>): seq<nat> {
    seq(|es|, i requires 0 <= i < |es| => |es[i].text|)
  }

  function Headings(es: seq<Evidence>): seq<nat> {
    seq(|es|, i requires 0 <= i < |es| => |OrEmpty(es[i].heading)|)
  }

  function SnippetTexts(ss: seq<Snippet>): seq<nat> {
    seq(|ss|, i requires 0 <= i < |ss| => |OrEmpty(ss[i].text)|)
  }

  function SnippetTitles(ss: seq<Snippet>): seq<nat> {
    seq(|ss|, i requires 0 <= i < |ss| => |ss[i].title|)
  }

  function SourceTitles(ss: seq<Source>): seq<nat> {
    seq(|ss|, i requires 0 <= i < |ss| => |ss[i].title|)
  }

  function MetadataCount(s: Source): nat {
    (if s.publishedAt.Some? then 1 else 0) + (if s.sourceType.Some? then 1 else 0)
  }

  function Metadata(ss: seq<Source>): seq<nat> {
    seq(|ss|, i requires 0 <= i < |ss| => MetadataCount(ss[i]))
  }

  /** The last expanded-query snippet. */
  function LastExpanded(ss: seq<Snippet>): (r: Option<nat>)
    ensures r.None? <==> forall j :: 0 <= j < |ss| ==> ss[j].exact
    ensures r.Some? ==> r.value < |ss| && !ss[r.value].exact && forall j :: r.value < j < |ss| ==> ss[j].exact
  {
    if ss == [] then None
    else if !ss[|ss|-1].exact then Some(|ss| - 1)
    else LastExpanded(ss[..|ss|-1])
  }

  /** The last source that still has metadata. */
  function LastWithMetadata(ss: seq<Source>): (r: Option<nat>)
    ensures r.None? <==> forall j :: 0 <= j < |ss| ==> MetadataCount(ss[j]) == 0
    ensures r.Some? ==> r.value < |ss| && MetadataCount(ss[r.value]) > 0
                        && forall j :: r.value < j < |ss| ==> MetadataCount(ss[j]) == 0
  {
    if ss == [] then None
    else if MetadataCount(ss[|ss|-1]) > 0 then Some(|ss| - 1)
    else LastWithMetadata(ss[..|ss|-1])
  }

  function Shrunk(text: string, floor: nat, step: nat): string {
    ClipText(text, Max(floor, |text| - step))
  }

  function DropLast<T>(xs: seq<T>): seq<T>
    requires xs != []
  {
    xs[..|xs|-1]
  }

  function WithoutMetadatum(s: Source): Source {
    if s.publishedAt.Some? then s.(publishedAt := None) else s.(sourceType := None)
  }

  // ---------- The reductions ----------

  predicate Applicable(p: Response, r: Reduction) {
    match r
    case DropExpandedSnippet => LastExpanded(p.snippets).Some?
    case TrimWarnings(keep) => |p.warnings| > keep
    case TrimUnresolved(keep) => |p.unresolved| > keep
    case TrimCovered(keep) => |p.covered| > keep
    case TrimMissing(keep) => |p.missing| > keep
    case TrimFailures(keep) => |p.failures| > keep
    case DropContradiction => p.contradictions != []
    case DropEvidence(keep) => |p.evidence| > keep
    case ShrinkEvidence(floor, step) => step > 0 && Longest(EvidenceTexts(p.evidence), floor).Some?
    case ShrinkSnippet(floor, step) => step > 0 && Longest(SnippetTexts(p.snippets), floor).Some?
    case DropSourceMetadata => LastWithMetadata(p.sources).Some?
    case ClipQuery => |OrEmpty(p.query)| > QUERY_FLOOR
    case ShrinkSourceTitle => Longest(SourceTitles(p.sources), TITLE_FLOOR).Some?
    case ShrinkSnippetTitle => Longest(SnippetTitles(p.snippets), TITLE_FLOOR).Some?
    case ShrinkHeading => Longest(Headings(p.evidence), HEADING_FLOOR).Some?
  }

  function Reduced(p: Response, cfg: Config, r: Reduction): Response
    requires Applicable(p, r)
  {
    match r
    case DropExpandedSnippet => p.(snippets := Without(p.snippets, LastExpanded(p.snippets).value))
    case TrimWarnings(_) => p.(warnings := DropLast(p.warnings))
    case TrimUnresolved(_) => p.(unresolved := DropLast(p.unresolved))
    case TrimCovered(_) => p.(covered := DropLast(p.covered))
    case TrimMissing(_) => p.(missing := DropLast(p.missing))
    case TrimFailures(_) => p.(failures := DropLast(p.failures))
    case DropContradiction => p.(contradictions := DropLast(p.contradictions))
    case DropEvidence(_) =>
      p.(evidence := DropLast(p.evidence), sources := CompactSources(cfg.catalogue, DropLast(p.evidence)))
    case ShrinkEvidence(floor, step) =>
      var i := Longest(EvidenceTexts(p.evidence), floor).value;
      p.(evidence := p.evidence[i := p.evidence[i].(text := Shrunk(p.evidence[i].text, floor, step))],
         textCompacted := true)
    case ShrinkSnippet(floor, step) =>
      var i := Longest(SnippetTexts(p.snippets), floor).value;
      p.(snippets := p.snippets[i := p.snippets[i].(text := Some(Shrunk(OrEmpty(p.snippets[i].text), floor, step)))],
         textCompacted := true)
    case DropSourceMetadata =>
      var i := LastWithMetadata(p.sources).value;
      p.(sources := p.sources[i := WithoutMetadatum(p.sources[i])])
    case ClipQuery => p.(query := Some(Shrunk(OrEmpty(p.query), QUERY_FLOOR, 120)))
    case ShrinkSourceTitle =>
      var i := Longest(SourceTitles(p.sources), TITLE_FLOOR).value;
      p.(sources := p.sources[i := p.sources[i].(title := Shrunk(p.sources[i].title, TITLE_FLOOR, 60))])
    case ShrinkSnippetTitle =>
      var i := Longest(SnippetTitles(p.snippets), TITLE_FLOOR).value;
      p.(snippets := p.snippets[i := p.snippets[i].(title := Shrunk(p.snippets[i].title, TITLE_FLOOR, 60))])
    case ShrinkHeading =>
      var i := Longest(Headings(p.evidence), HEADING_FLOOR).value;
      var heading := Shrunk(OrEmpty(p.evidence[i].heading), HEADING_FLOOR, 40);
      p.(evidence := p.evidence[i := p.evidence[i].(heading := Some(heading))])
  }

  // The reductions in the order in which they are tried.

  function NoteReductions(): seq<Reduction> {
    [DropExpandedSnippet, TrimWarnings(2), TrimUnresolved(3), TrimCovered(2)]
  }

  function TextReductions(cfg: Config): seq<Reduction> {
    [ShrinkEvidence(cfg.evidenceFloor, 140), ShrinkSnippet(cfg.snippetFloor, 60), DropEvidence(cfg.minimumEvidence)]
  }

  function FindingReductions(): seq<Reduction> {
    [DropContradiction, TrimFailures(1), DropSourceMetadata, ClipQuery]
  }

  function TitleReductions(): seq<Reduction> {
    [ShrinkSourceTitle, ShrinkSnippetTitle, ShrinkHeading]
  }

  function LastNoteReductions(): seq<Reduction> {
    [TrimWarnings(0), TrimUnresolved(0), DropContradiction, TrimFailures(0)]
  }

  function LastTextReductions(): seq<Reduction> {
    [TrimMissing(1), TrimCovered(0), ShrinkEvidence(100, 80), ShrinkSnippet(20, 40), DropEvidence(2)]
  }

  function EarlyReductions(cfg: Config): seq<Reduction> {
    NoteReductions() + TextReductions(cfg)
  }

  function MiddleReductions(): seq<Reduction> {
    FindingReductions() + TitleReductions()
  }

  function LateReductions(): seq<Reduction> {
    LastNoteReductions() + LastTextReductions()
  }

  function Priorities(cfg: Config): (rs: seq<Reduction>)
    ensures |rs| == 23
  {
    EarlyReductions(cfg) + MiddleReductions() + LateReductions()
  }

  /** The first applicable reduction of a list. */
  function FirstOf(p: Response, rs: seq<Reduction>): (r: Option<Reduction>)
    ensures r.Some? ==> Applicable(p, r.value)
  {
    if rs == [] then None
    else if Applicable(p, rs[0]) then Some(rs[0])
    else FirstOf(p, rs[1..])
  }

  function Choice(p: Response, cfg: Config): (r: Option<Reduction>)
    ensures r.Some? ==> Applicable(p, r.value)
  {
    FirstOf(p, Priorities(cfg))
  }

  // ---------- Termination ----------

  function Weight(p: Response): nat {
    |p.covered| + |p.missing| + |p.snippets| + |p.contradictions| + |p.unresolved| + |p.warnings| + |p.failures|
    + Sum(EvidenceTexts(p.evidence)) + Sum(Headings(p.evidence))
    + Sum(SnippetTexts(p.snippets)) + Sum(SnippetTitles(p.snippets))
    + Sum(SourceTitles(p.sources)) + Sum(Metadata(p.sources)) + |OrEmpty(p.query)|
  }

  lemma ShrinkingEvidenceIsLighter(es: seq<Evidence>, i: nat, floor: nat, step: nat)
    requires step > 0 && i < |es| && |es[i].text| > floor
    ensures var es' := es[i := es[i].(text := Shrunk(es[i].text, floor, step))];
            Sum(EvidenceTexts(es')) < Sum(EvidenceTexts(es)) && Headings(es') == Headings(es)
  {
    var es' := es[i := es[i].(text := Shrunk(es[i].text, floor, step))];
    ShrinkingIsStrict(es[i].text, floor, step);
    SumOfUpdate(EvidenceTexts(es), i, |es'[i].text|);
    assert EvidenceTexts(es') == EvidenceTexts(es)[i := |es'[i].text|];
  }

  lemma ShrinkingHeadingIsLighter(es: seq<Evidence>, i: nat, heading: string)
    requires i < |es| && |heading| < |OrEmpty(es[i].heading)|
    ensures var es' := es[i := es[i].(heading := Some(heading))];
            Sum(Headings(es')) < Sum(Headings(es)) && EvidenceTexts(es') == EvidenceTexts(es)
  {
    var es' := es[i := es[i].(heading := Some(heading))];
    SumOfUpdate(Headings(es), i, |heading|);
    assert Headings(es') == Headings(es)[i := |heading|];
    assert EvidenceTexts(es') == EvidenceTexts(es);
  }

  lemma DroppingSnippetIsLighter(ss: seq<Snippet>, i: nat)
    requires i < |ss|
    ensures Sum(SnippetTexts(Without(ss, i))) <= Sum(SnippetTexts(ss))
    ensures Sum(SnippetTitles(Without(ss, i))) <= Sum(SnippetTitles(ss))
  {
    assert SnippetTexts(Without(ss, i)) == Without(SnippetTexts(ss), i);
    assert SnippetTitles(Without(ss, i)) == Without(SnippetTitles(ss), i);
    SumWithout(SnippetTexts(ss), i);
    SumWithout(SnippetTitles(ss), i);
  }

  lemma ShrinkingSnippetIsLighter(ss: seq<Snippet>, i: nat, text: string)
    requires i < |ss| && |text| < |OrEmpty(ss[i].text)|
    ensures var ss' := ss[i := ss[i].(text := Some(text))];
            Sum(SnippetTexts(ss')) < Sum(SnippetTexts(ss)) && SnippetTitles(ss') == SnippetTitles(ss)
  {
    var ss' := ss[i := ss[i].(text := Some(text))];
    SumOfUpdate(SnippetTexts(ss), i, |text|);
    assert SnippetTexts(ss') == SnippetTexts(ss)[i := |text|];
    assert SnippetTitles(ss') == SnippetTitles(ss);
  }

  lemma ShrinkingSnippetTitleIsLighter(ss: seq<Snippet>, i: nat, title: string)
    requires i < |ss| && |title| < |ss[i].title|
    ensures var ss' := ss[i := ss[i].(title := title)];
            Sum(SnippetTitles(ss')) < Sum(SnippetTitles(ss)) && SnippetTexts(ss') == SnippetTexts(ss)
  {
    var ss' := ss[i := ss[i].(title := title)];
    SumOfUpdate(SnippetTitles(ss), i, |title|);
    assert SnippetTitles(ss') == SnippetTitles(ss)[i := |title|];
    assert SnippetTexts(ss') == SnippetTexts(ss);
  }

  lemma ShrinkingSourceTitleIsLighter(ss: seq<Source>, i: nat, title: string)
    requires i < |ss| && |title| < |ss[i].title|
    ensures var ss' := ss[i := ss[i].(title := title)];
            Sum(SourceTitles(ss')) < Sum(SourceTitles(ss)) && Metadata(ss') == Metadata(ss)
  {
    var ss' := ss[i := ss[i].(title := title)];
    SumOfUpdate(SourceTitles(ss), i, |title|);
    assert SourceTitles(ss') == SourceTitles(ss)[i := |title|];
    assert Metadata(ss') == Metadata(ss);
  }

  lemma DroppingMetadataIsLighter(ss: seq<Source>)
    requires LastWithMetadata(ss).Some?
    ensures var i := LastWithMetadata(ss).value;
            var ss' := ss[i := WithoutMetadatum(ss[i])];
            Sum(Metadata(ss')) < Sum(Metadata(ss)) && SourceTitles(ss') == SourceTitles(ss)
  {
    var i := LastWithMetadata(ss).value;
    var ss' := ss[i := WithoutMetadatum(ss[i])];
    SumOfUpdate(Metadata(ss), i, MetadataCount(ss'[i]));
    assert Metadata(ss') == Metadata(ss)[i := MetadataCount(ss'[i])];
  }

  /** Each reduction either drops evidence, or keeps it and makes everything else strictly lighter. */
  lemma ReductionsMakeProgress(p: Response, cfg: Config, r: Reduction)
    requires Applicable(p, r)
    ensures var q := Reduced(p, cfg, r);
            |q.evidence| < |p.evidence| || (|q.evidence| == |p.evidence| && Weight(q) < Weight(p))
  {
    match r
    case DropExpandedSnippet => DroppingSnippetIsLighter(p.snippets, LastExpanded(p.snippets).value);
    case ShrinkEvidence(floor, step) =>
      ShrinkingEvidenceIsLighter(p.evidence, Longest(EvidenceTexts(p.evidence), floor).value, floor, step);
    case ShrinkHeading =>
      var i := Longest(Headings(p.evidence), HEADING_FLOOR).value;
      var heading := OrEmpty(p.evidence[i].heading);
      ShrinkingIsStrict(heading, HEADING_FLOOR, 40);
      ShrinkingHeadingIsLighter(p.evidence, i, Shrunk(heading, HEADING_FLOOR, 40));
    case ShrinkSnippet(floor, step) =>
      var i := Longest(SnippetTexts(p.snippets), floor).value;
      var text := OrEmpty(p.snippets[i].text);
      ShrinkingIsStrict(text, floor, step);
      ShrinkingSnippetIsLighter(p.snippets, i, Shrunk(text, floor, step));
    case ShrinkSnippetTitle =>
      var i := Longest(SnippetTitles(p.snippets), TITLE_FLOOR).value;
      ShrinkingIsStrict(p.snippets[i].title, TITLE_FLOOR, 60);
      ShrinkingSnippetTitleIsLighter(p.snippets, i, Shrunk(p.snippets[i].title, TITLE_FLOOR, 60));
    case ShrinkSourceTitle =>
      var i := Longest(SourceTitles(p.sources), TITLE_FLOOR).value;
      ShrinkingIsStrict(p.sources[i].title, TITLE_FLOOR, 60);
      ShrinkingSourceTitleIsLighter(p.sources, i, Shrunk(p.sources[i].title, TITLE_FLOOR, 60));
    case DropSourceMetadata => DroppingMetadataIsLighter(p.sources);
    case ClipQuery => ShrinkingIsStrict(OrEmpty(p.query), QUERY_FLOOR, 120);
    case _ =>
  }

  // ---------- Fitting ----------

  /** Reduces until the response fits, or until nothing is left to reduce and the excess is flagged. */
  function Fitted(p: Response, cfg: Config, budget: int, size: Response -> nat): Response
    decreases |p.evidence|, Weight(p)
  {
    if size(p) <= budget then p
    else
      match Choice(p, cfg)
      case None => p.(budgetExceeded := true)
      case Some(r) =>
        ReductionsMakeProgress(p, cfg, r);
        Fitted(Reduced(p, cfg, r), cfg, budget, size)
  }
}
