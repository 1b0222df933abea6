/** Fitting step by step: each step takes one thing, and is taken only while the response is too large. */
module FittingSteps {
  import opened Payload
  import opened Fitting

  // ---------- One step ----------

  /** The numbers of items in the lists of a response. */
  function Notes(p: Response): nat {
    |p.covered| + |p.missing| + |p.contradictions| + |p.unresolved| + |p.warnings| + |p.failures|
  }

  /** The lists of notes are beginnings, one of them a single item shorter, if `dropped`. */
  ghost predicate NotesShrink(p: Response, q: Response, dropped: bool) {
    && q.covered <= p.covered && q.missing <= p.missing && q.contradictions <= p.contradictions
    && q.unresolved <= p.unresolved && q.warnings <= p.warnings && q.failures <= p.failures
    && Notes(p) == Notes(q) + if dropped then 1 else 0
  }

  /** The list is the same, except for one item. */
  ghost predicate DifferInOne<T>(xs: seq<T>, ys: seq<T>) {
    |xs| == |ys| && exists i :: 0 <= i < |xs| && ys == xs[i := ys[i]]
  }

  /** One note less; one expanded snippet less; the last evidence record less, with the sources of the others; or one
      record, one snippet, one source or the query shortened: and everything else as it was. */
  ghost predicate TakesOneThing(p: Response, q: Response, catalogue: Catalogue) {
    var rest := q == p.(covered := q.covered, missing := q.missing, contradictions := q.contradictions,
                        unresolved := q.unresolved, warnings := q.warnings, failures := q.failures,
                        snippets := q.snippets, evidence := q.evidence, sources := q.sources, query := q.query,
                        textCompacted := q.textCompacted);
    var noNote, sameSnippets := NotesShrink(p, q, false), q.snippets == p.snippets;
    var sameEvidence, sameSources := q.evidence == p.evidence, q.sources == p.sources;
    var sameQuery := q.query == p.query;
    rest
    && (|| (NotesShrink(p, q, true) && sameSnippets && sameEvidence && sameSources && sameQuery)
        || (noNote && OneSnippetLess(p.snippets, q.snippets) && sameEvidence && sameSources && sameQuery)
        || (noNote && sameSnippets && OneRecordLess(p, q, catalogue) && sameQuery)
        || (noNote && sameSnippets && DifferInOne(p.evidence, q.evidence) && sameSources && sameQuery)
        || (noNote && DifferInOne(p.snippets, q.snippets) && sameEvidence && sameSources && sameQuery)
        || (noNote && sameSnippets && sameEvidence && DifferInOne(p.sources, q.sources) && sameQuery)
        || (noNote && sameSnippets && sameEvidence && sameSources))
  }

  ghost predicate OneSnippetLess(ss: seq<Snippet>, rest: seq<Snippet>) {
    exists i :: 0 <= i < |ss| && rest == Without(ss, i) && !ss[i].exact && forall j :: i < j < |ss| ==> ss[j].exact
  }

  ghost predicate OneRecordLess(p: Response, q: Response, catalogue: Catalogue) {
    && |q.evidence| == |p.evidence| - 1 && q.evidence <= p.evidence
    && q.sources == CompactSources(catalogue, q.evidence)
  }

  lemma ReductionTakesOneThing(p: Response, cfg: Config, r: Reduction)
    requires Applicable(p, r)
    ensures TakesOneThing(p, Reduced(p, cfg, r), cfg.catalogue)
  {
    var q := Reduced(p, cfg, r);
    match r
    case DropExpandedSnippet =>
      assert OneSnippetLess(p.snippets, q.snippets);
    case ShrinkEvidence(floor, _) =>
      ChangingOne(p.evidence, Longest(EvidenceTexts(p.evidence), floor).value, q.evidence);
    case ShrinkHeading => ChangingOne(p.evidence, Longest(Headings(p.evidence), HEADING_FLOOR).value, q.evidence);
    case ShrinkSnippet(floor, _) =>
      ChangingOne(p.snippets, Longest(SnippetTexts(p.snippets), floor).value, q.snippets);
    case ShrinkSnippetTitle =>
      ChangingOne(p.snippets, Longest(SnippetTitles(p.snippets), TITLE_FLOOR).value, q.snippets);
    case ShrinkSourceTitle => ChangingOne(p.sources, Longest(SourceTitles(p.sources), TITLE_FLOOR).value, q.sources);
    case DropSourceMetadata => ChangingOne(p.sources, LastWithMetadata(p.sources).value, q.sources);
    case _ =>
  }

  lemma ChangingOne<T>(xs: seq<T>, i: nat, ys: seq<T>)
    requires i < |xs| == |ys| && ys == xs[i := ys[i]]
    ensures DifferInOne(xs, ys)
  {
  }

  // ---------- The whole fitting ----------

  /** Every state but the last is too large and followed by its first applicable reduction. */
  ghost predicate AreSteps(ss: seq<Response>, cfg: Config, budget: int, size: Response -> nat) {
    forall i, j :: 0 <= i && j == i + 1 && j < |ss| ==> IsStep(ss[i], ss[j], cfg, budget, size)
  }

  ghost predicate IsStep(p: Response, q: Response, cfg: Config, budget: int, size: Response -> nat) {
    && size(p) > budget && Choice(p, cfg).Some? && q == Reduced(p, cfg, Choice(p, cfg).value)
    && TakesOneThing(p, q, cfg.catalogue)
  }

  lemma StepBehind(p: Response, ss: seq<Response>, cfg: Config, budget: int, size: Response -> nat)
    requires ss != [] && AreSteps(ss, cfg, budget, size)
    requires IsStep(p, ss[0], cfg, budget, size)
    ensures AreSteps([p] + ss, cfg, budget, size)
  {
    var all := [p] + ss;
    forall i, j | 0 <= i && j == i + 1 && j < |all| ensures IsStep(all[i], all[j], cfg, budget, size) {
      if i > 0 { assert all[i] == ss[i-1] && all[j] == ss[j-1] && IsStep(ss[i-1], ss[j-1], cfg, budget, size); }
    }
  }

  /** Fitting takes one thing at a time, each only because the response was still too large, and ends with the first
      state that fits or has nothing left to take, which is then flagged. */
  lemma {:induction false} FittingTakesOneThingAtATime(p: Response, cfg: Config, budget: int, size: Response -> nat)
    returns (ss: seq<Response>)
    ensures ss != [] && ss[0] == p && AreSteps(ss, cfg, budget, size)
    ensures var last := ss[|ss|-1];
            if size(last) <= budget then Fitted(p, cfg, budget, size) == last
            else Choice(last, cfg).None? && Fitted(p, cfg, budget, size) == last.(budgetExceeded := true)
    decreases |p.evidence|, Weight(p)
  {
    var c := Choice(p, cfg);
    ss := [p];
    if size(p) > budget && c.Some? {
      ReductionsMakeProgress(p, cfg, c.value);
      ReductionTakesOneThing(p, cfg, c.value);
      var rest := FittingTakesOneThingAtATime(Reduced(p, cfg, c.value), cfg, budget, size);
      StepBehind(p, rest, cfg, budget, size);
      ss := [p] + rest;
    }
  }
}
