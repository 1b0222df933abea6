/** Which budgets a compacted response can exceed without saying so. */
module MissedBudget {
  import opened Wrappers
  import opened Clipping
  import opened Payload
  import opened Fitting
  import opened FittingProperties
  import opened FittingOrder
  import opened FittingLoop
  import opened Json
  import opened JsonLengths
  import opened TwoPassFit
  import opened ResponseChars
  import opened EarlyTrimming
  import opened PackageForms

  // ---------- What dropping an item saves ----------

  const EVIDENCE_SAVES := 40
  const SNIPPET_SAVES := 40

  lemma EvidenceIsLong(e: Evidence)
    ensures |Dump(EvidenceJson(e))| >= EVIDENCE_SAVES
  {
    var ms := EvidenceJson(e).members;
    PrintedObject(ms);
    ThreeKeys(ms);
  }

  lemma SnippetIsLong(s: Snippet)
    ensures |Dump(SnippetJson(s))| >= SNIPPET_SAVES
  {
    var ms := SnippetJson(s).members;
    PrintedObject(ms);
    FourKeys(ms);
  }

  lemma DroppingSnippetSaves(ss: seq<Snippet>, i: nat)
    requires i < |ss|
    ensures ListChars(SnippetsJson(Without(ss, i))) + SNIPPET_SAVES <= ListChars(SnippetsJson(ss))
  {
    var items := SnippetsJson(ss);
    SnippetIsLong(ss[i]);
    RemovingSaves(items, i);
    assert SnippetsJson(Without(ss, i)) == items[..i] + items[i+1..];
  }

  lemma DroppingEvidenceSaves(es: seq<Evidence>)
    requires es != []
    ensures ListChars(EvidencesJson(DropLast(es))) + EVIDENCE_SAVES <= ListChars(EvidencesJson(es))
  {
    var items, n := EvidencesJson(es), |es| - 1;
    EvidenceIsLong(es[n]);
    RemovingSaves(items, n);
    assert EvidencesJson(DropLast(es)) == items[..n] + items[n+1..];
  }

  lemma {:induction false} KnownAppend(catalogue: Catalogue, xs: seq<string>, ys: seq<string>)
    ensures CompactKnown(catalogue, xs + ys) == CompactKnown(catalogue, xs) + CompactKnown(catalogue, ys)
  {
    if xs == [] {
      assert xs + ys == ys;
    } else {
      var all := xs + ys;
      assert all[0] == xs[0] && all[1..] == xs[1..] + ys;
      var head := if xs[0] in catalogue then [CompactSource(catalogue[xs[0]])] else [];
      assert CompactKnown(catalogue, all) == head + CompactKnown(catalogue, all[1..]);
      KnownAppend(catalogue, xs[1..], ys);
    }
  }

  /** Without the last evidence the sources are a beginning of what they were. */
  lemma FewerSources(catalogue: Catalogue, es: seq<Evidence>)
    requires es != []
    ensures CompactSources(catalogue, DropLast(es)) <= CompactSources(catalogue, es)
  {
    var ids := SourceIds(es);
    assert SourceIds(DropLast(es)) == ids[..|ids|-1];
    var before, all := FirstUse(ids[..|ids|-1]), FirstUse(ids);
    assert all == before + all[|before|..];
    KnownAppend(catalogue, before, all[|before|..]);
  }

  /** The sources are those of the evidence, with their titles and metadata. */
  ghost predicate Fresh(p: Response, catalogue: Catalogue) {
    p.sources == CompactSources(catalogue, p.evidence)
  }

  lemma SameInfo(p: Response, q: Response)
    requires p.frame == q.frame && p.textCompacted == q.textCompacted && p.budgetExceeded == q.budgetExceeded
    ensures InfoChars(q) == InfoChars(p)
  {
    assert Guidance(q) == Guidance(p) && FlagInfo(q) == FlagInfo(p);
  }

  lemma DroppingFreshEvidenceSaves(p: Response, cfg: Config, keep: nat)
    requires p.query.None? && Fresh(p, cfg.catalogue) && |p.evidence| > keep
    ensures JsonChars(Reduced(p, cfg, DropEvidence(keep))) + EVIDENCE_SAVES <= JsonChars(p)
  {
    var q := Reduced(p, cfg, DropEvidence(keep));
    CharsDifference(p, q);
    DroppingEvidenceSaves(p.evidence);
    FewerSources(cfg.catalogue, p.evidence);
    assert SourcesJson(q.sources) <= SourcesJson(p.sources);
    PrefixIsNoLonger(SourcesJson(q.sources), SourcesJson(p.sources));
    SameInfo(p, q);
  }

  lemma DroppingExpandedSaves(p: Response, cfg: Config)
    requires p.query.None? && Applicable(p, DropExpandedSnippet)
    ensures JsonChars(Reduced(p, cfg, DropExpandedSnippet)) + SNIPPET_SAVES <= JsonChars(p)
  {
    var q := Reduced(p, cfg, DropExpandedSnippet);
    CharsDifference(p, q);
    DroppingSnippetSaves(p.snippets, LastExpanded(p.snippets).value);
    SameInfo(p, q);
  }

  lemma ShrinkingEvidenceIsNoLonger(p: Response, cfg: Config, r: Reduction)
    requires p.query.None? && Applicable(p, r) && r.ShrinkEvidence?
    ensures JsonChars(Reduced(p, cfg, r)) <= JsonChars(p)
  {
    var q := Reduced(p, cfg, r);
    CharsDifference(p, q);
    ShrunkEvidence(p.evidence, Longest(EvidenceTexts(p.evidence), r.floor).value, r.floor, r.step);
    RemarkIsNoLonger(p);
    SameInfo(p.(textCompacted := true), q);
  }

  lemma ShrinkingSnippetIsNoLonger(p: Response, cfg: Config, r: Reduction)
    requires p.query.None? && Applicable(p, r) && r.ShrinkSnippet?
    ensures JsonChars(Reduced(p, cfg, r)) <= JsonChars(p)
  {
    var q := Reduced(p, cfg, r);
    CharsDifference(p, q);
    ShrunkSnippet(p.snippets, Longest(SnippetTexts(p.snippets), r.floor).value, r.floor, r.step);
    RemarkIsNoLonger(p);
    SameInfo(p.(textCompacted := true), q);
  }

  lemma FewerWarnings(p: Response)
    requires p.query.None? && p.warnings != []
    ensures JsonChars(p.(warnings := DropLast(p.warnings))) <= JsonChars(p)
  {
    var q := p.(warnings := DropLast(p.warnings));
    CharsDifference(p, q);
    SameInfo(p, q);
    TrimmedTexts(p.warnings);
  }

  lemma FewerQuestions(p: Response)
    requires p.query.None? && p.unresolved != []
    ensures JsonChars(p.(unresolved := DropLast(p.unresolved))) <= JsonChars(p)
  {
    var q := p.(unresolved := DropLast(p.unresolved));
    CharsDifference(p, q);
    SameInfo(p, q);
    TrimmedTexts(p.unresolved);
  }

  lemma FewerTopics(p: Response)
    requires p.query.None? && p.covered != []
    ensures JsonChars(p.(covered := DropLast(p.covered))) <= JsonChars(p)
  {
    var q := p.(covered := DropLast(p.covered));
    CharsDifference(p, q);
    SameInfo(p, q);
    TrimmedTexts(p.covered);
  }

  lemma EarlyIsNoLonger(p: Response, cfg: Config, r: Reduction)
    requires p.query.None? && Applicable(p, r) && Early(r)
    ensures JsonChars(Reduced(p, cfg, r)) <= JsonChars(p)
  {
    match r
    case DropExpandedSnippet => DroppingExpandedSaves(p, cfg);
    case ShrinkEvidence(_, _) => ShrinkingEvidenceIsNoLonger(p, cfg, r);
    case ShrinkSnippet(_, _) => ShrinkingSnippetIsNoLonger(p, cfg, r);
    case TrimWarnings(_) => FewerWarnings(p);
    case TrimUnresolved(_) => FewerQuestions(p);
    case TrimCovered(_) => FewerTopics(p);
  }

  // ---------- The first reductions, as long as there is evidence to spare ----------

  /** While there is more evidence than the minimum, only the first reductions of the list are made. */
  lemma EarlyChoice(p: Response, cfg: Config)
    requires |p.evidence| > cfg.minimumEvidence
    ensures Choice(p, cfg).Some?
    ensures Early(Choice(p, cfg).value) || Choice(p, cfg).value == DropEvidence(cfg.minimumEvidence)
  {
    FirstOfAppend(p, EarlyReductions(cfg) + MiddleReductions(), LateReductions());
    FirstOfAppend(p, EarlyReductions(cfg), MiddleReductions());
    var k := FirstOfIsFirst(p, EarlyReductions(cfg));
    assert EarlyReductions(cfg)[6] == DropEvidence(cfg.minimumEvidence);
  }

  lemma EarlyKeepsFresh(p: Response, cfg: Config, r: Reduction)
    requires Applicable(p, r) && (Early(r) || r.DropEvidence?) && Fresh(p, cfg.catalogue)
    ensures Fresh(Reduced(p, cfg, r), cfg.catalogue) && Reduced(p, cfg, r).query == p.query
    ensures Early(r) ==> |Reduced(p, cfg, r).evidence| == |p.evidence|
  {
    assert SourceIds(Reduced(p, cfg, r).evidence) == if Early(r) then SourceIds(p.evidence)
      else SourceIds(DropLast(p.evidence));
  }

  /** Sources lose titles or metadata only after the evidence is down to the minimum. */
  lemma {:induction false} FreshWhileMany(p: Response, cfg: Config, budget: int)
    requires p.query.None? && Fresh(p, cfg.catalogue)
    ensures Fitted(p, cfg, budget, JsonChars).query.None?
    ensures |Fitted(p, cfg, budget, JsonChars).evidence| > cfg.minimumEvidence
            ==> Fresh(Fitted(p, cfg, budget, JsonChars), cfg.catalogue)
    decreases |p.evidence|, Weight(p)
  {
    FittingKeeps(p, cfg, budget, JsonChars);
    QueryStaysAbsent(p, cfg, budget);
    if JsonChars(p) > budget && |p.evidence| > cfg.minimumEvidence {
      EarlyChoice(p, cfg);
      var r := Choice(p, cfg).value;
      EarlyKeepsFresh(p, cfg, r);
      ReductionsMakeProgress(p, cfg, r);
      FreshWhileMany(Reduced(p, cfg, r), cfg, budget);
    }
  }

  lemma {:induction false} QueryStaysAbsent(p: Response, cfg: Config, budget: int)
    requires p.query.None?
    ensures Fitted(p, cfg, budget, JsonChars).query.None?
    decreases |p.evidence|, Weight(p)
  {
    var c := Choice(p, cfg);
    if JsonChars(p) > budget && c.Some? {
      ReductionsMakeProgress(p, cfg, c.value);
      QueryStaysAbsent(Reduced(p, cfg, c.value), cfg, budget);
    }
  }

  /** From a small excess, with evidence to spare and its sources complete, fitting keeps all evidence
      or ends well within the budget. */
  lemma {:induction false} SpareEvidenceFits(p: Response, cfg: Config, budget: int, excess: nat)
    requires p.query.None? && Fresh(p, cfg.catalogue) && |p.evidence| > cfg.minimumEvidence
    requires JsonChars(p) <= budget + excess && excess <= EVIDENCE_SAVES
    ensures var q := Fitted(p, cfg, budget, JsonChars);
            |q.evidence| == |p.evidence| || JsonChars(q) <= budget + excess - EVIDENCE_SAVES
    decreases |p.evidence|, Weight(p)
  {
    if JsonChars(p) > budget {
      EarlyChoice(p, cfg);
      var r := Choice(p, cfg).value;
      var next := Reduced(p, cfg, r);
      ReductionsMakeProgress(p, cfg, r);
      if Early(r) {
        EarlyIsNoLonger(p, cfg, r);
        EarlyKeepsFresh(p, cfg, r);
        SpareEvidenceFits(next, cfg, budget, excess);
      } else {
        DroppingFreshEvidenceSaves(p, cfg, cfg.minimumEvidence);
      }
    }
  }

  // ---------- Snippets ----------

  lemma ExpandedGoFirst(p: Response, cfg: Config)
    requires Applicable(p, DropExpandedSnippet)
    ensures Choice(p, cfg) == Some(DropExpandedSnippet)
  {
    assert Priorities(cfg)[0] == DropExpandedSnippet;
  }

  /** From a small excess, dropping one snippet is enough. */
  lemma SpareSnippetFits(p: Response, cfg: Config, budget: int, excess: nat)
    requires p.query.None? && Applicable(p, DropExpandedSnippet)
    requires budget < JsonChars(p) <= budget + excess && excess <= SNIPPET_SAVES
    ensures var q := Fitted(p, cfg, budget, JsonChars);
            |q.evidence| == |p.evidence| && |q.snippets| + 1 == |p.snippets|
              && JsonChars(q) <= budget + excess - SNIPPET_SAVES
  {
    ExpandedGoFirst(p, cfg);
    DroppingExpandedSaves(p, cfg);
  }

  lemma {:induction false} ExactSnippetsStay(p: Response, cfg: Config, budget: int)
    requires !Expanded(p.snippets)
    ensures |Fitted(p, cfg, budget, JsonChars).snippets| == |p.snippets|
    decreases |p.evidence|, Weight(p)
  {
    var c := Choice(p, cfg);
    if JsonChars(p) > budget && c.Some? {
      ReductionsMakeProgress(p, cfg, c.value);
      NoExpandedPersists(p, cfg, c.value);
      assert !Applicable(p, DropExpandedSnippet);
      ExactSnippetsStay(Reduced(p, cfg, c.value), cfg, budget);
    }
  }

  // ---------- Digits ----------

  lemma DigitsOfSmall(n: nat)
    requires n < 100_000
    ensures Digits(n) == if n < 10 then 1 else if n < 100 then 2 else if n < 1000 then 3 else if n < 10_000 then 4
            else 5
  {
    if n >= 10 {
      assert Digits(n) == Digits(n / 10) + 1;
      DigitsOfSmall(n / 10);
    }
  }

  lemma SizeKeyIsPlain()
    ensures Plain(KEYS.size) && |KEYS.size| == 16
  {
  }

  lemma SizeKey()
    ensures |Quoted(KEYS.size)| == 18
  {
    SizeKeyIsPlain();
    PlainQuoted(KEYS.size);
  }

  // ---------- Responses as they are built before they are fitted ----------

  const LEAST_BUDGET := 4_000
  const GREATEST_BUDGET := 50_000
  predicate Permitted(budget: int) {
    LEAST_BUDGET <= budget <= GREATEST_BUDGET
  }

  function MinimumEvidence(p: Response, budget: int): nat {
    Min(|p.evidence|, if budget >= 6_000 && |p.covered| >= 4 then 6 else 4)
  }

  /** A response as it is built from a package of so many evidence records and snippets. */
  ghost predicate Built(p: Response, catalogue: Catalogue, budget: int, evidenceTotal: nat, snippetTotal: nat) {
    && p.frame.contextBudget == budget && p.query.None? && Fresh(p, catalogue)
    && |p.evidence| == evidenceTotal && |p.snippets| <= snippetTotal
    && p.omittedEvidence == 0 && p.omittedSnippets == snippetTotal - |p.snippets|
    && p.serializedChars.None? && !p.budgetExceeded
  }

  function Returned(p: Response, catalogue: Catalogue, budget: int, evidenceTotal: nat, snippetTotal: nat): Response {
    Compacted(p, ConfigFor(budget, MinimumEvidence(p, budget), catalogue), budget, evidenceTotal, snippetTotal)
  }

  /** Longer than the budget, without the flag. */
  ghost predicate Misses(q: Response, budget: int) {
    !q.budgetExceeded && JsonChars(q) > budget
  }

  /** A power of ten lies at most 25 below the budget: the size can gain a digit while it is written. */
  predicate JustAboveAPower(budget: int) {
    10_000 <= budget <= 10_025
  }

  /** Ten records are omitted once the last ones go, and at most nine while the minimum is kept. */
  predicate OmissionsGainADigit(budget: int, evidenceTotal: nat) {
    12 <= evidenceTotal <= if budget < 6_000 then 13 else 15
  }

  // ---------- When the counters keep their digits ----------

  /** After the first pass: the size that was written, and what writing it added. */
  lemma FirstPassSize(f: Response, evidenceTotal: nat, snippetTotal: nat)
    requires f.serializedChars.None?
    ensures var first := Rewritten(f, evidenceTotal, snippetTotal);
            var size := first.serializedChars.value;
            && JsonChars(first) == size + 22 + Digits(size)
            && size - JsonChars(f) == Digits(first.omittedEvidence) + Digits(first.omittedSnippets)
                                      - Digits(f.omittedEvidence) - Digits(f.omittedSnippets)
  {
    var first := Rewritten(f, evidenceTotal, snippetTotal);
    var counted := first.(serializedChars := None);
    SizeKey();
    assert first == counted.(serializedChars := Some(JsonChars(counted)));
    SizeKeyCosts(counted, JsonChars(counted));
    SizeKeyCosts(counted, 0);
    SizeKeyCosts(f, 0);
    assert counted.(serializedChars := Some(0)) == Recounted(f.(serializedChars := Some(0)), first.omittedEvidence,
      first.omittedSnippets, 0);
    RecountingCostsDigits(f.(serializedChars := Some(0)), first.omittedEvidence, first.omittedSnippets, 0);
  }

  predicate SameCounters(p: Response, q: Response) {
    p.omittedEvidence == q.omittedEvidence && p.omittedSnippets == q.omittedSnippets
      && p.serializedChars == q.serializedChars
  }

  /** If the second fit changes no counter's number of digits, what it leaves misses the budget only where
      its own size gains a digit. */
  lemma OnlyTheSizeGainsADigit(first: Response, f: Response, budget: int, evidenceTotal: nat, snippetTotal: nat)
    requires Permitted(budget) && first.serializedChars.Some? && SameCounters(first, f)
    requires JsonChars(first) == first.serializedChars.value + 22 + Digits(first.serializedChars.value)
    requires JsonChars(f) <= budget && JsonChars(f) <= JsonChars(first)
    requires Digits(Omitted(evidenceTotal, |f.evidence|)) == Digits(first.omittedEvidence)
    requires Digits(Omitted(snippetTotal, |f.snippets|)) == Digits(first.omittedSnippets)
    ensures JsonChars(Rewritten(f, evidenceTotal, snippetTotal)) > budget ==> JustAboveAPower(budget)
  {
    RewritingCostsDigits(f, evidenceTotal, snippetTotal);
    SizeGains(first.serializedChars.value, JsonChars(f), budget);
  }

  /** A size that fits and is not much greater than the one written first gains a digit and reaches the budget
      only just above a power of ten. */
  lemma SizeGains(written: nat, size: nat, budget: int)
    requires Permitted(budget) && size <= budget && size <= written + 22 + Digits(written)
    ensures size + Digits(size) - Digits(written) > budget ==> JustAboveAPower(budget)
  {
    DigitsOfSmall(size);
    if written < 100_000 { DigitsOfSmall(written); } else { DigitsGrow(size, written); }
  }

  /** Well below the budget no growth of the counters matters. */
  lemma RewritingFitsBelow(f: Response, budget: int, evidenceTotal: nat, snippetTotal: nat)
    requires Permitted(budget) && evidenceTotal <= MOST_EVIDENCE && snippetTotal <= MOST_SNIPPETS
    requires f.serializedChars.Some? && JsonChars(f) <= budget - 9
    ensures JsonChars(Rewritten(f, evidenceTotal, snippetTotal)) <= budget
  {
    var q := Rewritten(f, evidenceTotal, snippetTotal);
    RewritingCostsDigits(f, evidenceTotal, snippetTotal);
    DigitsOfSmall(q.omittedEvidence);
    DigitsOfSmall(q.omittedSnippets);
    DigitsArePositive(f.omittedEvidence);
    DigitsArePositive(f.omittedSnippets);
    DigitsArePositive(f.serializedChars.value);
    DigitsOfSmall(q.serializedChars.value);
  }

  lemma DigitsArePositive(n: nat)
    ensures Digits(n) >= 1
  {
  }

  /** The first pass leaves at most a small excess over the budget. */
  lemma FirstPassFits(p: Response, cfg: Config, budget: int, evidenceTotal: nat, snippetTotal: nat)
    requires Permitted(budget) && evidenceTotal <= MOST_EVIDENCE && snippetTotal <= MOST_SNIPPETS
    requires p.serializedChars.None? && JsonChars(Fitted(p, cfg, budget, JsonChars)) <= budget
    ensures JsonChars(Pass(p, cfg, budget, evidenceTotal, snippetTotal)) <= budget + 31
  {
    var f := Fitted(p, cfg, budget, JsonChars);
    var first := Rewritten(f, evidenceTotal, snippetTotal);
    FittingKeeps(p, cfg, budget, JsonChars);
    FirstPassSize(f, evidenceTotal, snippetTotal);
    DigitsOfSmall(first.omittedEvidence);
    DigitsOfSmall(first.omittedSnippets);
    DigitsArePositive(f.omittedEvidence);
    DigitsArePositive(f.omittedSnippets);
    DigitsOfSmall(first.serializedChars.value);
  }

  /** A minimum as the budget and the number of records determine it. */
  predicate MinimumOf(budget: int, total: nat, minimum: nat) {
    Min(total, 4) <= minimum <= Min(total, if budget < 6_000 then 4 else 6)
  }

  /** With no more evidence than the minimum, the counter of omitted records keeps its digits. */
  lemma OmissionsKeepTheirDigits(budget: int, total: nat, minimum: nat, before: nat, after: nat)
    requires !OmissionsGainADigit(budget, total) && total <= MOST_EVIDENCE && MinimumOf(budget, total, minimum)
    requires Min(total, Min(2, minimum)) <= before <= minimum && Min(before, Min(2, minimum)) <= after <= before
    ensures Digits(total - after) == Digits(total - before)
  {
    DigitsOfSmall(total - after);
    DigitsOfSmall(total - before);
  }

  /** Fitting leaves two records, or as many as the minimum if that is less. */
  lemma TwoRemain(p: Response, cfg: Config, budget: int)
    ensures Min(|p.evidence|, Min(2, cfg.minimumEvidence)) <= |Fitted(p, cfg, budget, JsonChars).evidence|
            && |Fitted(p, cfg, budget, JsonChars).evidence| <= |p.evidence|
  {
    FittingKeeps(p, cfg, budget, JsonChars);
    FittingGivesUpInOrder(p, cfg, budget, JsonChars);
  }

  /** The second fit, when it has to trim, ends well below the budget, or drops no snippet and no evidence
      above the minimum. */
  ghost predicate Settles(first: Response, f: Response, budget: int, minimum: nat) {
    || JsonChars(f) <= budget - 9
    || (|f.snippets| == |first.snippets|
        && (|f.evidence| == |first.evidence|
            || Min(|first.evidence|, Min(2, minimum)) <= |f.evidence| <= |first.evidence| <= minimum))
  }

  lemma SecondFitSettles(first: Response, cfg: Config, budget: int)
    requires first.query.None? && budget < JsonChars(first) <= budget + 31
    requires |first.evidence| > cfg.minimumEvidence ==> Fresh(first, cfg.catalogue)
    ensures Settles(first, Fitted(first, cfg, budget, JsonChars), budget, cfg.minimumEvidence)
  {
    if Applicable(first, DropExpandedSnippet) {
      SpareSnippetFits(first, cfg, budget, 31);
    } else {
      ExactSnippetsStay(first, cfg, budget);
      if |first.evidence| > cfg.minimumEvidence {
        SpareEvidenceFits(first, cfg, budget, 31);
      } else {
        TwoRemain(first, cfg, budget);
      }
    }
  }

  /** Writing the counters again keeps a fitted response within the budget. */
  lemma RewritingFits(first: Response, f: Response, budget: int, total: nat, snippetTotal: nat, minimum: nat)
    requires Permitted(budget) && total <= MOST_EVIDENCE && snippetTotal <= MOST_SNIPPETS
    requires !JustAboveAPower(budget) && !OmissionsGainADigit(budget, total) && MinimumOf(budget, total, minimum)
    requires first.serializedChars.Some? && SameCounters(first, f) && |f.evidence| <= |first.evidence|
    requires JsonChars(first) == first.serializedChars.value + 22 + Digits(first.serializedChars.value)
    requires Min(total, Min(2, minimum)) <= |first.evidence| <= total
    requires first.omittedEvidence == total - |first.evidence|
    requires first.omittedSnippets == Omitted(snippetTotal, |first.snippets|)
    requires JsonChars(f) <= budget && JsonChars(f) <= JsonChars(first)
    requires JsonChars(first) <= budget ==> f == first
    requires JsonChars(first) > budget ==> Settles(first, f, budget, minimum)
    ensures JsonChars(Rewritten(f, total, snippetTotal)) <= budget
  {
    if JsonChars(f) <= budget - 9 {
      RewritingFitsBelow(f, budget, total, snippetTotal);
    } else {
      if |f.evidence| != |first.evidence| {
        OmissionsKeepTheirDigits(budget, total, minimum, |first.evidence|, |f.evidence|);
      }
      OnlyTheSizeGainsADigit(first, f, budget, total, snippetTotal);
    }
  }

  /** The second pass, from a response that fits or nearly fits. */
  lemma SecondPassFits(first: Response, cfg: Config, budget: int, total: nat, snippetTotal: nat)
    requires Permitted(budget) && total <= MOST_EVIDENCE && snippetTotal <= MOST_SNIPPETS
    requires !JustAboveAPower(budget) && !OmissionsGainADigit(budget, total)
    requires MinimumOf(budget, total, cfg.minimumEvidence) && first.serializedChars.Some? && first.query.None?
    requires JsonChars(first) == first.serializedChars.value + 22 + Digits(first.serializedChars.value) <= budget + 31
    requires Min(total, Min(2, cfg.minimumEvidence)) <= |first.evidence| <= total
    requires first.omittedEvidence == total - |first.evidence|
    requires first.omittedSnippets == Omitted(snippetTotal, |first.snippets|)
    requires |first.evidence| > cfg.minimumEvidence ==> Fresh(first, cfg.catalogue)
    requires JsonChars(Fitted(first, cfg, budget, JsonChars)) <= budget
    ensures JsonChars(Rewritten(Fitted(first, cfg, budget, JsonChars), total, snippetTotal)) <= budget
  {
    FittingKeeps(first, cfg, budget, JsonChars);
    if JsonChars(first) > budget { SecondFitSettles(first, cfg, budget); }
    RewritingFits(first, Fitted(first, cfg, budget, JsonChars), budget, total, snippetTotal, cfg.minimumEvidence);
  }

  /** Where neither the size nor the number of omitted records can gain a digit, a response that is not
      flagged is within its budget. */
  lemma UnflaggedIsWithinTheBudget(p: Response, catalogue: Catalogue, budget: int, evidenceTotal: nat,
                                   snippetTotal: nat)
    requires Permitted(budget) && evidenceTotal <= MOST_EVIDENCE && snippetTotal <= MOST_SNIPPETS
    requires Built(p, catalogue, budget, evidenceTotal, snippetTotal)
    requires !JustAboveAPower(budget) && !OmissionsGainADigit(budget, evidenceTotal)
    ensures !Misses(Returned(p, catalogue, budget, evidenceTotal, snippetTotal), budget)
  {
    var cfg := ConfigFor(budget, MinimumEvidence(p, budget), catalogue);
    var kept := Fitted(p, cfg, budget, JsonChars);
    var first := Rewritten(kept, evidenceTotal, snippetTotal);
    var f := Fitted(first, cfg, budget, JsonChars);
    var q := Returned(p, catalogue, budget, evidenceTotal, snippetTotal);
    FittingKeeps(p, cfg, budget, JsonChars);
    FittingKeeps(first, cfg, budget, JsonChars);
    FitsOrReportsTheExcess(p, cfg, budget, JsonChars);
    FitsOrReportsTheExcess(first, cfg, budget, JsonChars);
    if !q.budgetExceeded {
      FirstPassSize(kept, evidenceTotal, snippetTotal);
      FirstPassFits(p, cfg, budget, evidenceTotal, snippetTotal);
      FreshWhileMany(p, cfg, budget);
      TwoRemain(p, cfg, budget);
      SecondPassFits(first, cfg, budget, evidenceTotal, snippetTotal);
    }
  }
}
