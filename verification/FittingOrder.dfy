/** Where fitting stops, and in which order it gives things up.

    Each round makes the first applicable reduction of the fixed list, so the chosen one says that
    every earlier one was exhausted: cheap trimmings come before evidence is dropped, and evidence is
    dropped below the minimum only when everything else is at its floor. At the end the response is
    within its budget, or says that it is not and has nothing left to give up. */
module FittingOrder {
  import opened Wrappers
  import opened Clipping
  import opened Payload
  import opened Fitting

  // ---------- The chosen reduction is the first applicable one ----------

  ghost predicate Settled(p: Response, rs: seq<Reduction>) {
    forall i :: 0 <= i < |rs| ==> !Applicable(p, rs[i])
  }

  lemma {:induction false} FirstOfIsFirst(p: Response, rs: seq<Reduction>) returns (k: nat)
    ensures k <= |rs| && Settled(p, rs[..k])
    ensures FirstOf(p, rs) == if k < |rs| then Some(rs[k]) else None
  {
    if rs == [] || Applicable(p, rs[0]) {
      k := 0;
    } else {
      var j := FirstOfIsFirst(p, rs[1..]);
      k := j + 1;
      forall i | 0 <= i < k ensures !Applicable(p, rs[..k][i]) {
        if i > 0 { assert rs[..k][i] == rs[1..][..j][i - 1]; }
      }
    }
  }

  lemma {:induction false} FirstOfIgnoresTheFlag(p: Response, rs: seq<Reduction>, flag: bool)
    ensures FirstOf(p.(budgetExceeded := flag), rs) == FirstOf(p, rs)
  {
    if rs != [] {
      assert Applicable(p.(budgetExceeded := flag), rs[0]) == Applicable(p, rs[0]);
      FirstOfIgnoresTheFlag(p, rs[1..], flag);
    }
  }

  // ---------- Stages of giving up ----------

  ghost predicate Expanded(ss: seq<Snippet>) {
    exists i :: 0 <= i < |ss| && !ss[i].exact
  }

  ghost predicate SnippetTextsUpTo(ss: seq<Snippet>, n: nat) {
    forall i :: 0 <= i < |ss| ==> |OrEmpty(ss[i].text)| <= n
  }

  ghost predicate EvidenceTextsUpTo(es: seq<Evidence>, n: nat) {
    forall i :: 0 <= i < |es| ==> |es[i].text| <= n
  }

  /** Everything cheap is gone: expanded snippets, most notes, and text beyond the usual floors. */
  ghost predicate Cheap(p: Response, cfg: Config) {
    && !Expanded(p.snippets) && |p.warnings| <= 2 && |p.unresolved| <= 3 && |p.covered| <= 2
    && EvidenceTextsUpTo(p.evidence, cfg.evidenceFloor) && SnippetTextsUpTo(p.snippets, cfg.snippetFloor)
  }

  ghost predicate SnippetTitlesUpTo(ss: seq<Snippet>, n: nat) {
    forall i :: 0 <= i < |ss| ==> |ss[i].title| <= n
  }

  ghost predicate HeadingsUpTo(es: seq<Evidence>, n: nat) {
    forall i :: 0 <= i < |es| ==> |OrEmpty(es[i].heading)| <= n
  }

  /** Nothing but exact citations, short texts, the evidence and the last missing topic remains. */
  ghost predicate Bare(p: Response) {
    && p.contradictions == [] && p.failures == [] && p.warnings == [] && p.unresolved == [] && p.covered == []
    && |p.missing| <= 1 && |OrEmpty(p.query)| <= QUERY_FLOOR
    && EvidenceTextsUpTo(p.evidence, 100) && HeadingsUpTo(p.evidence, HEADING_FLOOR)
    && SnippetTextsUpTo(p.snippets, 20) && SnippetTitlesUpTo(p.snippets, TITLE_FLOOR)
  }

  ghost predicate SourcesAtFloor(ss: seq<Source>) {
    forall i :: 0 <= i < |ss| ==> MetadataCount(ss[i]) == 0 && |ss[i].title| <= TITLE_FLOOR
  }

  /** Every part that can be reduced is at its lowest floor. */
  ghost predicate AtFloor(p: Response, cfg: Config) {
    Cheap(p, cfg) && Bare(p) && SourcesAtFloor(p.sources) && |p.evidence| <= 2 && |p.evidence| <= cfg.minimumEvidence
  }

  lemma NoLongSnippet(p: Response, floor: nat, step: nat)
    requires step > 0 && !Applicable(p, ShrinkSnippet(floor, step))
    ensures SnippetTextsUpTo(p.snippets, floor)
  {
    forall i | 0 <= i < |p.snippets| ensures |OrEmpty(p.snippets[i].text)| <= floor {
      assert SnippetTexts(p.snippets)[i] <= floor;
    }
  }

  lemma NoLongEvidence(p: Response, floor: nat, step: nat)
    requires step > 0 && !Applicable(p, ShrinkEvidence(floor, step))
    ensures EvidenceTextsUpTo(p.evidence, floor)
  {
    forall i | 0 <= i < |p.evidence| ensures |p.evidence[i].text| <= floor {
      assert EvidenceTexts(p.evidence)[i] <= floor;
    }
  }

  lemma NoLongTitlesOrHeadings(p: Response)
    requires !Applicable(p, ShrinkSnippetTitle) && !Applicable(p, ShrinkHeading)
    ensures SnippetTitlesUpTo(p.snippets, TITLE_FLOOR) && HeadingsUpTo(p.evidence, HEADING_FLOOR)
  {
    forall i | 0 <= i < |p.snippets| ensures |p.snippets[i].title| <= TITLE_FLOOR {
      assert SnippetTitles(p.snippets)[i] <= TITLE_FLOOR;
    }
    forall i | 0 <= i < |p.evidence| ensures |OrEmpty(p.evidence[i].heading)| <= HEADING_FLOOR {
      assert Headings(p.evidence)[i] <= HEADING_FLOOR;
    }
  }

  lemma NoRichSources(p: Response)
    requires !Applicable(p, DropSourceMetadata) && !Applicable(p, ShrinkSourceTitle)
    ensures SourcesAtFloor(p.sources)
  {
    forall i | 0 <= i < |p.sources| ensures MetadataCount(p.sources[i]) == 0 && |p.sources[i].title| <= TITLE_FLOOR {
      assert SourceTitles(p.sources)[i] <= TITLE_FLOOR;
    }
  }

  lemma EarlySettled(p: Response, cfg: Config)
    requires Settled(p, EarlyReductions(cfg)[..6])
    ensures Cheap(p, cfg)
  {
    var rs := EarlyReductions(cfg)[..6];
    assert !Applicable(p, rs[0]) && !Applicable(p, rs[1]) && !Applicable(p, rs[2]) && !Applicable(p, rs[3]);
    assert !Applicable(p, rs[4]) && !Applicable(p, rs[5]);
    NoLongEvidence(p, cfg.evidenceFloor, 140);
    NoLongSnippet(p, cfg.snippetFloor, 60);
  }

  lemma MiddleSettled(p: Response)
    requires Settled(p, MiddleReductions())
    ensures p.contradictions == [] && |OrEmpty(p.query)| <= QUERY_FLOOR && SourcesAtFloor(p.sources)
    ensures SnippetTitlesUpTo(p.snippets, TITLE_FLOOR) && HeadingsUpTo(p.evidence, HEADING_FLOOR)
  {
    var rs := MiddleReductions();
    assert !Applicable(p, rs[0]) && !Applicable(p, rs[2]) && !Applicable(p, rs[3]) && !Applicable(p, rs[4]);
    assert !Applicable(p, rs[5]) && !Applicable(p, rs[6]);
    NoRichSources(p);
    NoLongTitlesOrHeadings(p);
  }

  lemma LateSettled(p: Response)
    requires Settled(p, LateReductions()[..8])
    ensures p.warnings == [] && p.unresolved == [] && p.failures == [] && |p.missing| <= 1 && p.covered == []
    ensures EvidenceTextsUpTo(p.evidence, 100) && SnippetTextsUpTo(p.snippets, 20)
  {
    var rs := LateReductions()[..8];
    assert !Applicable(p, rs[0]) && !Applicable(p, rs[1]) && !Applicable(p, rs[3]) && !Applicable(p, rs[4]);
    assert !Applicable(p, rs[5]) && !Applicable(p, rs[6]) && !Applicable(p, rs[7]);
    NoLongEvidence(p, 100, 80);
    NoLongSnippet(p, 20, 40);
  }

  lemma SettledPart(p: Response, rs: seq<Reduction>, k: nat, lo: nat, part: seq<Reduction>)
    requires k <= |rs| && Settled(p, rs[..k]) && lo + |part| <= k
    requires forall i :: 0 <= i < |part| ==> part[i] == rs[lo + i]
    ensures Settled(p, part)
  {
    forall i | 0 <= i < |part| ensures !Applicable(p, part[i]) {
      assert part[i] == rs[..k][lo + i];
    }
  }

  lemma CheapFrom(p: Response, cfg: Config, k: nat)
    requires 6 <= k <= 23 && Settled(p, Priorities(cfg)[..k])
    ensures Cheap(p, cfg)
    ensures k >= 7 ==> |p.evidence| <= cfg.minimumEvidence
  {
    SettledPart(p, Priorities(cfg), k, 0, EarlyReductions(cfg)[..6]);
    EarlySettled(p, cfg);
    if k >= 7 { assert Priorities(cfg)[..k][6] == DropEvidence(cfg.minimumEvidence); }
  }

  lemma BareFrom(p: Response, cfg: Config, k: nat)
    requires 22 <= k <= 23 && Settled(p, Priorities(cfg)[..k])
    ensures Bare(p) && SourcesAtFloor(p.sources)
    ensures k == 23 ==> |p.evidence| <= 2
  {
    SettledPart(p, Priorities(cfg), k, 7, MiddleReductions());
    MiddleSettled(p);
    SettledPart(p, Priorities(cfg), k, 14, LateReductions()[..8]);
    LateSettled(p);
    if k == 23 { assert Priorities(cfg)[..k][22] == DropEvidence(2); }
  }

  /** What must be gone when nothing is left to choose, and when evidence or contradictions are chosen. */
  lemma ChoicesComeLate(p: Response, cfg: Config)
    ensures var c := Choice(p, cfg);
            && (c.None? ==> AtFloor(p, cfg))
            && (c.Some? && c.value.DropContradiction? ==> Cheap(p, cfg) && |p.evidence| <= cfg.minimumEvidence)
            && (c.Some? && c.value.DropEvidence? ==>
                  Cheap(p, cfg) && (c.value.keep == cfg.minimumEvidence || (c.value.keep == 2 && Bare(p))))
  {
    var k := FirstOfIsFirst(p, Priorities(cfg));
    if k >= 6 { CheapFrom(p, cfg, k); }
    if k >= 22 { BareFrom(p, cfg, k); }
  }

  // ---------- Where fitting stops ----------

  /** How fitting may end: within the budget with the flag as it was, or with the flag set, nothing
      left to reduce, and the response too large even without the flag. */
  ghost predicate Ends(q: Response, cfg: Config, budget: int, size: Response -> nat, flagBefore: bool) {
    || (size(q) <= budget && q.budgetExceeded == flagBefore)
    || (q.budgetExceeded && AtFloor(q, cfg) && Choice(q, cfg).None? && size(q.(budgetExceeded := flagBefore)) > budget)
  }

  lemma FlaggingEnds(p: Response, cfg: Config, budget: int, size: Response -> nat)
    requires size(p) > budget && Choice(p, cfg).None?
    ensures Ends(p.(budgetExceeded := true), cfg, budget, size, p.budgetExceeded)
  {
    var q := p.(budgetExceeded := true);
    FirstOfIgnoresTheFlag(p, Priorities(cfg), true);
    ChoicesComeLate(q, cfg);
    assert q.(budgetExceeded := p.budgetExceeded) == p;
  }

  lemma {:induction false} FitsOrReportsTheExcess(p: Response, cfg: Config, budget: int, size: Response -> nat)
    ensures Ends(Fitted(p, cfg, budget, size), cfg, budget, size, p.budgetExceeded)
    decreases |p.evidence|, Weight(p)
  {
    var c := Choice(p, cfg);
    if size(p) > budget {
      if c.Some? {
        ReductionsMakeProgress(p, cfg, c.value);
        FitsOrReportsTheExcess(Reduced(p, cfg, c.value), cfg, budget, size);
      } else {
        FlaggingEnds(p, cfg, budget, size);
      }
    }
  }

  /** If the flag makes the result no shorter, the flag is honest and fitting twice is the same as
      fitting once. */
  lemma FlagIsHonest(p: Response, cfg: Config, budget: int, size: Response -> nat)
    requires !p.budgetExceeded
    requires var q := Fitted(p, cfg, budget, size);
             size(q.(budgetExceeded := true)) >= size(q.(budgetExceeded := false))
    ensures var q := Fitted(p, cfg, budget, size);
            && (q.budgetExceeded <==> size(q) > budget)
            && Fitted(q, cfg, budget, size) == q
  {
    FitsOrReportsTheExcess(p, cfg, budget, size);
    var q := Fitted(p, cfg, budget, size);
    if q.budgetExceeded && Choice(q, cfg).None? {
      assert q.(budgetExceeded := true) == q;
    }
  }

  // ---------- In which order things are given up ----------

  lemma SnippetTextLimitPersists(p: Response, cfg: Config, r: Reduction, limit: nat)
    requires Applicable(p, r) && SnippetTextsUpTo(p.snippets, limit)
    ensures SnippetTextsUpTo(Reduced(p, cfg, r).snippets, limit)
  {
    if r.ShrinkSnippet? {
      var i := Longest(SnippetTexts(p.snippets), r.floor).value;
      ShrinkingIsStrict(OrEmpty(p.snippets[i].text), r.floor, r.step);
    }
  }

  lemma SnippetTitleLimitPersists(p: Response, cfg: Config, r: Reduction, limit: nat)
    requires Applicable(p, r) && SnippetTitlesUpTo(p.snippets, limit)
    ensures SnippetTitlesUpTo(Reduced(p, cfg, r).snippets, limit)
  {
    if r.ShrinkSnippetTitle? {
      var i := Longest(SnippetTitles(p.snippets), TITLE_FLOOR).value;
      ShrinkingIsStrict(p.snippets[i].title, TITLE_FLOOR, 60);
    }
  }

  lemma NoExpandedPersists(p: Response, cfg: Config, r: Reduction)
    requires Applicable(p, r) && !Expanded(p.snippets)
    ensures !Expanded(Reduced(p, cfg, r).snippets)
  {
    var ss, ss' := p.snippets, Reduced(p, cfg, r).snippets;
    forall i | 0 <= i < |ss'| ensures ss'[i].exact {
      assert ss[i].exact && (i + 1 < |ss| ==> ss[i + 1].exact);
    }
  }

  lemma EvidenceTextLimitPersists(p: Response, cfg: Config, r: Reduction, limit: nat)
    requires Applicable(p, r) && EvidenceTextsUpTo(p.evidence, limit)
    ensures EvidenceTextsUpTo(Reduced(p, cfg, r).evidence, limit)
  {
    if r.ShrinkEvidence? {
      var i := Longest(EvidenceTexts(p.evidence), r.floor).value;
      ShrinkingIsStrict(p.evidence[i].text, r.floor, r.step);
    }
  }

  lemma HeadingLimitPersists(p: Response, cfg: Config, r: Reduction, limit: nat)
    requires Applicable(p, r) && HeadingsUpTo(p.evidence, limit)
    ensures HeadingsUpTo(Reduced(p, cfg, r).evidence, limit)
  {
    if r.ShrinkHeading? {
      var i := Longest(Headings(p.evidence), HEADING_FLOOR).value;
      ShrinkingIsStrict(OrEmpty(p.evidence[i].heading), HEADING_FLOOR, 40);
    }
  }

  lemma CheapPersists(p: Response, cfg: Config, r: Reduction)
    requires Applicable(p, r) && Cheap(p, cfg)
    ensures Cheap(Reduced(p, cfg, r), cfg)
  {
    NoExpandedPersists(p, cfg, r);
    SnippetTextLimitPersists(p, cfg, r, cfg.snippetFloor);
    EvidenceTextLimitPersists(p, cfg, r, cfg.evidenceFloor);
  }

  lemma BarePersists(p: Response, cfg: Config, r: Reduction)
    requires Applicable(p, r) && Bare(p)
    ensures Bare(Reduced(p, cfg, r))
  {
    SnippetTextLimitPersists(p, cfg, r, 20);
    SnippetTitleLimitPersists(p, cfg, r, TITLE_FLOOR);
    EvidenceTextLimitPersists(p, cfg, r, 100);
    HeadingLimitPersists(p, cfg, r, HEADING_FLOOR);
  }

  lemma StagesPersist(p: Response, cfg: Config, r: Reduction)
    requires Applicable(p, r)
    ensures Cheap(p, cfg) ==> Cheap(Reduced(p, cfg, r), cfg)
    ensures Bare(p) ==> Bare(Reduced(p, cfg, r))
  {
    if Cheap(p, cfg) { CheapPersists(p, cfg, r); }
    if Bare(p) { BarePersists(p, cfg, r); }
  }

  /** Evidence goes only after everything cheap, contradictions only after surplus evidence, and
      evidence below the minimum only when nothing else is left; two items always survive. */
  ghost predicate InOrder(p: Response, q: Response, cfg: Config) {
    && (Cheap(p, cfg) ==> Cheap(q, cfg))
    && (Bare(p) ==> Bare(q))
    && |q.evidence| <= |p.evidence| && q.contradictions <= p.contradictions
    && (|q.evidence| < |p.evidence| ==> Cheap(q, cfg))
    && (q.contradictions != p.contradictions ==> Cheap(q, cfg) && |q.evidence| <= cfg.minimumEvidence)
    && (|q.evidence| < Min(|p.evidence|, cfg.minimumEvidence) ==> Bare(q))
    && |q.evidence| >= Min(|p.evidence|, Min(2, cfg.minimumEvidence))
  }

  lemma StepIsInOrder(p: Response, cfg: Config)
    requires Choice(p, cfg).Some?
    ensures InOrder(p, Reduced(p, cfg, Choice(p, cfg).value), cfg)
  {
    ChoicesComeLate(p, cfg);
    StagesPersist(p, cfg, Choice(p, cfg).value);
  }

  lemma {:induction false} FittingGivesUpInOrder(p: Response, cfg: Config, budget: int, size: Response -> nat)
    ensures InOrder(p, Fitted(p, cfg, budget, size), cfg)
    decreases |p.evidence|, Weight(p)
  {
    var c := Choice(p, cfg);
    if size(p) > budget && c.Some? {
      ReductionsMakeProgress(p, cfg, c.value);
      StepIsInOrder(p, cfg);
      FittingGivesUpInOrder(Reduced(p, cfg, c.value), cfg, budget, size);
    }
  }
}
