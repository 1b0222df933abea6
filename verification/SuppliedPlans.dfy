/** The responses of the family are of the form in which the server supplies them.

    Ids and citations are numbered in order, no page gives more than two records, titles and URLs are
    within their limits, every type is one the server assigns, and the coverage report and the notes go
    with the evidence. */
module SuppliedPlans {
  import opened Wrappers
  import opened PackageForms
  import opened Payload
  import opened SpareResponses
  import opened SpareLengths
  import opened ShortResponses

  lemma KindIsAssigned(plan: Plan)
    requires plan.texts == WORDING
    ensures plan.texts.kind in PRIMARY_TYPES && plan.texts.kind in SOURCE_TYPES && plan.texts.title != ""
  {
  }

  lemma {:induction false} FewIds(ids: seq<string>)
    ensures |set id | id in ids| <= |ids|
  {
    if ids != [] {
      FewIds(ids[1..]);
      assert (set id | id in ids) == (set id | id in ids[1..]) + {ids[0]};
    }
  }

  lemma PagesAreSupplied(plan: Plan)
    requires plan.texts == WORDING && plan.pageLetters <= LONGEST_TAIL
    ensures PagesForm(Pages(plan))
  {
    var pages := Pages(plan);
    FewIds(Ids(PAGES));
    assert pages.Keys == set id | id in Ids(PAGES);
    KindIsAssigned(plan);
    forall id | id in pages ensures pages[id].sourceId == id && PageForm(pages[id]) {
      var n: nat :| n < PAGES && Ids(PAGES)[n] == id;
      assert id == SourceId(n + 1);
      PageUrl(plan, n + 1);
    }
  }

  lemma RecordIsSupplied(plan: Plan, i: nat)
    requires i < MOST_EVIDENCE && plan.passage != ""
    ensures RecordForm(RecordAt(plan, i), i + 1, Pages(plan))
  {
    PageNumbers(plan, i, i);
    assert Ids(PAGES)[PageOf(plan, i) - 1] == SourceId(PageOf(plan, i));
  }

  lemma EvidenceIsSupplied(plan: Plan, k: nat)
    requires k <= MOST_EVIDENCE && plan.passage != ""
    ensures EvidenceForm(Records(plan, k), Pages(plan))
  {
    var es := Records(plan, k);
    forall i | 0 <= i < k ensures RecordForm(es[i], i + 1, Pages(plan)) { RecordIsSupplied(plan, i); }
    forall h, i, j | 0 <= h < i < j < k ensures !(es[h].sourceId == es[i].sourceId == es[j].sourceId) {
      PageNumbers(plan, h, j);
      PageNumbers(plan, j, j);
      if es[h].sourceId == es[j].sourceId { SourceIdsDiffer(PageOf(plan, h), PageOf(plan, j)); }
    }
  }

  lemma SnippetsAreSupplied(plan: Plan)
    requires plan.texts == WORDING
    ensures SnippetsForm(ExactSnippets(plan), MOST_EXACT)
  {
    var ss, tails := ExactSnippets(plan), Spread(plan.letters, MOST_EXACT);
    SpreadForm(plan.letters, MOST_EXACT);
    TitleIsPlain();
    forall i | 0 <= i < MOST_EXACT ensures SnippetForm(ss[i], i + 1) { SnippetUrl(plan, i + 1, tails[i]); }
  }

  /** The coverage report and the notes go with the evidence. */
  ghost predicate Consistent(plan: Plan, records: nat, topics: nat) {
    && topics <= 6 && topics + |plan.missing| > 0 && (records == 0 ==> topics == 0)
    && ListForm(plan.missing, 6, 220) && ListForm(plan.unresolved, 6, 240)
    && (plan.missing != [] || !plan.frame.primarySource ==> plan.unresolved != [])
    && (plan.frame.primarySource ==> records > 0) && plan.frame.independentSources <= PageCount(plan, records)
  }

  lemma CoverageIsSupplied(plan: Plan, records: nat, topics: nat)
    requires plan.texts == WORDING && Consistent(plan, records, topics)
    ensures CoverageForm(At(plan, Complete(plan, records, 1, topics), 0, None))
  {
    var p := At(plan, Complete(plan, records, 1, topics), 0, None);
    TopicIsPlain();
    KindIsAssigned(plan);
    if plan.frame.primarySource {
      PageNumbers(plan, records - 1, records - 1);
      assert p.sources[0].sourceType == Some(plan.texts.kind);
    }
  }

  lemma PlanIsSupplied(plan: Plan, records: nat, topics: nat, budget: int)
    requires plan.texts == WORDING && plan.passage != "" && plan.pageLetters <= LONGEST_TAIL
    requires FrameForm(plan.frame, budget) && records <= MOST_EVIDENCE && Consistent(plan, records, topics)
    ensures Supplied(At(plan, Complete(plan, records, 1, topics), 0, None), Pages(plan), budget)
  {
    PagesAreSupplied(plan);
    EvidenceIsSupplied(plan, records);
    SnippetsAreSupplied(plan);
    CoverageIsSupplied(plan, records, topics);
    WarningIsPlain();
  }

  // ---------- What the form means ----------

  lemma PaddedDiffer(m: nat, n: nat)
    requires m < 100 && n < 100 && Padded(m) == Padded(n)
    ensures m == n
  {
    PaddedDigits(m);
    PaddedDigits(n);
  }

  lemma CitationEnds(sourceId: string, n: nat)
    requires n < 100
    ensures var c := EvidenceCitation(sourceId, n); |c| >= 4 && c[|c|-4..|c|-1] == Padded(n)
  {
    PaddedDigits(n);
    var front := "[" + sourceId + ", ev_";
    assert EvidenceCitation(sourceId, n) == front + Padded(n) + "]";
  }

  /** No two records of a supplied response have the same citation, whatever their pages. */
  lemma CitationsAreDistinct(p: Response, pages: Catalogue, budget: int, i: nat, j: nat)
    requires Supplied(p, pages, budget) && i < |p.evidence| && j < |p.evidence|
    requires p.evidence[i].citation == p.evidence[j].citation
    ensures i == j
  {
    assert RecordForm(p.evidence[i], i + 1, pages) && RecordForm(p.evidence[j], j + 1, pages);
    CitationEnds(p.evidence[i].sourceId, i + 1);
    CitationEnds(p.evidence[j].sourceId, j + 1);
    PaddedDiffer(i + 1, j + 1);
  }
}
