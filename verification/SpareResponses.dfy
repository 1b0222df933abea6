/** A family of responses whose fitting can be followed round by round.

    A response of the family has some number of records, two from each page except perhaps the first,
    ten exact snippets, and some equal topics and warnings. Its stage is how many records, topics and
    warnings are left and how many sources still have their type, which come back whenever a record is
    dropped. The reduction made next is read off the stage, so the whole fit is a walk through the stages
    that ends at the first one that fits, and the lengths of two stages differ by what the records, the
    pages, the types, the topics and the warnings cost. */
module SpareResponses {
  import opened Wrappers
  import opened Clipping
  import opened Payload
  import opened Fitting
  import opened FittingOrder
  import opened Json
  import opened JsonLengths
  import opened PackageForms

  // ---------- The family ----------

  /** What does not change while a response is fitted: its frame, whether the first page gives only one
      record, how long its URLs are, and its texts. */
  datatype Plan = Plan(frame: Frame, single: bool, letters: nat, pageLetters: nat, passage: string, texts: Wording,
    missing: seq<string>, unresolved: seq<string>)

  /** The title of every page and snippet, the type of every page, every topic and every warning. */
  datatype Wording = Wording(title: string, kind: string, topic: string, warning: string)

  /** How many records are left, how many sources still have their type, and how many warnings and topics
      are left. */
  datatype Stage = Stage(records: nat, rich: nat, warnings: nat, topics: nat)

  const PAGES := 13
  const LONGEST_TAIL := 4_065
  const SITE := "https://docs.python.org/"
  const OTHER_SITE := "https://www.example.org/"

  function Letters(n: nat): string {
    seq(n, _ => 'a')
  }

  function Copies(text: string, n: nat): seq<string> {
    seq(n, _ => text)
  }

  /** The number of the page that a record comes from, counted from one. */
  function PageOf(plan: Plan, i: nat): nat {
    (if plan.single then i + 1 else i) / 2 + 1
  }

  /** The number of pages that so many records come from. */
  function PageCount(plan: Plan, k: nat): nat {
    if k == 0 then 0 else PageOf(plan, k - 1)
  }

  function RecordAt(plan: Plan, i: nat): Evidence {
    var id := SourceId(PageOf(plan, i));
    Evidence(EvidenceCitation(id, i + 1), id, plan.passage, None)
  }

  function Records(plan: Plan, k: nat): seq<Evidence> {
    seq(k, i requires 0 <= i < k => RecordAt(plan, i))
  }

  function Ids(n: nat): seq<string> {
    seq(n, i requires 0 <= i < n => SourceId(i + 1))
  }

  function Page(plan: Plan, id: string): SourceRecord {
    SourceRecord(id, plan.texts.title, SITE + id + Letters(plan.pageLetters), None, plan.texts.kind)
  }

  function Pages(plan: Plan): Catalogue {
    map id | id in Ids(PAGES) :: Page(plan, id)
  }

  function Origin(plan: Plan, id: string, rich: bool): Source {
    Source(id, plan.texts.title, Page(plan, id).url, None, if rich then Some(plan.texts.kind) else None)
  }

  function Origins(plan: Plan, count: nat, rich: nat): seq<Source> {
    seq(count, i requires 0 <= i < count => Origin(plan, SourceId(i + 1), i < rich))
  }

  /** So many letters spread over so many URLs, the first ones filled first. */
  function Spread(letters: nat, urls: nat): seq<nat> {
    if urls == 0 then []
    else
      var first := Min(letters, LONGEST_TAIL);
      [first] + Spread(letters - first, urls - 1)
  }

  function SnippetAt(plan: Plan, n: nat, letters: nat): Snippet {
    Snippet(SnippetCitation(n), true, plan.texts.title, OTHER_SITE + Padded(n) + Letters(letters), None)
  }

  lemma {:induction false} SpreadForm(letters: nat, urls: nat)
    ensures |Spread(letters, urls)| == urls
    ensures forall i :: 0 <= i < urls ==> Spread(letters, urls)[i] <= LONGEST_TAIL
    ensures letters <= LONGEST_TAIL * urls ==> Sum(Spread(letters, urls)) == letters
  {
    if urls > 0 {
      SpreadForm(letters - Min(letters, LONGEST_TAIL), urls - 1);
    }
  }

  function ExactSnippets(plan: Plan): seq<Snippet> {
    SpreadForm(plan.letters, MOST_EXACT);
    seq(MOST_EXACT, i requires 0 <= i < MOST_EXACT => SnippetAt(plan, i + 1, Spread(plan.letters, MOST_EXACT)[i]))
  }

  function At(plan: Plan, s: Stage, omitted: nat, size: Option<nat>): Response {
    Response(plan.frame, Copies(plan.texts.topic, s.topics), plan.missing,
             Origins(plan, PageCount(plan, s.records), s.rich), Records(plan, s.records), ExactSnippets(plan), [],
             plan.unresolved, Copies(plan.texts.warning, s.warnings), [], None, omitted, 0, false, false, size)
  }

  /** The stage in which all sources have their type. */
  function Complete(plan: Plan, records: nat, warnings: nat, topics: nat): Stage {
    Stage(records, PageCount(plan, records), warnings, topics)
  }

  // ---------- Page numbers ----------

  lemma DigitsAreLetters(i: nat)
    requires i < 10
    ensures HEX[i] as int == '0' as int + i
  {
    if i < 5 {
      assert i == 0 || i == 1 || i == 2 || i == 3 || i == 4;
    } else {
      assert i == 5 || i == 6 || i == 7 || i == 8 || i == 9;
    }
  }

  lemma PaddedDigits(n: nat)
    requires n < 100
    ensures |Padded(n)| == 3 && Padded(n)[1] as int == '0' as int + n / 10
            && Padded(n)[2] as int == '0' as int + n % 10 && Padded(n)[0] == '0'
  {
    DigitsAreLetters(n % 10);
    DigitsAreLetters(n / 10);
    if n >= 10 { assert Decimal(n) == Decimal(n / 10) + [HEX[n % 10]]; }
  }

  lemma SourceIdForm(n: nat)
    requires n < 100
    ensures |SourceId(n)| == 7 && Plain(SourceId(n))
    ensures SourceId(n)[5] as int == '0' as int + n / 10 && SourceId(n)[6] as int == '0' as int + n % 10
  {
    PaddedDigits(n);
    assert SourceId(n)[4..] == Padded(n);
    assert SourceId(n)[5] == Padded(n)[1] && SourceId(n)[6] == Padded(n)[2];
  }

  lemma SourceIdsDiffer(m: nat, n: nat)
    requires m < 100 && n < 100 && SourceId(m) == SourceId(n)
    ensures m == n
  {
    SourceIdForm(m);
    SourceIdForm(n);
  }

  // ---------- The sources of the records ----------

  /** Page numbers start at one and never fall, and a page gives at most two records. */
  lemma PageNumbers(plan: Plan, i: nat, j: nat)
    requires i <= j
    ensures 1 <= PageOf(plan, i) <= PageOf(plan, j) && (j >= i + 2 ==> PageOf(plan, i) < PageOf(plan, j))
    ensures PageOf(plan, i + 1) <= PageOf(plan, i) + 1 && PageOf(plan, 0) == 1
    ensures j < MOST_EVIDENCE ==> PageOf(plan, j) <= PAGES
  {
  }

  lemma OneMoreUse(ids: seq<string>, id: string)
    ensures FirstUse(ids + [id]) == if id in FirstUse(ids) then FirstUse(ids) else FirstUse(ids) + [id]
  {
    var all := ids + [id];
    assert all[..|all|-1] == ids && all[|all|-1] == id;
  }

  lemma KnownOrNext(n: nat, m: nat)
    requires n < 100 && m <= n <= m + 1 && n > 0
    ensures SourceId(n) in Ids(m) <==> n == m
    ensures Ids(n) == if n == m then Ids(m) else Ids(m) + [SourceId(n)]
  {
    if n == m {
      assert Ids(m)[n - 1] == SourceId(n);
    } else {
      forall i | 0 <= i < m ensures Ids(m)[i] != SourceId(n) {
        if SourceId(i + 1) == SourceId(n) { SourceIdsDiffer(i + 1, n); }
      }
    }
  }

  lemma IdsAppend(es: seq<Evidence>, e: Evidence)
    ensures SourceIds(es + [e]) == SourceIds(es) + [e.sourceId]
  {
  }

  lemma OneMoreRecord(plan: Plan, k: nat)
    requires k > 0
    ensures Records(plan, k) == Records(plan, k - 1) + [RecordAt(plan, k - 1)]
  {
  }

  lemma IdsOfRecords(plan: Plan, k: nat)
    requires k > 0
    ensures SourceIds(Records(plan, k)) == SourceIds(Records(plan, k - 1)) + [SourceId(PageOf(plan, k - 1))]
  {
    OneMoreRecord(plan, k);
    IdsAppend(Records(plan, k - 1), RecordAt(plan, k - 1));
  }

  lemma {:induction false} IdsInOrder(plan: Plan, k: nat)
    requires k <= MOST_EVIDENCE
    ensures FirstUse(SourceIds(Records(plan, k))) == Ids(PageCount(plan, k))
  {
    if k > 0 {
      IdsInOrder(plan, k - 1);
      PageNumbers(plan, k - 1, k - 1);
      if k > 1 { PageNumbers(plan, k - 2, k - 1); }
      IdsOfRecords(plan, k);
      OneMoreUse(SourceIds(Records(plan, k - 1)), SourceId(PageOf(plan, k - 1)));
      KnownOrNext(PageOf(plan, k - 1), PageCount(plan, k - 1));
    }
  }

  lemma {:induction false} KnownPages(catalogue: Catalogue, ids: seq<string>)
    requires forall i :: 0 <= i < |ids| ==> ids[i] in catalogue
    ensures CompactKnown(catalogue, ids)
            == seq(|ids|, i requires 0 <= i < |ids| => CompactSource(catalogue[ids[i]]))
  {
    if ids != [] {
      assert forall i :: 0 <= i < |ids| - 1 ==> ids[1..][i] == ids[i + 1];
      KnownPages(catalogue, ids[1..]);
    }
  }

  /** The texts stay as they are when they are clipped. */
  ghost predicate Normal(plan: Plan) {
    IsNormal(plan.texts.title) && |plan.texts.title| <= TITLE_FLOOR && plan.texts.kind != ""
  }

  lemma CompactPage(plan: Plan, id: string)
    requires Normal(plan)
    ensures CompactSource(Page(plan, id)) == Origin(plan, id, true)
  {
    NormalTextIsFixed(plan.texts.title);
  }

  lemma PagesHold(plan: Plan, n: nat, i: nat)
    requires i < n <= PAGES
    ensures Ids(n)[i] in Pages(plan) && Pages(plan)[Ids(n)[i]] == Page(plan, Ids(n)[i])
  {
    assert Ids(n)[i] == Ids(PAGES)[i];
  }

  lemma CompactPages(plan: Plan, n: nat)
    requires Normal(plan) && n <= PAGES
    ensures CompactKnown(Pages(plan), Ids(n)) == Origins(plan, n, n)
  {
    var ids, pages := Ids(n), Pages(plan);
    forall i | 0 <= i < n ensures ids[i] in pages && CompactSource(pages[ids[i]]) == Origin(plan, ids[i], true) {
      PagesHold(plan, n, i);
      CompactPage(plan, ids[i]);
    }
    KnownPages(pages, ids);
  }

  /** Dropping records rebuilds the sources with all their types. */
  lemma RebuiltSources(plan: Plan, k: nat)
    requires Normal(plan) && k <= MOST_EVIDENCE
    ensures CompactSources(Pages(plan), Records(plan, k)) == Origins(plan, PageCount(plan, k), PageCount(plan, k))
  {
    IdsInOrder(plan, k);
    if k > 0 { PageNumbers(plan, k - 1, k - 1); }
    CompactPages(plan, PageCount(plan, k));
  }

  lemma {:induction false} LastRich(plan: Plan, count: nat, rich: nat)
    requires rich <= count
    ensures LastWithMetadata(Origins(plan, count, rich)) == if rich == 0 then None else Some(rich - 1)
  {
    if count > 0 {
      var ss := Origins(plan, count, rich);
      if rich < count {
        assert ss[..count-1] == Origins(plan, count - 1, rich);
        LastRich(plan, count - 1, rich);
      }
    }
  }

  lemma OnePoorer(plan: Plan, count: nat, rich: nat)
    requires 0 < rich <= count
    ensures var ss := Origins(plan, count, rich);
            ss[rich - 1 := WithoutMetadatum(ss[rich - 1])] == Origins(plan, count, rich - 1)
  {
  }

  // ---------- Which reduction comes next ----------

  /** The stage after the next reduction. */
  function Next(plan: Plan, s: Stage, minimum: nat): Option<Stage> {
    if s.topics > 2 then Some(s.(topics := s.topics - 1))
    else if s.records > minimum then Some(Complete(plan, s.records - 1, s.warnings, s.topics))
    else if s.rich > 0 then Some(s.(rich := s.rich - 1))
    else if s.warnings > 0 then Some(s.(warnings := s.warnings - 1))
    else if s.topics > 0 then Some(s.(topics := s.topics - 1))
    else if s.records > 2 then Some(Complete(plan, s.records - 1, s.warnings, s.topics))
    else None
  }

  ghost predicate Sensible(plan: Plan, s: Stage) {
    && Normal(plan) && |plan.passage| <= 100 && |plan.missing| <= 1 && plan.unresolved == []
    && s.records <= MOST_EVIDENCE && s.rich <= PageCount(plan, s.records) && s.warnings <= 2
  }

  predicate Applies(s: Stage, r: Reduction) {
    || (r.TrimCovered? && s.topics > r.keep) || (r.DropEvidence? && s.records > r.keep)
    || (r.DropSourceMetadata? && s.rich > 0) || (r.TrimWarnings? && s.warnings > r.keep)
  }

  /** No text, title or heading is long enough to be shortened, and all snippets are exact. */
  ghost predicate ShortParts(p: Response) {
    && (forall i :: 0 <= i < |p.evidence| ==> |p.evidence[i].text| <= 100 && p.evidence[i].heading.None?)
    && (forall i :: 0 <= i < |p.snippets| ==>
          p.snippets[i].exact && p.snippets[i].text.None? && |p.snippets[i].title| <= TITLE_FLOOR)
    && (forall i :: 0 <= i < |p.sources| ==> |p.sources[i].title| <= TITLE_FLOOR)
  }

  lemma ShortPartsStay(p: Response, r: Reduction)
    requires ShortParts(p) && (r.ShrinkEvidence? ==> r.floor >= 100)
    requires r.DropExpandedSnippet? || r.ShrinkEvidence? || r.ShrinkSnippet? || r.ShrinkSourceTitle?
             || r.ShrinkSnippetTitle? || r.ShrinkHeading?
    ensures !Applicable(p, r)
  {
  }

  lemma PartsAreShort(plan: Plan, s: Stage, omitted: nat, size: Option<nat>)
    requires Sensible(plan, s)
    ensures ShortParts(At(plan, s, omitted, size))
  {
  }

  lemma WhatApplies(plan: Plan, s: Stage, omitted: nat, size: Option<nat>, r: Reduction)
    requires Sensible(plan, s) && (r.ShrinkEvidence? ==> r.floor >= 100) && (r.TrimMissing? ==> r.keep >= 1)
    ensures Applicable(At(plan, s, omitted, size), r) <==> Applies(s, r)
  {
    PartsAreShort(plan, s, omitted, size);
    var p := At(plan, s, omitted, size);
    if r.DropExpandedSnippet? || r.ShrinkEvidence? || r.ShrinkSnippet? || r.ShrinkSourceTitle?
       || r.ShrinkSnippetTitle? || r.ShrinkHeading? {
      ShortPartsStay(p, r);
    } else if r.DropSourceMetadata? {
      LastRich(plan, PageCount(plan, s.records), s.rich);
    }
  }

  /** Where the reductions that may apply are in the list. */
  lemma Positions(cfg: Config)
    requires cfg.evidenceFloor >= 100
    ensures var rs := Priorities(cfg);
            && rs[1] == TrimWarnings(2) && rs[3] == TrimCovered(2) && rs[6] == DropEvidence(cfg.minimumEvidence)
            && rs[9] == DropSourceMetadata && rs[14] == TrimWarnings(0)
            && rs[19] == TrimCovered(0) && rs[22] == DropEvidence(2)
            && (forall i :: 0 <= i < 23 ==>
                  && (rs[i].TrimCovered? ==> i == 3 || i == 19) && (rs[i].DropEvidence? ==> i == 6 || i == 22)
                  && (rs[i].TrimWarnings? ==> i == 1 || i == 14) && (rs[i].DropSourceMetadata? ==> i == 9)
                  && (rs[i].ShrinkEvidence? ==> rs[i].floor >= 100) && (rs[i].TrimMissing? ==> rs[i].keep >= 1))
  {
  }

  lemma NextChoice(plan: Plan, s: Stage, omitted: nat, size: Option<nat>, cfg: Config)
    requires Sensible(plan, s) && cfg.evidenceFloor >= 100
    ensures Choice(At(plan, s, omitted, size), cfg)
            == if s.topics > 2 then Some(TrimCovered(2))
               else if s.records > cfg.minimumEvidence then Some(DropEvidence(cfg.minimumEvidence))
               else if s.rich > 0 then Some(DropSourceMetadata)
               else if s.warnings > 0 then Some(TrimWarnings(0))
               else if s.topics > 0 then Some(TrimCovered(0))
               else if s.records > 2 then Some(DropEvidence(2))
               else None
  {
    var p, rs := At(plan, s, omitted, size), Priorities(cfg);
    Positions(cfg);
    var k := FirstOfIsFirst(p, rs);
    forall i | 0 <= i < 23 ensures Applicable(p, rs[i]) <==> Applies(s, rs[i]) {
      WhatApplies(plan, s, omitted, size, rs[i]);
    }
    forall i | 0 <= i < k ensures !Applicable(p, rs[i]) { assert rs[..k][i] == rs[i]; }
  }

  lemma FewerRecords(plan: Plan, k: nat)
    requires k > 0
    ensures DropLast(Records(plan, k)) == Records(plan, k - 1)
  {
  }

  lemma FewerCopies(text: string, n: nat)
    requires n > 0
    ensures DropLast(Copies(text, n)) == Copies(text, n - 1)
  {
  }

  lemma AfterEvidence(plan: Plan, s: Stage, omitted: nat, size: Option<nat>, cfg: Config, keep: nat)
    requires Sensible(plan, s) && cfg.catalogue == Pages(plan) && s.records > keep
    ensures Reduced(At(plan, s, omitted, size), cfg, DropEvidence(keep))
            == At(plan, Complete(plan, s.records - 1, s.warnings, s.topics), omitted, size)
  {
    FewerRecords(plan, s.records);
    RebuiltSources(plan, s.records - 1);
  }

  lemma AfterMetadata(plan: Plan, s: Stage, omitted: nat, size: Option<nat>, cfg: Config)
    requires Sensible(plan, s) && s.rich > 0
    ensures Applicable(At(plan, s, omitted, size), DropSourceMetadata)
    ensures Reduced(At(plan, s, omitted, size), cfg, DropSourceMetadata)
            == At(plan, s.(rich := s.rich - 1), omitted, size)
  {
    LastRich(plan, PageCount(plan, s.records), s.rich);
    OnePoorer(plan, PageCount(plan, s.records), s.rich);
  }

  lemma AfterTopic(plan: Plan, s: Stage, omitted: nat, size: Option<nat>, cfg: Config, keep: nat)
    requires s.topics > keep
    ensures Reduced(At(plan, s, omitted, size), cfg, TrimCovered(keep))
            == At(plan, s.(topics := s.topics - 1), omitted, size)
  {
    FewerCopies(plan.texts.topic, s.topics);
  }

  lemma AfterWarning(plan: Plan, s: Stage, omitted: nat, size: Option<nat>, cfg: Config, keep: nat)
    requires s.warnings > keep
    ensures Reduced(At(plan, s, omitted, size), cfg, TrimWarnings(keep))
            == At(plan, s.(warnings := s.warnings - 1), omitted, size)
  {
    FewerCopies(plan.texts.warning, s.warnings);
  }

  lemma NextIsSensible(plan: Plan, s: Stage, minimum: nat)
    requires Sensible(plan, s) && Next(plan, s, minimum).Some?
    ensures Sensible(plan, Next(plan, s, minimum).value)
  {
  }

  /** The next reduction leads to the next stage. */
  lemma NextResponse(plan: Plan, s: Stage, omitted: nat, size: Option<nat>, cfg: Config)
    requires Sensible(plan, s) && cfg.evidenceFloor >= 100 && cfg.catalogue == Pages(plan) && cfg.minimumEvidence >= 1
    ensures var next := Next(plan, s, cfg.minimumEvidence);
            var c := Choice(At(plan, s, omitted, size), cfg);
            && (next.None? <==> c.None?)
            && (next.Some? ==> Sensible(plan, next.value)
                               && Reduced(At(plan, s, omitted, size), cfg, c.value)
                                 == At(plan, next.value, omitted, size))
  {
    NextChoice(plan, s, omitted, size, cfg);
    var least := cfg.minimumEvidence;
    if Next(plan, s, least).Some? { NextIsSensible(plan, s, least); }
    if s.topics > 2 {
      AfterTopic(plan, s, omitted, size, cfg, 2);
    } else if s.records > least {
      AfterEvidence(plan, s, omitted, size, cfg, least);
    } else if s.rich > 0 {
      AfterMetadata(plan, s, omitted, size, cfg);
    } else if s.warnings > 0 {
      AfterWarning(plan, s, omitted, size, cfg, 0);
    } else if s.topics > 0 {
      AfterTopic(plan, s, omitted, size, cfg, 0);
    } else if s.records > 2 {
      AfterEvidence(plan, s, omitted, size, cfg, 2);
    }
  }
}
