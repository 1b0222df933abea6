/** How long the responses of the family are, and where fitting them ends.

    All texts of a response of the family are plain, so a record, a page and a snippet each have one
    printed length, and the length of a stage is a sum of multiples. Before the goal of a fit every stage
    is longer than the goal by more than the slack the budget leaves, so the fit cannot stop early. */
module SpareLengths {
  import opened Wrappers
  import opened Payload
  import opened Fitting
  import opened Json
  import opened JsonLengths
  import opened TwoPassFit
  import opened ResponseChars
  import opened MissedBudget
  import opened PackageForms
  import opened SpareResponses

  // ---------- Plain parts ----------

  lemma PlainAppend(s: string, t: string)
    requires Plain(s) && Plain(t)
    ensures Plain(s + t)
  {
  }

  lemma LettersArePlain(n: nat)
    ensures Plain(Letters(n))
  {
  }

  lemma PaddedIsPlain(n: nat)
    requires n < 100
    ensures |Padded(n)| == 3 && Plain(Padded(n))
  {
    PaddedDigits(n);
  }

  lemma BracketsArePlain()
    ensures Plain("[search_") && |"[search_"| == 8 && Plain("[") && Plain("]") && Plain(", ev_") && |", ev_"| == 5
  {
  }

  lemma SnippetCitationForm(n: nat)
    requires n < 100
    ensures |SnippetCitation(n)| == 12 && Plain(SnippetCitation(n))
  {
    PaddedIsPlain(n);
    BracketsArePlain();
    PlainAppend("[search_", Padded(n));
    PlainAppend("[search_" + Padded(n), "]");
  }

  lemma EvidenceCitationForm(m: nat, n: nat)
    requires m < 100 && n < 100
    ensures |EvidenceCitation(SourceId(m), n)| == 17 && Plain(EvidenceCitation(SourceId(m), n))
  {
    PaddedIsPlain(n);
    SourceIdForm(m);
    BracketsArePlain();
    PlainAppend("[", SourceId(m));
    PlainAppend("[" + SourceId(m), ", ev_");
    PlainAppend("[" + SourceId(m) + ", ev_", Padded(n));
    PlainAppend("[" + SourceId(m) + ", ev_" + Padded(n), "]");
  }

  lemma SitesArePlain()
    ensures Plain(SITE) && |SITE| == 24 && Plain(OTHER_SITE) && |OTHER_SITE| == 24
  {
  }

  lemma PageUrl(plan: Plan, n: nat)
    requires n < 100
    ensures var url := Page(plan, SourceId(n)).url; |url| == 31 + plan.pageLetters && Plain(url)
  {
    SitesArePlain();
    SourceIdForm(n);
    LettersArePlain(plan.pageLetters);
    PlainAppend(SITE, SourceId(n));
    PlainAppend(SITE + SourceId(n), Letters(plan.pageLetters));
  }

  lemma SnippetUrl(plan: Plan, n: nat, letters: nat)
    requires n < 100
    ensures var url := SnippetAt(plan, n, letters).url; |url| == 27 + letters && Plain(url)
  {
    SitesArePlain();
    PaddedIsPlain(n);
    LettersArePlain(letters);
    PlainAppend(OTHER_SITE, Padded(n));
    PlainAppend(OTHER_SITE + Padded(n), Letters(letters));
  }

  // ---------- One record, one source, one snippet ----------

  lemma EvidenceKeys()
    ensures Plain("citation") && Plain("source_id") && Plain("text")
    ensures |"citation"| == 8 && |"source_id"| == 9 && |"text"| == 4
  {
  }

  lemma EvidenceLength(e: Evidence)
    requires Plain(e.citation) && Plain(e.sourceId) && Plain(e.text) && e.heading.None?
    ensures |Dump(EvidenceJson(e))| == 45 + |e.citation| + |e.sourceId| + |e.text|
  {
    var ms := EvidenceJson(e).members;
    EvidenceKeys();
    FlatObject(ms);
    ThreeFlat(ms);
  }

  lemma SourceKeys()
    ensures Plain("source_id") && Plain("title") && Plain("url")
    ensures |"source_id"| == 9 && |"title"| == 5 && |"url"| == 3
  {
  }

  lemma TypeKey()
    ensures Plain("source_type") && |"source_type"| == 11
  {
  }

  lemma PoorSourceLength(s: Source)
    requires Plain(s.sourceId) && Plain(s.title) && Plain(s.url) && s.publishedAt.None? && s.sourceType.None?
    ensures |Dump(SourceJson(s))| == 41 + |s.sourceId| + |s.title| + |s.url|
  {
    var ms := SourceJson(s).members;
    SourceKeys();
    FlatObject(ms);
    ThreeFlat(ms);
  }

  lemma RichSourceLength(s: Source)
    requires Plain(s.sourceId) && Plain(s.title) && Plain(s.url) && s.publishedAt.None?
             && s.sourceType.Some? && Plain(s.sourceType.value)
    ensures |Dump(SourceJson(s))| == 60 + |s.sourceId| + |s.title| + |s.url| + |s.sourceType.value|
  {
    var poor := s.(sourceType := None);
    var ms, more := SourceJson(poor).members, [("source_type", Text(s.sourceType.value))];
    PoorSourceLength(poor);
    TypeKey();
    SourceKeys();
    assert SourceJson(s).members == ms + more;
    FlatObject(ms);
    FlatObject(ms + more);
    FlatAppend(ms, more);
    assert more[1..] == [];
  }

  lemma SnippetKeys()
    ensures Plain("citation") && Plain("role") && Plain("exact")
    ensures |"citation"| == 8 && |"role"| == 4 && |"exact"| == 5
  {
  }

  lemma SnippetLength(s: Snippet)
    requires Plain(s.citation) && Plain(s.title) && Plain(s.url) && s.exact && s.text.None?
    ensures |Dump(SnippetJson(s))| == 57 + |s.citation| + |s.title| + |s.url|
  {
    var ms := SnippetJson(s).members;
    SnippetKeys();
    SourceKeys();
    FlatObject(ms);
    ThreeFlat(ms[..3]);
    assert ms == ms[..3] + [ms[3]] && [ms[3]][1..] == [];
    FlatAppend(ms[..3], [ms[3]]);
  }

  // ---------- The lists of a stage ----------

  ghost predicate Readable(plan: Plan) {
    && Plain(plan.passage) && Plain(plan.texts.title) && Plain(plan.texts.kind)
    && Plain(plan.texts.topic) && Plain(plan.texts.warning)
  }

  /** A record in its list, with a separator. */
  function RecordChars(plan: Plan): nat {
    71 + |plan.passage|
  }

  /** A source without its type, with a separator. */
  function OriginChars(plan: Plan): nat {
    81 + |plan.texts.title| + plan.pageLetters
  }

  /** The type of a source, with its key and a separator. */
  function KindChars(plan: Plan): nat {
    19 + |plan.texts.kind|
  }

  /** A snippet with no letters added to its URL, with a separator. */
  function SnippetChars(plan: Plan): nat {
    98 + |plan.texts.title|
  }

  function CopiesChars(text: string, n: nat): nat {
    if n == 0 then 2 else Times(n, |text| + 4)
  }

  lemma RecordsLength(plan: Plan, k: nat)
    requires Readable(plan) && k <= MOST_EVIDENCE
    ensures ItemChars(EvidencesJson(Records(plan, k))) == Times(k, RecordChars(plan))
  {
    var items := EvidencesJson(Records(plan, k));
    forall i | 0 <= i < k ensures |Dump(items[i])| + 2 == RecordChars(plan) {
      PageNumbers(plan, i, i);
      SourceIdForm(PageOf(plan, i));
      EvidenceCitationForm(PageOf(plan, i), i + 1);
      EvidenceLength(RecordAt(plan, i));
    }
    EvenItems(items, RecordChars(plan), 0, 0);
  }

  lemma OriginsLength(plan: Plan, count: nat, rich: nat)
    requires Readable(plan) && rich <= count <= PAGES
    ensures ItemChars(SourcesJson(Origins(plan, count, rich)))
            == Times(count, OriginChars(plan)) + Times(rich, KindChars(plan))
  {
    var items := SourcesJson(Origins(plan, count, rich));
    forall i | 0 <= i < count
      ensures |Dump(items[i])| + 2 == OriginChars(plan) + if i < rich then KindChars(plan) else 0
    {
      SourceIdForm(i + 1);
      PageUrl(plan, i + 1);
      if i < rich {
        RichSourceLength(Origin(plan, SourceId(i + 1), true));
      } else {
        PoorSourceLength(Origin(plan, SourceId(i + 1), false));
      }
    }
    EvenItems(items, OriginChars(plan), rich, KindChars(plan));
  }

  lemma {:induction false} WidthsAddUp(items: seq<Value>, width: nat, more: seq<nat>)
    requires |items| == |more| && forall i :: 0 <= i < |items| ==> |Dump(items[i])| + 2 == width + more[i]
    ensures ItemChars(items) == Times(|items|, width) + Sum(more)
  {
    if items != [] { WidthsAddUp(items[1..], width, more[1..]); }
  }

  lemma SnippetsLength(plan: Plan)
    requires Readable(plan) && plan.letters <= MOST_EXACT * LONGEST_TAIL
    ensures ItemChars(SnippetsJson(ExactSnippets(plan))) == Times(MOST_EXACT, SnippetChars(plan)) + plan.letters
  {
    var items, more := SnippetsJson(ExactSnippets(plan)), Spread(plan.letters, MOST_EXACT);
    SpreadForm(plan.letters, MOST_EXACT);
    forall i | 0 <= i < MOST_EXACT ensures |Dump(items[i])| + 2 == SnippetChars(plan) + more[i] {
      SnippetCitationForm(i + 1);
      SnippetUrl(plan, i + 1, more[i]);
      SnippetLength(SnippetAt(plan, i + 1, more[i]));
    }
    WidthsAddUp(items, SnippetChars(plan), more);
  }

  lemma CopiesLength(text: string, n: nat)
    requires Plain(text)
    ensures ListChars(Texts(Copies(text, n))) == CopiesChars(text, n)
  {
    var items := Texts(Copies(text, n));
    PlainQuoted(text);
    forall i | 0 <= i < n ensures |Dump(items[i])| + 2 == |text| + 4 {
      assert items[i] == Text(text);
    }
    EvenItems(items, |text| + 4, 0, 0);
  }

  // ---------- The length of a stage ----------

  /** What a stage adds to the length of the response. */
  function StageChars(plan: Plan, s: Stage): nat {
    Times(s.records, RecordChars(plan)) + Times(PageCount(plan, s.records), OriginChars(plan))
    + Times(s.rich, KindChars(plan)) + CopiesChars(plan.texts.warning, s.warnings)
    + CopiesChars(plan.texts.topic, s.topics)
  }

  ghost predicate Sized(plan: Plan, s: Stage) {
    Readable(plan) && s.records <= MOST_EVIDENCE && s.rich <= PageCount(plan, s.records)
  }

  lemma StageLists(plan: Plan, s: Stage, omitted: nat, size: Option<nat>)
    requires Sized(plan, s)
    ensures var p := At(plan, s, omitted, size);
            ListsChars(p) == StageChars(plan, s) + ListChars(Texts(plan.missing))
                             + ListChars(SnippetsJson(ExactSnippets(plan))) + 2
                             + ListChars(Texts(plan.unresolved)) + 2 + if s.records == 0 then 4 else 0
  {
    if s.records > 0 { PageNumbers(plan, s.records - 1, s.records - 1); }
    RecordsLength(plan, s.records);
    OriginsLength(plan, PageCount(plan, s.records), s.rich);
    CopiesLength(plan.texts.topic, s.topics);
    CopiesLength(plan.texts.warning, s.warnings);
  }

  lemma StagesDiffer(plan: Plan, s: Stage, t: Stage, omitted: nat, size: Option<nat>)
    requires Sized(plan, s) && Sized(plan, t) && s.records > 0 && t.records > 0
    ensures JsonChars(At(plan, s, omitted, size)) - JsonChars(At(plan, t, omitted, size))
            == StageChars(plan, s) - StageChars(plan, t)
  {
    var p, q := At(plan, s, omitted, size), At(plan, t, omitted, size);
    CharsDifference(q, p);
    SameInfo(q, p);
    StageLists(plan, s, omitted, size);
    StageLists(plan, t, omitted, size);
  }

  // ---------- Following the fit ----------

  ghost predicate Spacious(plan: Plan) {
    |plan.texts.topic| >= 30 && |plan.texts.warning| >= 30 && |plan.texts.kind| >= 11
  }

  predicate Goal(goal: Stage) {
    goal.records > 0 && goal.rich == 0 && goal.warnings == 0 && goal.topics == 0
  }

  /** Before the goal is reached, a stage is longer than it by at least 30 characters. */
  lemma EarlierIsLonger(plan: Plan, s: Stage, goal: Stage, omitted: nat, size: Option<nat>)
    requires Spacious(plan) && Sized(plan, s) && Goal(goal) && s != goal && s.records >= goal.records
    ensures JsonChars(At(plan, s, omitted, size)) >= JsonChars(At(plan, goal, omitted, size)) + 30
  {
    StagesDiffer(plan, s, goal, omitted, size);
    PageNumbers(plan, goal.records - 1, s.records - 1);
    MoreIsLonger(s.records, goal.records, RecordChars(plan));
    MoreIsLonger(PageCount(plan, s.records), PageCount(plan, goal.records), OriginChars(plan));
    MoreIsLonger(s.rich, 0, KindChars(plan));
    MoreIsLonger(s.warnings, 0, |plan.texts.warning| + 4);
    MoreIsLonger(s.topics, 0, |plan.texts.topic| + 4);
  }

  /** Fitting goes through the stages until it reaches the first one that fits. */
  lemma {:induction false} FitReaches(plan: Plan, s: Stage, goal: Stage, omitted: nat, size: Option<nat>, cfg: Config,
                                      budget: int)
    requires Readable(plan) && Spacious(plan) && Sensible(plan, s)
    requires cfg.evidenceFloor >= 100 && cfg.catalogue == Pages(plan)
    requires Goal(goal) && 2 <= goal.records <= s.records && goal.records <= cfg.minimumEvidence
    requires JsonChars(At(plan, goal, omitted, size)) <= budget < JsonChars(At(plan, goal, omitted, size)) + 30
    ensures Fitted(At(plan, s, omitted, size), cfg, budget, JsonChars) == At(plan, goal, omitted, size)
    decreases s.records, s.rich + s.warnings + s.topics
  {
    if s != goal {
      EarlierIsLonger(plan, s, goal, omitted, size);
      NextResponse(plan, s, omitted, size, cfg);
      FitReaches(plan, Next(plan, s, cfg.minimumEvidence).value, goal, omitted, size, cfg, budget);
    }
  }
}
