/** How much of a response is neither list nor text from the web.

    Every key and every fixed text is shown to be printed letter by letter, so that what a response
    prints besides its lists can be bounded, whatever its coverage and privacy report say. URLs of the
    right length then give a response of the family any length up to the greatest budget the server
    permits, which is what the instances of module `BudgetInstances` need. The topic, the passages and
    the letters of the URLs are arbitrary: any others of similar length would do as well. */
module ShortResponses {
  import opened Wrappers
  import opened Clipping
  import opened Payload
  import opened Json
  import opened JsonLengths
  import opened TwoPassFit
  import opened ResponseChars
  import opened MissedBudget
  import opened PackageForms
  import opened SpareResponses
  import opened SpareLengths

  // ---------- What a response prints besides its lists ----------

  lemma InstructionPart(s: string, t: string)
    requires Plain(s) && Plain(t)
    ensures Plain(s + t)
  {
  }

  lemma InstructionStarts()
    ensures Plain(ANSWER_NOW) && |ANSWER_NOW| == 34
  {
  }

  lemma InstructionContinues()
    ensures Plain(PREFER_EVIDENCE) && |PREFER_EVIDENCE| == 34
  {
  }

  lemma InstructionEnds()
    ensures Plain(SNIPPETS_LAST) && |SNIPPETS_LAST| == 43
  {
  }

  lemma InstructionIsPlain()
    ensures Plain(ANSWER_INSTRUCTION) && |ANSWER_INSTRUCTION| == 111
  {
    InstructionStarts();
    InstructionContinues();
    InstructionEnds();
    InstructionPart(ANSWER_NOW, PREFER_EVIDENCE);
    InstructionPart(ANSWER_NOW + PREFER_EVIDENCE, SNIPPETS_LAST);
  }

  lemma GuidanceKeys(p: Response)
    ensures Plain("web_content_is_untrusted") && Plain("search_snippets_are_unverified")
            && Plain("use_exact_citations_only")
  {
  }

  lemma GuidanceStarts(p: Response, i: nat)
    requires i < 2 && Digits(p.frame.contextBudget) <= 5
    ensures Fits(Guidance(p)[i], 140)
  {
  }

  lemma GuidanceWarns(p: Response, i: nat)
    requires 2 <= i < 5
    ensures Fits(Guidance(p)[i], 140)
  {
    GuidanceKeys(p);
  }

  lemma GuidanceDirects(p: Response)
    ensures Fits(Guidance(p)[5], 140)
  {
  }

  lemma GuidanceForbids(p: Response)
    ensures Fits(Guidance(p)[6], 140)
  {
  }

  lemma GuidanceInstructs(p: Response)
    ensures Fits(Guidance(p)[7], 140)
  {
    InstructionIsPlain();
  }

  lemma GuidanceIsShort(p: Response)
    requires Digits(p.frame.contextBudget) <= 5
    ensures MemberChars(Guidance(p)) <= 1136
  {
    forall i | 0 <= i < 8 ensures Fits(Guidance(p)[i], 140) {
      if i < 2 { GuidanceStarts(p, i); } else if i < 5 { GuidanceWarns(p, i); }
      else if i == 5 { GuidanceDirects(p); } else if i == 6 { GuidanceForbids(p); } else { GuidanceInstructs(p); }
    }
    FittingMembers(Guidance(p), 140);
  }

  lemma RemarkFits(b: bool)
    ensures Fits(("text_compacted", Truth(b)), 24)
  {
  }

  lemma CounterFits(i: nat)
    requires i < 2
    ensures Fits(WithCounters([], KEYS, 0, 0, None)[i], 40)
  {
  }

  lemma InfoKey()
    ensures Plain(KEYS.info) && |KEYS.info| == 13
  {
  }

  lemma UnflaggedInfo(p: Response)
    requires !p.budgetExceeded
    ensures InfoChars(p) == MemberChars(Guidance(p) + [("text_compacted", Truth(p.textCompacted))])
  {
    assert FixedInfo(p) + FlagInfo(p) == FixedInfo(p);
  }

  lemma InfoIsShort(p: Response)
    requires Digits(p.frame.contextBudget) <= 5 && !p.budgetExceeded
    ensures InfoChars(p) <= 1162
  {
    GuidanceIsShort(p);
    RemarkFits(p.textCompacted);
    OneMoreMember(Guidance(p), ("text_compacted", Truth(p.textCompacted)), 24);
    UnflaggedInfo(p);
  }

  lemma OneMoreMember(ms: Members, m: (string, Value), n: nat)
    requires Fits(m, n)
    ensures MemberChars(ms + [m]) <= MemberChars(ms) + n + 2
  {
    FittingMembers([m], n);
    MemberCharsAppend(ms, [m]);
  }

  lemma CountersAreShort()
    ensures MemberChars(WithCounters([], KEYS, 0, 0, None)) <= 84
  {
    forall i | 0 <= i < 2 ensures Fits(WithCounters([], KEYS, 0, 0, None)[i], 40) { CounterFits(i); }
    FittingMembers(WithCounters([], KEYS, 0, 0, None), 40);
  }

  lemma FirstKeys(p: Response, i: nat)
    requires i < 3
    ensures Plain(BeforeSnippets(p)[i].0) && |BeforeSnippets(p)[i].0| <= 20
  {
  }

  lemma LastKeys(p: Response, i: nat)
    requires i < 5 && p.query.None?
    ensures Plain(AfterSnippets(p)[i].0) && |AfterSnippets(p)[i].0| <= 20
  {
  }

  lemma SnippetsKey()
    ensures Plain("search_snippets") && |"search_snippets"| == 15
  {
  }

  lemma FirstKeysAreShort(p: Response)
    ensures KeyChars(BeforeSnippets(p)) <= 78
  {
    forall i | 0 <= i < 3 ensures Plain(BeforeSnippets(p)[i].0) && |BeforeSnippets(p)[i].0| <= 20 { FirstKeys(p, i); }
    ShortKeys(BeforeSnippets(p), 20);
  }

  lemma FiveLastMembers(p: Response)
    requires p.query.None?
    ensures |AfterSnippets(p)| == 5
  {
  }

  lemma LastKeysAreShort(p: Response)
    requires p.query.None?
    ensures KeyChars(AfterSnippets(p)) <= 130
  {
    FiveLastMembers(p);
    forall i | 0 <= i < 5 ensures Plain(AfterSnippets(p)[i].0) && |AfterSnippets(p)[i].0| <= 20 { LastKeys(p, i); }
    ShortKeys(AfterSnippets(p), 20);
  }

  lemma KeyBetween(before: Members, key: string, v: Value, after: Members)
    requires Plain(key)
    ensures KeyChars(before + [(key, v)] + after) == KeyChars(before) + |key| + 6 + KeyChars(after)
  {
    KeyCharsAppend(before + [(key, v)], after);
    KeyCharsAppend(before, [(key, v)]);
    PlainQuoted(key);
    assert [(key, v)][1..] == [];
  }

  lemma BodyKeysAreShort(p: Response)
    requires p.query.None?
    ensures KeyChars(BodyJson(p)) <= 229
  {
    FirstKeysAreShort(p);
    LastKeysAreShort(p);
    SnippetsKey();
    KeyBetween(BeforeSnippets(p), "search_snippets", List(SnippetsJson(p.snippets)), AfterSnippets(p));
  }

  lemma FirstCoverageKeys(p: Response, i: nat)
    requires i < 4
    ensures Plain(CoverageMembers(p)[i].0) && |CoverageMembers(p)[i].0| <= 24
  {
  }

  lemma PrimaryKey()
    ensures Plain("primary_source_present") && |"primary_source_present"| == 22
  {
  }

  lemma IndependentKey()
    ensures Plain("independent_source_count") && |"independent_source_count"| == 24
  {
  }

  lemma LastCoverageKeys(p: Response, i: nat)
    requires 4 <= i < 6
    ensures Plain(CoverageMembers(p)[i].0) && |CoverageMembers(p)[i].0| <= 24
  {
    PrimaryKey();
    IndependentKey();
  }

  lemma CoverageKeysAreShort(p: Response)
    ensures KeyChars(CoverageMembers(p)) <= 180
  {
    forall i | 0 <= i < 6 ensures Plain(CoverageMembers(p)[i].0) && |CoverageMembers(p)[i].0| <= 24 {
      if i < 4 { FirstCoverageKeys(p, i); } else { LastCoverageKeys(p, i); }
    }
    ShortKeys(CoverageMembers(p), 24);
  }

  lemma PrivacyRow(transports: (string, string), direct: bool, mode: string, i: nat)
    requires i < 4 && |transports.0| <= 13 && |transports.1| <= 13 && |mode| <= 13
    ensures var row := Privacy(transports, direct, mode)[i]; Plain(row.0) && |row.0| + |row.1| <= 36
  {
  }

  lemma PrivacyRows(rows: seq<(string, string)>, i: nat)
    requires PrivacyForm(rows) && i < |rows|
    ensures |rows| == 4 && Plain(rows[i].0) && |rows[i].0| + |rows[i].1| <= 36
  {
    if rows == Privacy(("\"tor-search\"", "\"tor-fetch\""), false, "\"strict\"") {
      PrivacyRow(("\"tor-search\"", "\"tor-fetch\""), false, "\"strict\"", i);
    } else {
      PrivacyRow(("\"development\"", "\"development\""), rows[2].1 == "true", "\"development\"", i);
    }
  }

  lemma PrivacyIsShort(p: Response)
    requires PrivacyForm(p.frame.privacy)
    ensures |Dump(PrivacyJson(p))| <= 168
  {
    var ms, rows := PrivacyJson(p).members, p.frame.privacy;
    PrivacyRows(rows, 0);
    forall i | 0 <= i < 4 ensures Fits(ms[i], 40) { PrivacyRows(rows, i); }
    FittingObject(ms, 40);
  }

  lemma StatusIsShort(status: string)
    requires status in STATUSES
    ensures Plain(status) && |status| <= 12
  {
  }

  /** The coverage report besides its topics. */
  lemma CoverageIsShort(p: Response)
    requires FrameForm(p.frame, p.frame.contextBudget)
    ensures |Dump(CoverageJson(p))| <= CoverageChars(p) + 206
  {
    CoverageSplit(p);
    CoverageKeysAreShort(p);
    StatusIsShort(p.frame.status);
    PlainQuoted(p.frame.status);
    DigitsOfSmall(p.frame.independentSources);
  }

  const OVERHEAD := 1_900

  /** A response is hardly longer than its lists. */
  lemma ListsAreMost(p: Response, budget: int)
    requires Permitted(budget) && FrameForm(p.frame, budget) && p.query.None? && !p.budgetExceeded
    requires p.omittedEvidence == 0 && p.omittedSnippets == 0 && p.serializedChars.None?
    ensures ListsChars(p) <= JsonChars(p) <= ListsChars(p) + OVERHEAD
  {
    CharsSplit(BodyJson(p), FixedInfo(p) + FlagInfo(p), KEYS, 0, 0, None);
    DigitsOfSmall(p.frame.contextBudget);
    InfoIsShort(p);
    CountersAreShort();
    InfoKey();
    PlainQuoted(KEYS.info);
    BodySplit(p);
    BodyKeysAreShort(p);
    CoverageIsShort(p);
    CoverageSplit(p);
    PrivacyIsShort(p);
  }

  // ---------- One plan for every length ----------

  const TOPIC := "what the counters of a response count"
  const WARNING_START := "Local embedding model unavailable "
  const WARNING_END := "or disabled; lexical ranking was used."
  const WARNING := WARNING_START + WARNING_END
  const NO_PRIMARY_START := "No clearly identifiable primary "
  const NO_PRIMARY_END := "source was retained."
  const NO_PRIMARY := NO_PRIMARY_START + NO_PRIMARY_END
  const WORDING := Wording("Manual", "official_documentation", TOPIC, WARNING)

  function PlanFor(frame: Frame, single: bool, passage: nat, missing: seq<string>, unresolved: seq<string>): Plan {
    Plan(frame, single, 0, 0, Letters(passage), WORDING, missing, unresolved)
  }

  lemma TopicIsPlain()
    ensures Plain(TOPIC) && |TOPIC| == 37
  {
  }

  lemma WarningStarts()
    ensures Plain(WARNING_START) && |WARNING_START| == 34
  {
  }

  lemma WarningEnds()
    ensures Plain(WARNING_END) && |WARNING_END| == 38
  {
  }

  lemma WarningIsPlain()
    ensures Plain(WARNING) && |WARNING| == 72
  {
    WarningStarts();
    WarningEnds();
    PlainAppend(WARNING_START, WARNING_END);
  }

  lemma NoPrimaryStarts()
    ensures Plain(NO_PRIMARY_START) && |NO_PRIMARY_START| == 32
  {
  }

  lemma NoPrimaryEnds()
    ensures Plain(NO_PRIMARY_END) && |NO_PRIMARY_END| == 20
  {
  }

  lemma NoPrimaryIsPlain()
    ensures Plain(NO_PRIMARY) && |NO_PRIMARY| == 52
  {
    NoPrimaryStarts();
    NoPrimaryEnds();
    PlainAppend(NO_PRIMARY_START, NO_PRIMARY_END);
  }

  lemma TitleIsPlain()
    ensures Plain("Manual") && |"Manual"| == 6 && IsNormal("Manual")
  {
  }

  lemma KindIsPlain()
    ensures Plain("official_documentation") && |"official_documentation"| == 22
  {
  }

  /** The plan meets what following its fit needs. */
  lemma PlanIsUsable(plan: Plan, passage: nat)
    requires plan.texts == WORDING && plan.passage == Letters(passage)
    ensures Readable(plan) && Spacious(plan) && Normal(plan)
    ensures RecordChars(plan) == 71 + passage && OriginChars(plan) == 87 + plan.pageLetters && KindChars(plan) == 41
    ensures SnippetChars(plan) == 104
  {
    TopicIsPlain();
    WarningIsPlain();
    TitleIsPlain();
    KindIsPlain();
    LettersArePlain(passage);
  }

  lemma {:induction false} TimesIsProduct(k: nat, width: nat)
    ensures Times(k, width) == k * width
  {
    if k > 0 {
      TimesIsProduct(k - 1, width);
      assert k * width == (k - 1) * width + width;
    }
  }

  lemma OtherSnippets(p: Response, snippets: seq<Snippet>)
    requires p.query.None? && p.snippets != [] && snippets != []
    ensures JsonChars(p.(snippets := snippets)) - JsonChars(p)
            == ItemChars(SnippetsJson(snippets)) - ItemChars(SnippetsJson(p.snippets))
  {
    CharsDifference(p, p.(snippets := snippets));
    SameInfo(p, p.(snippets := snippets));
  }

  lemma OnlySnippetsDiffer(plan: Plan, n: nat, s: Stage, omitted: nat, size: Option<nat>)
    ensures At(plan.(letters := n), s, omitted, size)
            == At(plan, s, omitted, size).(snippets := ExactSnippets(plan.(letters := n)))
  {
    var more := plan.(letters := n);
    assert Records(more, s.records) == Records(plan, s.records);
    assert Origins(more, PageCount(more, s.records), s.rich) == Origins(plan, PageCount(plan, s.records), s.rich);
  }

  /** Letters added to the URLs of the snippets lengthen the response by just as many. */
  lemma LongerByLetters(plan: Plan, n: nat, s: Stage, omitted: nat, size: Option<nat>)
    requires Readable(plan) && plan.letters == 0 && n <= MOST_EXACT * LONGEST_TAIL
    ensures JsonChars(At(plan.(letters := n), s, omitted, size)) == JsonChars(At(plan, s, omitted, size)) + n
  {
    OnlySnippetsDiffer(plan, n, s, omitted, size);
    OtherSnippets(At(plan, s, omitted, size), ExactSnippets(plan.(letters := n)));
    SnippetsLength(plan);
    SnippetsLength(plan.(letters := n));
  }
}
