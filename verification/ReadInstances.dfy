/** Responses for one page that exceed their budget unflagged, wherever the budget allows it.

    All passages of such a response have one text, so one passage more costs a fixed number of characters
    and the fit drops passages until the first number that fits. The title, which fitting never shortens,
    gives the response any length. Just above a power of ten a response is made that fits exactly once its
    size is written; for the other budgets one whose last passage costs exactly what writing the size adds. */
module ReadInstances {
  import opened Wrappers
  import opened Clipping
  import opened Json
  import opened JsonLengths
  import opened MissedBudget
  import opened PackageForms
  import opened ReadFitting
  import opened ReadResponse
  import opened ReadBudget
  import opened ShortResponses
  import L = SpareLengths
  import S = SpareResponses
  import T = TwoPassFit

  // ---------- Pages of equal passages ----------

  /** A response for a page with so many passages of one text. */
  function At(identity: Members, budget: nat, text: string, k: nat, omitted: nat, size: Option<nat>): Page {
    Page(identity, budget, seq(k, _ => Passage(text, None)), omitted, false, false, size)
  }

  lemma TextKey()
    ensures Plain("text") && |"text"| == 4
  {
  }

  lemma PassageLength(text: string)
    requires Plain(text)
    ensures |Dump(PassageJson(Passage(text, None)))| == |text| + 12
  {
    var ms := PassageJson(Passage(text, None)).members;
    TextKey();
    FlatObject(ms);
    assert ms[1..] == [];
  }

  lemma PassagesLength(p: Page, text: string)
    requires Plain(text) && forall i :: 0 <= i < |p.passages| ==> p.passages[i] == Passage(text, None)
    ensures ItemChars(PassagesJson(p.passages)) == Times(|p.passages|, |text| + 14)
  {
    PassageLength(text);
    EvenItems(PassagesJson(p.passages), |text| + 14, 0, 0);
  }

  lemma BodyChars(identity: Members, key: string, items: seq<Value>)
    ensures MemberChars(identity + [(key, List(items))]) == MemberChars(identity) + |Quoted(key)| + 4 + ListChars(items)
  {
    MemberCharsAppend(identity, [(key, List(items))]);
    OneMember(key, List(items));
    PrintedList(items);
  }

  /** The parts of the length of a response. */
  lemma PageSplit(p: Page)
    ensures PageChars(p) == MemberChars(p.identity) + |Quoted("passages")| + 4 + ListChars(PassagesJson(p.passages))
                            + |Quoted(PAGE_KEYS.info)| + 4 + MemberChars(Remarks(p) + Flag(p.budgetExceeded))
                            + MemberChars(Counters(PAGE_KEYS, p.omitted, p.serializedChars))
  {
    ReadResponse.CharsSplit(Body(p), Remarks(p) + Flag(p.budgetExceeded), PAGE_KEYS, p.omitted, p.serializedChars);
    BodyChars(p.identity, "passages", PassagesJson(p.passages));
  }

  lemma PassagesDiffer(p: Page, q: Page)
    requires q == p.(passages := q.passages)
    ensures PageChars(q) - PageChars(p) == ListChars(PassagesJson(q.passages)) - ListChars(PassagesJson(p.passages))
  {
    PageSplit(p);
    PageSplit(q);
    assert Remarks(p) == Remarks(q);
  }

  lemma IdentitiesDiffer(p: Page, q: Page)
    requires q == p.(identity := q.identity)
    ensures PageChars(q) - PageChars(p) == MemberChars(q.identity) - MemberChars(p.identity)
  {
    PageSplit(p);
    PageSplit(q);
    assert Remarks(p) == Remarks(q);
  }

  /** One passage costs its text and fourteen characters. */
  lemma OnePassage(identity: Members, budget: nat, text: string, k: nat, omitted: nat, size: Option<nat>)
    requires Plain(text) && k > 0
    ensures PageChars(At(identity, budget, text, k + 1, omitted, size))
            == PageChars(At(identity, budget, text, k, omitted, size)) + |text| + 14
  {
    var p, q := At(identity, budget, text, k, omitted, size), At(identity, budget, text, k + 1, omitted, size);
    PassagesDiffer(p, q);
    PassagesLength(p, text);
    PassagesLength(q, text);
  }

  // ---------- Following the fit ----------

  lemma NextPage(identity: Members, budget: nat, text: string, k: nat, omitted: nat, size: Option<nat>)
    requires |text| <= FLOOR && k > KEEP
    ensures Next(At(identity, budget, text, k, omitted, size))
            == Some(At(identity, budget, text, k - 1, omitted, size))
  {
    var p := At(identity, budget, text, k, omitted, size);
    assert WithoutLast(p) == At(identity, budget, text, k - 1, omitted, size);
  }

  /** Fitting drops passages until the response fits. */
  lemma {:induction false} FitReaches(identity: Members, budget: nat, text: string, j: nat, k: nat, omitted: nat,
                                      size: Option<nat>)
    requires Plain(text) && |text| <= FLOOR && KEEP <= k <= j
    requires PageChars(At(identity, budget, text, k, omitted, size)) <= budget
    requires budget < PageChars(At(identity, budget, text, k, omitted, size)) + |text| + 14
    ensures ReadFitting.Fitted(At(identity, budget, text, j, omitted, size), budget, PageChars)
            == At(identity, budget, text, k, omitted, size)
  {
    if j > k {
      LongerThan(identity, budget, text, j, k, omitted, size);
      NextPage(identity, budget, text, j, omitted, size);
      FitReaches(identity, budget, text, j - 1, k, omitted, size);
    }
  }

  lemma {:induction false} LongerThan(identity: Members, budget: nat, text: string, j: nat, k: nat, omitted: nat,
                                      size: Option<nat>)
    requires Plain(text) && 0 < k < j
    ensures PageChars(At(identity, budget, text, j, omitted, size))
            >= PageChars(At(identity, budget, text, k, omitted, size)) + |text| + 14
  {
    OnePassage(identity, budget, text, j - 1, omitted, size);
    if j > k + 1 { LongerThan(identity, budget, text, j - 1, k, omitted, size); }
  }

  // ---------- A title of the right length ----------

  const URL := S.SITE
  const SOURCE := [("retrieved_at", "2026-01-01T00:00:00Z"), ("extraction_method", "trafilatura")]

  function Titled(n: nat): Members {
    Identity(URL, S.Letters(n), SOURCE, 0, Access("tor-fetch", false))
  }

  lemma TitleCosts(url: string, n: nat, source: seq<(string, string)>, access: Value)
    ensures MemberChars(Identity(url, S.Letters(n), source, 0, access))
            == MemberChars(Identity(url, S.Letters(1), source, 0, access)) + n - 1
  {
    var before := [("url", Text(url))];
    var after := [("source", Object(TextRows(source))), ("quarantined_passages", Number(0)), ("privacy", access)];
    L.LettersArePlain(n);
    L.LettersArePlain(1);
    PlainQuoted(S.Letters(n));
    PlainQuoted(S.Letters(1));
    TitleMember("title", S.Letters(n), S.Letters(1));
    MiddleMemberChars(before, ("title", Text(S.Letters(n))), after);
    MiddleMemberChars(before, ("title", Text(S.Letters(1))), after);
  }

  lemma TitleMember(key: string, s: string, t: string)
    requires Plain(s) && Plain(t)
    ensures |DumpMember((key, Text(s)))| - |DumpMember((key, Text(t)))| == |s| - |t|
  {
    PlainQuoted(s);
    PlainQuoted(t);
    assert DumpMember((key, Text(s))) == Quoted(key) + ": " + Quoted(s);
    assert DumpMember((key, Text(t))) == Quoted(key) + ": " + Quoted(t);
  }

  lemma LongerByTitle(n: nat, budget: nat, text: string, k: nat, omitted: nat)
    ensures PageChars(At(Titled(n), budget, text, k, omitted, None))
            == PageChars(At(Titled(1), budget, text, k, omitted, None)) + n - 1
  {
    IdentitiesDiffer(At(Titled(1), budget, text, k, omitted, None), At(Titled(n), budget, text, k, omitted, None));
    TitleCosts(URL, n, SOURCE, Access("tor-fetch", false));
  }

  // ---------- How short such a response can be ----------

  lemma UrlFits()
    ensures Fits(("url", Text(URL)), 40)
  {
    L.SitesArePlain();
  }

  lemma TitleFits()
    ensures Fits(("title", Text(S.Letters(1))), 40)
  {
  }

  lemma QuarantinedFits()
    ensures Fits(("quarantined_passages", Number(0)), 40)
  {
  }

  lemma SourceFits(i: nat)
    requires i < 2
    ensures Fits(TextRows(SOURCE)[i], 40)
  {
  }

  lemma AccessFits(i: nat)
    requires i < 2
    ensures Fits(Access("tor-fetch", false).members[i], 40)
  {
  }

  lemma ObjectKeys()
    ensures Plain("source") && |"source"| == 6 && Plain("privacy") && |"privacy"| == 7
  {
  }

  lemma ObjectMember(key: string, ms: Members)
    requires Plain(key) && ms != [] && forall i :: 0 <= i < |ms| ==> Fits(ms[i], 40)
    ensures MemberChars([(key, Object(ms))]) <= |key| + 6 + |ms| * 42
  {
    FittingObject(ms, 40);
    PlainQuoted(key);
    OneMember(key, Object(ms));
  }

  lemma FittingOne(m: (string, Value))
    requires Fits(m, 40)
    ensures MemberChars([m]) <= 42
  {
    FittingMembers([m], 40);
  }

  lemma FiveMembers(a: (string, Value), b: (string, Value), c: (string, Value), d: (string, Value), e: (string, Value))
    ensures MemberChars([a] + [b] + [c, d, e])
            == MemberChars([a]) + MemberChars([b]) + MemberChars([c]) + MemberChars([d]) + MemberChars([e])
  {
    assert [a] + [b] + [c, d, e] == [a] + ([b] + ([c] + ([d] + [e])));
    MemberCharsAppend([a], [b] + ([c] + ([d] + [e])));
    MemberCharsAppend([b], [c] + ([d] + [e]));
    MemberCharsAppend([c], [d] + [e]);
    MemberCharsAppend([d], [e]);
  }

  lemma TitledIsShort()
    ensures MemberChars(Titled(1)) <= 400
  {
    var source, access := Object(TextRows(SOURCE)), Access("tor-fetch", false);
    UrlFits();
    TitleFits();
    QuarantinedFits();
    ObjectKeys();
    forall i | 0 <= i < 2 ensures Fits(source.members[i], 40) && Fits(access.members[i], 40) {
      SourceFits(i);
      AccessFits(i);
    }
    ObjectMember("source", source.members);
    ObjectMember("privacy", access.members);
    FittingOne(("url", Text(URL)));
    FittingOne(("title", Text(S.Letters(1))));
    FittingOne(("quarantined_passages", Number(0)));
    FiveMembers(("url", Text(URL)), ("title", Text(S.Letters(1))), ("source", source),
                ("quarantined_passages", Number(0)), ("privacy", access));
  }

  lemma FirstRemarks(budget: nat, i: nat)
    requires i < 2 && Digits(budget) <= 5
    ensures Fits(ReadResponse.Guidance(budget)[i], 60)
  {
  }

  lemma UntrustedRemark(budget: nat)
    ensures Fits(ReadResponse.Guidance(budget)[2], 60)
  {
  }

  lemma ActionRemark(budget: nat)
    ensures Fits(ReadResponse.Guidance(budget)[3], 60)
  {
  }

  lemma RepeatRemark(budget: nat)
    ensures Fits(ReadResponse.Guidance(budget)[4], 60)
  {
  }

  lemma CompactedFits(b: bool)
    ensures Fits(("text_compacted", T.Truth(b)), 60)
  {
  }

  lemma RemarksAreShort(p: Page)
    requires Digits(p.contextBudget) <= 5
    ensures MemberChars(Remarks(p) + ReadResponse.Flag(false)) <= 372
  {
    var ms := Remarks(p);
    assert ms + ReadResponse.Flag(false) == ms;
    CompactedFits(p.textCompacted);
    forall i | 0 <= i < 6 ensures Fits(ms[i], 60) {
      if i < 2 { FirstRemarks(p.contextBudget, i); } else if i == 2 { UntrustedRemark(p.contextBudget); }
      else if i == 3 { ActionRemark(p.contextBudget); } else if i == 4 { RepeatRemark(p.contextBudget); }
    }
    FittingMembers(ms, 60);
  }

  lemma OtherKeys()
    ensures Plain("passages") && |"passages"| == 8 && Plain(PAGE_KEYS.omitted) && |PAGE_KEYS.omitted| == 16
  {
  }

  lemma KeyLengths()
    ensures |Quoted("passages")| == 10 && |Quoted(PAGE_KEYS.info)| == 15 && |Quoted(PAGE_KEYS.omitted)| == 18
  {
    OtherKeys();
    InfoKey();
    PlainQuoted("passages");
    PlainQuoted(PAGE_KEYS.info);
    PlainQuoted(PAGE_KEYS.omitted);
  }

  lemma CounterIsShort(omitted: nat)
    requires omitted < 100
    ensures MemberChars(Counters(PAGE_KEYS, omitted, None)) <= 24
  {
    DigitsOfSmall(omitted);
    KeyLengths();
    ReadResponse.CounterChars(PAGE_KEYS, omitted, None);
  }

  lemma Overhead(p: Page)
    requires Permitted(p.contextBudget) && !p.budgetExceeded && p.serializedChars.None? && p.omitted < 100
    ensures PageChars(p) <= MemberChars(p.identity) + ListChars(PassagesJson(p.passages)) + 430
  {
    DigitsOfSmall(p.contextBudget);
    PageSplit(p);
    RemarksAreShort(p);
    KeyLengths();
    CounterIsShort(p.omitted);
  }

  /** With few passages and a short identity, the response is far below every permitted budget. */
  lemma PagesAreShort(identity: Members, budget: nat, text: string, k: nat, omitted: nat)
    requires MemberChars(identity) <= 400
    requires Permitted(budget) && Plain(text) && |text| <= 20 && k <= COMPACT_PASSAGES && omitted < 100
    ensures PageChars(At(identity, budget, text, k, omitted, None)) <= 3_000
  {
    var p := At(identity, budget, text, k, omitted, None);
    Overhead(p);
    PassagesLength(p, text);
    MoreIsLonger(COMPACT_PASSAGES, k, |text| + 14);
    TimesIsProduct(COMPACT_PASSAGES, |text| + 14);
  }

  /** A title of the right length gives the response any length from there on. */
  lemma AnyLength(budget: nat, text: string, k: nat, omitted: nat, length: nat) returns (n: nat)
    requires Permitted(budget) && Plain(text) && |text| <= 20 && k <= COMPACT_PASSAGES
    requires omitted < 100 && length >= 3_000
    ensures n > 0 && PageChars(At(Titled(n), budget, text, k, omitted, None)) == length
  {
    TitledIsShort();
    PagesAreShort(Titled(1), budget, text, k, omitted);
    n := length - PageChars(At(Titled(1), budget, text, k, omitted, None)) + 1;
    LongerByTitle(n, budget, text, k, omitted);
  }

  lemma TitledForm(n: nat)
    requires n > 0
    ensures IdentityForm(Titled(n))
  {
    var title, access := S.Letters(n), Access("tor-fetch", false);
    assert UrlForm(URL) && title != "" && SourceForm(SOURCE) && AccessForm(access);
  }

  // ---------- A budget just above a power of ten ----------

  function Start(n: nat, budget: nat, text: string, total: nat): Page {
    var k := Min(total, COMPACT_PASSAGES);
    At(Titled(n), budget, text, k, total - k, None)
  }

  lemma StartIsBuilt(n: nat, budget: nat, text: string, total: nat)
    requires n > 0 && 0 < |text| <= 20
    ensures PageBuilt(Start(n, budget, text, total), budget, total)
  {
    TitledForm(n);
  }

  lemma TwoPasses(p: Page, first: Page, budget: int, total: nat)
    requires ReadResponse.Pass(p, budget, total) == first
    requires PageMisses(ReadResponse.Pass(first, budget, total), budget)
    ensures PageMisses(ReadResponse.Compacted(p, budget, total), budget)
  {
  }

  /** What the first pass writes if the number of omitted passages keeps its digits. */
  lemma FirstCount(kept: Page, total: nat)
    requires kept.serializedChars.None? && |kept.passages| <= total
    requires Digits(kept.omitted) == Digits(total - |kept.passages|)
    ensures var first := kept.(omitted := total - |kept.passages|, serializedChars := Some(PageChars(kept)));
            && ReadResponse.Rewritten(kept, total) == first
            && PageChars(first) == PageChars(kept) + 22 + Digits(PageChars(kept))
  {
    FirstPageSize(kept, total);
  }

  lemma SizeGainsADigit(first: Page, budget: nat, total: nat)
    requires JustAboveAPower(budget) && PageChars(first) == budget && first.serializedChars == Some(budget - 26)
    requires |first.passages| <= total && first.omitted == total - |first.passages| && !first.budgetExceeded
    ensures PageMisses(ReadResponse.Pass(first, budget, total), budget)
  {
    DigitsOfSmall(budget - 26);
    DigitsOfSmall(budget);
    assert ReadFitting.Fitted(first, budget, PageChars) == first;
    ReadResponse.RewritingCostsDigits(first, total);
  }

  lemma FittingSize(p: Page, budget: nat, total: nat)
    requires JustAboveAPower(budget) && PageChars(p) == budget - 26
    requires p.serializedChars.None? && |p.passages| <= total && p.omitted == total - |p.passages| && !p.budgetExceeded
    ensures PageMisses(ReadResponse.Compacted(p, budget, total), budget)
  {
    var first := p.(serializedChars := Some(budget - 26));
    DigitsOfSmall(budget - 26);
    FirstCount(p, total);
    assert first == p.(omitted := total - |p.passages|, serializedChars := Some(PageChars(p)));
    assert ReadFitting.Fitted(p, budget, PageChars) == p;
    SizeGainsADigit(first, budget, total);
    TwoPasses(p, first, budget, total);
  }

  const SHORT_TEXT := "brief"

  lemma ShortTextIsPlain()
    ensures Plain(SHORT_TEXT) && |SHORT_TEXT| == 5
  {
  }

  /** Just above a power of ten, some response fits exactly once its size is written, and no longer once
      the size is written with its new digit. */
  lemma PageMissJustAboveAPower(budget: nat, total: nat) returns (p: Page)
    requires JustAboveAPower(budget) && total <= MOST_PASSAGES
    ensures PageBuilt(p, budget, total) && PageMisses(ReadResponse.Compacted(p, budget, total), budget)
  {
    var k := Min(total, COMPACT_PASSAGES);
    ShortTextIsPlain();
    var n := AnyLength(budget, SHORT_TEXT, k, total - k, budget - 26);
    p := Start(n, budget, SHORT_TEXT, total);
    StartIsBuilt(n, budget, SHORT_TEXT, total);
    FittingSize(p, budget, total);
  }

  // ---------- One more digit of omitted passages ----------

  /** The first fit ends on the budget with nine passages omitted. Writing the size exceeds it by what one
      passage costs, the second fit drops that passage, and ten omitted passages are one digit too many. */
  lemma OneDigitTooMany(kept: Page, last: Page, budget: nat, total: nat)
    requires Permitted(budget) && PageChars(kept) == budget && !kept.budgetExceeded && kept.serializedChars.None?
    requires total == |kept.passages| + 9 && kept.omitted < 10
    requires last == kept.(passages := last.passages, omitted := 9, serializedChars := Some(budget))
    requires |last.passages| + 1 == |kept.passages| && PageChars(last) == budget
    requires ReadFitting.Fitted(kept.(omitted := 9, serializedChars := Some(budget)), budget, PageChars) == last
    ensures PageMisses(ReadResponse.Pass(ReadResponse.Rewritten(kept, total), budget, total), budget)
  {
    DigitsOfSmall(kept.omitted);
    DigitsOfSmall(9);
    DigitsOfSmall(10);
    FirstCount(kept, total);
    ReadResponse.RewritingCostsDigits(last, total);
    DigitsGrow(budget, ReadResponse.Rewritten(last, total).serializedChars.value);
  }

  /** The second fit: one passage goes. */
  lemma LastPassageGoes(n: nat, budget: nat, text: string, k: nat, omitted: nat)
    requires Permitted(budget) && Plain(text) && |text| == 8 + Digits(budget) <= 20 && k > KEEP && omitted < 10
    requires PageChars(At(Titled(n), budget, text, k, omitted, None)) == budget
    ensures PageChars(At(Titled(n), budget, text, k - 1, 9, Some(budget))) == budget
    ensures ReadFitting.Fitted(At(Titled(n), budget, text, k, 9, Some(budget)), budget, PageChars)
            == At(Titled(n), budget, text, k - 1, 9, Some(budget))
  {
    DigitsOfSmall(omitted);
    DigitsOfSmall(9);
    FirstCount(At(Titled(n), budget, text, k, omitted, None), k + 9);
    OnePassage(Titled(n), budget, text, k - 1, 9, Some(budget));
    FitReaches(Titled(n), budget, text, k, k - 1, 9, Some(budget));
  }

  lemma MissByOmissions(n: nat, budget: nat, text: string, total: nat)
    requires Permitted(budget) && Plain(text) && |text| == 8 + Digits(budget) <= 20 && PassagesGainADigit(total)
    requires PageChars(At(Titled(n), budget, text, total - 9, total - 8, None)) == budget
    ensures PageMisses(ReadResponse.Compacted(Start(n, budget, text, total), budget, total), budget)
  {
    var k := total - 9;
    var p, kept := Start(n, budget, text, total), At(Titled(n), budget, text, k, total - 8, None);
    FitReaches(Titled(n), budget, text, COMPACT_PASSAGES, k, total - 8, None);
    LastPassageGoes(n, budget, text, k, total - 8);
    OneDigitTooMany(kept, At(Titled(n), budget, text, k - 1, 9, Some(budget)), budget, total);
    TwoPasses(p, ReadResponse.Rewritten(kept, total), budget, total);
  }

  /** Where the number of omitted passages can gain a digit, some response gains it while its size is
      already exactly the budget. */
  lemma PageMissWhereOmissionsGain(budget: nat, total: nat) returns (p: Page)
    requires Permitted(budget) && PassagesGainADigit(total)
    ensures PageBuilt(p, budget, total) && PageMisses(ReadResponse.Compacted(p, budget, total), budget)
  {
    DigitsOfSmall(budget);
    var text := S.Letters(8 + Digits(budget));
    L.LettersArePlain(8 + Digits(budget));
    var n := AnyLength(budget, text, total - 9, total - 8, budget);
    p := Start(n, budget, text, total);
    StartIsBuilt(n, budget, text, total);
    MissByOmissions(n, budget, text, total);
  }

  // ---------- Exactly when the budget can be missed ----------

  /** Some response, built with this budget from so many passages, is returned longer than the budget without
      the flag. */
  ghost predicate PageCanMiss(budget: int, total: nat) {
    exists p :: PageBuilt(p, budget, total) && PageMisses(ReadResponse.Compacted(p, budget, total), budget)
  }

  /** For the budgets the server permits and the numbers of passages it keeps of a page: the budget can be
      missed exactly when a power of ten lies just below it, or among the numbers of passages that may be
      omitted at the end. */
  lemma PageBudgetCanBeMissedIff(budget: nat, total: nat)
    requires Permitted(budget) && total <= MOST_PASSAGES
    ensures PageCanMiss(budget, total) <==> JustAboveAPower(budget) || PassagesGainADigit(total)
  {
    if JustAboveAPower(budget) {
      var p := PageMissJustAboveAPower(budget, total);
    } else if PassagesGainADigit(total) {
      var p := PageMissWhereOmissionsGain(budget, total);
    } else if PageCanMiss(budget, total) {
      var p :| PageBuilt(p, budget, total) && PageMisses(ReadResponse.Compacted(p, budget, total), budget);
      UnflaggedPageIsWithinTheBudget(p, budget, total);
    }
  }
}
