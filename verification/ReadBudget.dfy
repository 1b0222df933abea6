/** Which budgets the response for one page can exceed without saying so. */
module ReadBudget {
  import opened Wrappers
  import opened Clipping
  import opened Json
  import opened JsonLengths
  import opened MissedBudget
  import opened PackageForms
  import opened ReadFitting
  import opened ReadResponse
  import T = TwoPassFit

  // ---------- Responses as they are built before they are fitted ----------

  const MOST_PASSAGES := 20
  const COMPACT_PASSAGES := 8
  const SOURCE_KEYS :=
    {"site_name", "author", "published_at", "updated_at", "retrieved_at", "extraction_method"}

  function TextRows(rows: seq<(string, string)>): Members {
    seq(|rows|, i requires 0 <= i < |rows| => (rows[i].0, Text(rows[i].1)))
  }

  function Access(transport: string, direct: bool): Value {
    Object([("fetch_transport", Text(transport)), ("direct_egress_allowed", T.Truth(direct))])
  }

  function Identity(url: string, title: string, source: seq<(string, string)>, quarantined: nat, access: Value)
    : Members
  {
    [("url", Text(url))] + [("title", Text(title))]
    + [("source", Object(TextRows(source))), ("quarantined_passages", Number(quarantined)), ("privacy", access)]
  }

  predicate SourceForm(rows: seq<(string, string)>) {
    && (forall i :: 0 <= i < |rows| ==> rows[i].0 in SOURCE_KEYS && rows[i].1 != "")
    && (forall i, j :: 0 <= i < j < |rows| ==> rows[i].0 != rows[j].0)
  }

  predicate AccessForm(access: Value) {
    access in {Access("tor-fetch", false), Access("development", false), Access("development", true)}
  }

  ghost predicate IdentityForm(identity: Members) {
    exists url, title, source, quarantined: nat, access ::
      identity == Identity(url, title, source, quarantined, access)
      && UrlForm(url) && title != "" && SourceForm(source) && AccessForm(access)
  }

  predicate PassageForm(p: Passage) {
    0 < |p.text| <= 1_400 && (p.heading.Some? ==> |p.heading.value| <= 160)
  }

  /** A response as it is built from so many passages of a page. */
  ghost predicate PageBuilt(p: Page, budget: int, total: nat) {
    && p.contextBudget == budget && IdentityForm(p.identity)
    && |p.passages| == Min(total, COMPACT_PASSAGES) && p.omitted == total - |p.passages|
    && (forall i :: 0 <= i < |p.passages| ==> PassageForm(p.passages[i]))
    && !p.budgetExceeded && p.serializedChars.None?
  }

  /** Longer than the budget, without the flag. */
  ghost predicate PageMisses(q: Page, budget: int) {
    !q.budgetExceeded && PageChars(q) > budget
  }

  /** Ten passages can be omitted at the end, and at most nine after the first pass. */
  predicate PassagesGainADigit(total: nat) {
    13 <= total <= 17
  }

  // ---------- When the counters keep their digits ----------

  /** After the first pass: the size that was written, and what writing it added. */
  lemma FirstPageSize(f: Page, total: nat)
    requires f.serializedChars.None?
    ensures var first := ReadResponse.Rewritten(f, total);
            && PageChars(first) == first.serializedChars.value + 22 + Digits(first.serializedChars.value)
            && first.serializedChars.value - PageChars(f) == Digits(first.omitted) - Digits(f.omitted)
  {
    var first := ReadResponse.Rewritten(f, total);
    var counted := f.(omitted := first.omitted);
    CountersCost(f, first.omitted, None);
    CountersCost(counted, first.omitted, first.serializedChars);
    assert counted == f.(omitted := first.omitted, serializedChars := None);
    assert first == counted.(omitted := first.omitted, serializedChars := first.serializedChars);
    SizeKey();
    ReadResponse.CounterChars(PAGE_KEYS, f.omitted, None);
    ReadResponse.CounterChars(PAGE_KEYS, first.omitted, None);
    ReadResponse.CounterChars(PAGE_KEYS, first.omitted, first.serializedChars);
  }

  /** Unless ten passages come to be omitted, only the size can gain a digit, and only just above a power of
      ten. */
  lemma SecondPageSize(first: Page, budget: int, total: nat)
    requires Permitted(budget) && total <= MOST_PASSAGES && first.serializedChars.Some?
    requires first.omitted == total - |first.passages| && |first.passages| <= Min(total, COMPACT_PASSAGES)
    requires |first.passages| >= Min(KEEP, total)
    requires PageChars(first) == first.serializedChars.value + 22 + Digits(first.serializedChars.value)
    requires !JustAboveAPower(budget) && !PassagesGainADigit(total)
    requires PageChars(ReadFitting.Fitted(first, budget, PageChars)) <= budget
    ensures PageChars(ReadResponse.Pass(first, budget, total)) <= budget
  {
    var f := ReadFitting.Fitted(first, budget, PageChars);
    ReadFitting.FittingKeeps(first, budget, PageChars);
    ReadResponse.RewritingCostsDigits(f, total);
    DigitsOfSmall(total - |first.passages|);
    DigitsOfSmall(total - |f.passages|);
    SizeGains(first.serializedChars.value, PageChars(f), budget);
  }

  /** Where neither the size nor the number of omitted passages can gain a digit, a response that is not
      flagged is within its budget. */
  lemma UnflaggedPageIsWithinTheBudget(p: Page, budget: int, total: nat)
    requires Permitted(budget) && total <= MOST_PASSAGES && PageBuilt(p, budget, total)
    requires !JustAboveAPower(budget) && !PassagesGainADigit(total)
    ensures !PageMisses(ReadResponse.Compacted(p, budget, total), budget)
  {
    var kept := ReadFitting.Fitted(p, budget, PageChars);
    var first := ReadResponse.Pass(p, budget, total);
    ReadFitting.FittingKeeps(p, budget, PageChars);
    ReadFitting.FittingKeeps(first, budget, PageChars);
    FirstPageSize(kept, total);
    if !ReadResponse.Compacted(p, budget, total).budgetExceeded {
      SecondPageSize(first, budget, total);
    }
  }
}
