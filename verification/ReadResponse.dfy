/** The response for one page: fit, write the counters, fit again, write the counters again. */
module ReadResponse {
  import opened Wrappers
  import opened Clipping
  import opened Json
  import opened JsonLengths
  import opened ReadFitting
  import T = TwoPassFit

  // ---------- The response as JSON ----------

  function PassageJson(p: Passage): Value {
    Object([("text", Text(p.text))] + T.Maybe("heading", p.heading))
  }

  function PassagesJson(ps: seq<Passage>): seq<Value> {
    seq(|ps|, i requires 0 <= i < |ps| => PassageJson(ps[i]))
  }

  function Body(p: Page): Members {
    p.identity + [("passages", List(PassagesJson(p.passages)))]
  }

  function Guidance(contextBudget: nat): Members {
    [("detail", Text("compact")), ("context_budget_chars", Number(contextBudget)),
     ("web_content_is_untrusted", T.Truth(true)), ("next_action", Text("answer_user_now")),
     ("do_not_repeat_search_this_turn", T.Truth(true))]
  }

  function Flag(exceeded: bool): Members {
    if exceeded then [("budget_exceeded_for_exact_url", T.Truth(true))] else []
  }

  function Remarks(p: Page): Members {
    Guidance(p.contextBudget) + [("text_compacted", T.Truth(p.textCompacted))]
  }

  /** The keys of the counters, and of the object that holds them. */
  datatype PageKeys = PageKeys(info: string, omitted: string, size: string)

  const PAGE_KEYS := PageKeys(T.KEYS.info, "omitted_passages", T.KEYS.size)

  function Counters(keys: PageKeys, omitted: nat, size: Option<nat>): Members {
    [(keys.omitted, Number(omitted))] + if size.Some? then [(keys.size, Number(size.value))] else []
  }

  function CharsOf(body: Members, fixed: Members, keys: PageKeys, omitted: nat, size: Option<nat>): nat {
    |Dump(T.Whole(body, keys.info, fixed + Counters(keys, omitted, size)))|
  }

  /** The length of the printed response. */
  function PageChars(p: Page): nat {
    CharsOf(Body(p), Remarks(p) + Flag(p.budgetExceeded), PAGE_KEYS, p.omitted, p.serializedChars)
  }

  // ---------- What the counters cost ----------

  lemma CounterChars(keys: PageKeys, omitted: nat, size: Option<nat>)
    ensures MemberChars(Counters(keys, omitted, size))
            == |Quoted(keys.omitted)| + 4 + Digits(omitted)
               + if size.Some? then |Quoted(keys.size)| + 4 + Digits(size.value) else 0
  {
    var first := [(keys.omitted, Number(omitted))];
    T.NumberChars(keys.omitted, omitted);
    if size.Some? {
      T.NumberChars(keys.size, size.value);
      MemberCharsAppend(first, [(keys.size, Number(size.value))]);
    } else {
      assert first + [] == first;
    }
  }

  /** The length, apart from the counters. */
  lemma CharsSplit(body: Members, fixed: Members, keys: PageKeys, omitted: nat, size: Option<nat>)
    ensures CharsOf(body, fixed, keys, omitted, size)
            == MemberChars(body) + |Quoted(keys.info)| + 4 + MemberChars(fixed)
               + MemberChars(Counters(keys, omitted, size))
  {
    var info := fixed + Counters(keys, omitted, size);
    T.ObjectChars(body + [(keys.info, Object(info))]);
    MemberCharsAppend(body, [(keys.info, Object(info))]);
    T.ObjectChars(info);
    MemberCharsAppend(fixed, Counters(keys, omitted, size));
    OneMember(keys.info, Object(info));
  }

  /** Two responses that differ in their counters only differ in length by those. */
  lemma CountersCost(p: Page, omitted: nat, size: Option<nat>)
    ensures var q := p.(omitted := omitted, serializedChars := size);
            PageChars(q) - PageChars(p) == MemberChars(Counters(PAGE_KEYS, omitted, size))
                                           - MemberChars(Counters(PAGE_KEYS, p.omitted, p.serializedChars))
  {
    var q := p.(omitted := omitted, serializedChars := size);
    assert Body(q) == Body(p) && Remarks(q) == Remarks(p);
    CharsSplit(Body(p), Remarks(p) + Flag(p.budgetExceeded), PAGE_KEYS, omitted, size);
    CharsSplit(Body(p), Remarks(p) + Flag(p.budgetExceeded), PAGE_KEYS, p.omitted, p.serializedChars);
  }

  lemma FlagCosts(p: Page)
    ensures PageChars(p.(budgetExceeded := true)) >= PageChars(p.(budgetExceeded := false))
  {
    var on, off := p.(budgetExceeded := true), p.(budgetExceeded := false);
    assert Body(on) == Body(off) && Remarks(on) == Remarks(off) && Remarks(off) + Flag(false) == Remarks(off);
    CharsSplit(Body(off), Remarks(off), PAGE_KEYS, p.omitted, p.serializedChars);
    CharsSplit(Body(off), Remarks(off) + Flag(true), PAGE_KEYS, p.omitted, p.serializedChars);
    MemberCharsAppend(Remarks(off), Flag(true));
  }

  // ---------- Two passes ----------

  /** The counters brought up to date; the size is measured before it is written itself. */
  function Rewritten(p: Page, total: nat): Page {
    var q := p.(omitted := T.Omitted(total, |p.passages|));
    q.(serializedChars := Some(PageChars(q)))
  }

  function Pass(p: Page, budget: int, total: nat): Page {
    Rewritten(Fitted(p, budget, PageChars), total)
  }

  function Compacted(p: Page, budget: int, total: nat): Page {
    Pass(Pass(p, budget, total), budget, total)
  }

  function CounterDigits(p: Page): nat
    requires p.serializedChars.Some?
  {
    Digits(p.omitted) + Digits(p.serializedChars.value)
  }

  /** Writing the counters again changes the size by the change in their digits; the size written is
      measured with the new count and the old size. */
  lemma RewritingCostsDigits(p: Page, total: nat)
    requires p.serializedChars.Some?
    ensures var q := Rewritten(p, total);
            && PageChars(q) - PageChars(p) == CounterDigits(q) - CounterDigits(p)
            && q.serializedChars.value - PageChars(p) == Digits(q.omitted) - Digits(p.omitted)
  {
    var q := Rewritten(p, total);
    CountersCost(p, q.omitted, p.serializedChars);
    CountersCost(p, q.omitted, q.serializedChars);
    CounterChars(PAGE_KEYS, p.omitted, p.serializedChars);
    CounterChars(PAGE_KEYS, q.omitted, p.serializedChars);
    CounterChars(PAGE_KEYS, q.omitted, q.serializedChars);
    assert p.(omitted := q.omitted) == p.(omitted := q.omitted, serializedChars := p.serializedChars);
    assert q == p.(omitted := q.omitted, serializedChars := q.serializedChars);
  }

  /** After the second fit, only digits change: the result exceeds the fitted size by the growth of its two
      counters, and the size it reports is off by the growth of that number alone. */
  lemma CompactedSize(p: Page, budget: int, total: nat)
    ensures var first := Pass(p, budget, total);
            var fitted := Fitted(first, budget, PageChars);
            var q := Compacted(p, budget, total);
            && PageChars(q) - PageChars(fitted) == CounterDigits(q) - CounterDigits(first)
            && PageChars(q) - q.serializedChars.value
               == Digits(q.serializedChars.value) - Digits(first.serializedChars.value)
            && (!q.budgetExceeded ==> PageChars(q) <= budget + CounterDigits(q) - CounterDigits(first))
  {
    var first := Pass(p, budget, total);
    FittingKeeps(first, budget, PageChars);
    RewritingCostsDigits(Fitted(first, budget, PageChars), total);
  }

  /** What is kept of a response: its URL, title, source and privacy parts, the first passages, at least three,
      with their headings, and no text longer than before. */
  ghost predicate Kept(p: Page, q: Page) {
    && q.identity == p.identity && q.contextBudget == p.contextBudget
    && Min(|p.passages|, KEEP) <= |q.passages| <= |p.passages|
    && forall i :: 0 <= i < |q.passages| ==> q.passages[i].heading == p.passages[i].heading
                                             && |q.passages[i].text| <= |p.passages[i].text|
  }

  lemma PassConserves(p: Page, budget: int, total: nat)
    ensures var q := Pass(p, budget, total); Kept(p, q) && q.omitted == T.Omitted(total, |q.passages|)
  {
    FittingKeeps(p, budget, PageChars);
    var f := Fitted(p, budget, PageChars);
    assert Rewritten(f, total).passages == f.passages;
  }

  lemma KeptTwice(p: Page, q: Page, r: Page)
    requires Kept(p, q) && Kept(q, r)
    ensures Kept(p, r)
  {
  }

  /** Across both passes nothing else is lost, and kept and omitted passages add up. */
  lemma CompactedConserves(p: Page, budget: int, total: nat)
    requires |p.passages| <= total
    ensures var q := Compacted(p, budget, total); Kept(p, q) && q.omitted + |q.passages| == total
  {
    var first := Pass(p, budget, total);
    PassConserves(p, budget, total);
    PassConserves(first, budget, total);
    KeptTwice(p, first, Pass(first, budget, total));
  }

  /** The result is flagged exactly when one of the two fits could not reach the budget. */
  lemma CompactedFlagIsHonest(p: Page, budget: int, total: nat)
    requires !p.budgetExceeded
    ensures var first := Pass(p, budget, total);
            Compacted(p, budget, total).budgetExceeded
            <==> (PageChars(Fitted(p, budget, PageChars)) > budget
                  || PageChars(Fitted(first, budget, PageChars)) > budget)
  {
    var first := Pass(p, budget, total);
    FlagCosts(Fitted(p, budget, PageChars));
    FlagCosts(Fitted(first, budget, PageChars));
    FittingKeeps(p, budget, PageChars);
    FittingKeeps(first, budget, PageChars);
  }

  // ---------- In place ----------

  method WriteCounters(payload: PagePayload, total: nat)
    requires payload.size == PageChars
    modifies payload
    ensures payload.View() == Rewritten(old(payload.View()), total)
  {
    payload.omitted := T.Omitted(total, |payload.passages|);
    payload.serializedChars := Some(payload.size(payload.View()));
  }

  method CompactPage(payload: PagePayload, budget: int, total: nat)
    requires payload.size == PageChars
    modifies payload
    ensures payload.View() == Compacted(old(payload.View()), budget, total)
  {
    payload.Fit(budget);
    WriteCounters(payload, total);
    payload.Fit(budget);
    WriteCounters(payload, total);
  }
}
