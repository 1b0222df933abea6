/** Compacting a response: fit, write the counters, fit again, write the counters again. */
module TwoPassFit {
  import opened Wrappers
  import opened Payload
  import opened Fitting
  import opened FittingProperties
  import opened FittingOrder
  import opened FittingLoop
  import opened Json

  // ---------- The response as JSON ----------

  function Texts(xs: seq<string>): seq<Value> {
    seq(|xs|, i requires 0 <= i < |xs| => Text(xs[i]))
  }

  function Truth(b: bool): Value {
    Literal(if b then "true" else "false")
  }

  function Maybe(key: string, text: Option<string>): seq<(string, Value)> {
    if text.Some? then [(key, Text(text.value))] else []
  }

  function CoverageJson(p: Response): Value {
    Object([("score", Literal(p.frame.score)), ("status", Text(p.frame.status)),
            ("covered_topics", List(Texts(p.covered))), ("missing_topics", List(Texts(p.missing))),
            ("primary_source_present", Truth(p.frame.primarySource)),
            ("independent_source_count", Number(p.frame.independentSources))])
  }

  function SourceJson(s: Source): Value {
    Object([("source_id", Text(s.sourceId)), ("title", Text(s.title)), ("url", Text(s.url))]
           + Maybe("published_at", s.publishedAt) + Maybe("source_type", s.sourceType))
  }

  function EvidenceJson(e: Evidence): Value {
    Object([("citation", Text(e.citation)), ("source_id", Text(e.sourceId)), ("text", Text(e.text))]
           + Maybe("heading", e.heading))
  }

  function SnippetJson(s: Snippet): Value {
    Object([("citation", Text(s.citation)), ("role", Text(if s.exact then "exact" else "expanded")),
            ("title", Text(s.title)), ("url", Text(s.url))] + Maybe("text", s.text))
  }

  function ContradictionJson(c: Contradiction): Value {
    Object([("topic", Text(c.topic)), ("evidence_ids", List(Texts(c.evidenceIds))),
            ("description", Text(c.description)), ("severity", Text(c.severity))])
  }

  function FailureJson(f: Failure): Value {
    Object([("stage", Text(f.stage)), ("error", Text(f.error)), ("count", Number(f.count))])
  }

  function PrivacyJson(p: Response): Value {
    var rows := p.frame.privacy;
    Object(seq(|rows|, i requires 0 <= i < |rows| => (rows[i].0, Literal(rows[i].1))))
  }

  function SourcesJson(ss: seq<Source>): seq<Value> {
    seq(|ss|, i requires 0 <= i < |ss| => SourceJson(ss[i]))
  }

  function EvidencesJson(es: seq<Evidence>): seq<Value> {
    seq(|es|, i requires 0 <= i < |es| => EvidenceJson(es[i]))
  }

  function SnippetsJson(ss: seq<Snippet>): seq<Value> {
    seq(|ss|, i requires 0 <= i < |ss| => SnippetJson(ss[i]))
  }

  function ContradictionsJson(cs: seq<Contradiction>): seq<Value> {
    seq(|cs|, i requires 0 <= i < |cs| => ContradictionJson(cs[i]))
  }

  function FailuresJson(fs: seq<Failure>): seq<Value> {
    seq(|fs|, i requires 0 <= i < |fs| => FailureJson(fs[i]))
  }

  function BeforeSnippets(p: Response): seq<(string, Value)> {
    [("coverage", CoverageJson(p)), ("sources", List(SourcesJson(p.sources))),
     ("evidence", List(EvidencesJson(p.evidence)))]
  }

  function AfterSnippets(p: Response): seq<(string, Value)> {
    [("contradictions", List(ContradictionsJson(p.contradictions))),
     ("unresolved_questions", List(Texts(p.unresolved))),
     ("warnings", List(Texts(p.warnings))), ("failures", List(FailuresJson(p.failures))), ("privacy", PrivacyJson(p))]
    + Maybe("query", p.query)
  }

  function BodyJson(p: Response): seq<(string, Value)> {
    BeforeSnippets(p) + [("search_snippets", List(SnippetsJson(p.snippets)))] + AfterSnippets(p)
  }

  const ANSWER_NOW := "Answer every supported topic now; "
  const PREFER_EVIDENCE := "prefer evidence citations and use "
  const SNIPPETS_LAST := "snippet citations only for unresolved gaps."
  const ANSWER_INSTRUCTION := ANSWER_NOW + PREFER_EVIDENCE + SNIPPETS_LAST

  function Guidance(p: Response): seq<(string, Value)> {
    [("detail", Text("compact")), ("context_budget_chars", Number(p.frame.contextBudget)),
     ("web_content_is_untrusted", Truth(true)), ("search_snippets_are_unverified", Truth(true)),
     ("use_exact_citations_only", Truth(true)), ("next_action", Text("answer_user_now")),
     ("do_not_repeat_search_this_turn", Truth(true)), ("answer_instruction", Text(ANSWER_INSTRUCTION))]
  }

  function FixedInfo(p: Response): seq<(string, Value)> {
    Guidance(p) + [("text_compacted", Truth(p.textCompacted))]
  }

  function FlagInfo(p: Response): seq<(string, Value)> {
    if p.budgetExceeded then [("budget_exceeded_for_exact_urls", Truth(true))] else []
  }

  /** The keys of the counters, and of the object that holds them. */
  datatype CounterKeys = CounterKeys(info: string, evidence: string, snippets: string, size: string)

  const KEYS := CounterKeys("response_info", "omitted_evidence", "omitted_search_snippets", "serialized_chars")

  function WithCounters(fixed: seq<(string, Value)>, keys: CounterKeys, evidence: nat, snippets: nat, size: Option<nat>)
    : seq<(string, Value)>
  {
    fixed + [(keys.evidence, Number(evidence)), (keys.snippets, Number(snippets))]
    + if size.Some? then [(keys.size, Number(size.value))] else []
  }

  function Whole(body: seq<(string, Value)>, key: string, info: seq<(string, Value)>): Value {
    Object(body + [(key, Object(info))])
  }

  function CharsOf(body: seq<(string, Value)>, fixed: seq<(string, Value)>, keys: CounterKeys,
                   evidence: nat, snippets: nat, size: Option<nat>): nat
  {
    |Dump(Whole(body, keys.info, WithCounters(fixed, keys, evidence, snippets, size)))|
  }

  /** The length of the printed response. */
  function JsonChars(p: Response): nat {
    CharsOf(BodyJson(p), FixedInfo(p) + FlagInfo(p), KEYS, p.omittedEvidence, p.omittedSnippets, p.serializedChars)
  }

  // ---------- What the counters cost ----------

  lemma ObjectChars(members: seq<(string, Value)>)
    requires members != []
    ensures |Dump(Object(members))| == MemberChars(members)
  {
    MembersLength(members);
  }

  lemma WholeChars(body: seq<(string, Value)>, key: string, info: seq<(string, Value)>, info': seq<(string, Value)>)
    requires info != [] && info' != []
    ensures |Dump(Whole(body, key, info'))| - |Dump(Whole(body, key, info))| == MemberChars(info') - MemberChars(info)
  {
    var member, member' := (key, Object(info)), (key, Object(info'));
    ObjectChars(body + [member]);
    ObjectChars(body + [member']);
    MemberCharsAppend(body, [member]);
    MemberCharsAppend(body, [member']);
    ObjectChars(info);
    ObjectChars(info');
  }

  lemma NumberChars(key: string, n: nat)
    ensures MemberChars([(key, Number(n))]) == |Quoted(key)| + 4 + Digits(n)
  {
    var members := [(key, Number(n))];
    assert members[1..] == [] && DumpMember(members[0]) == Quoted(key) + ": " + Dump(Number(n));
  }

  lemma CounterChars(fixed: seq<(string, Value)>, keys: CounterKeys, evidence: nat, snippets: nat, size: nat)
    ensures MemberChars(WithCounters(fixed, keys, evidence, snippets, Some(size))) ==
            MemberChars(fixed) + |Quoted(keys.evidence)| + |Quoted(keys.snippets)| + |Quoted(keys.size)| + 12
            + Digits(evidence) + Digits(snippets) + Digits(size)
  {
    var e, s, n := [(keys.evidence, Number(evidence))], [(keys.snippets, Number(snippets))],
      [(keys.size, Number(size))];
    assert WithCounters(fixed, keys, evidence, snippets, Some(size)) == fixed + (e + (s + n));
    MemberCharsAppend(fixed, e + (s + n));
    MemberCharsAppend(e, s + n);
    MemberCharsAppend(s, n);
    NumberChars(keys.evidence, evidence);
    NumberChars(keys.snippets, snippets);
    NumberChars(keys.size, size);
  }

  lemma CountersCostDigits(body: seq<(string, Value)>, fixed: seq<(string, Value)>, keys: CounterKeys,
                           evidence: nat, snippets: nat, size: nat, evidence': nat, snippets': nat, size': nat)
    ensures CharsOf(body, fixed, keys, evidence', snippets', Some(size'))
            - CharsOf(body, fixed, keys, evidence, snippets, Some(size))
            == Digits(evidence') + Digits(snippets') + Digits(size')
               - Digits(evidence) - Digits(snippets) - Digits(size)
  {
    WholeChars(body, keys.info, WithCounters(fixed, keys, evidence, snippets, Some(size)),
               WithCounters(fixed, keys, evidence', snippets', Some(size')));
    CounterChars(fixed, keys, evidence, snippets, size);
    CounterChars(fixed, keys, evidence', snippets', size');
  }

  function CounterDigits(p: Response): nat
    requires p.serializedChars.Some?
  {
    Digits(p.omittedEvidence) + Digits(p.omittedSnippets) + Digits(p.serializedChars.value)
  }

  function Recounted(p: Response, evidence: nat, snippets: nat, size: nat): Response {
    p.(omittedEvidence := evidence, omittedSnippets := snippets, serializedChars := Some(size))
  }

  /** Rewriting the counters changes the size by the change in their digits. */
  lemma RecountingCostsDigits(p: Response, evidence: nat, snippets: nat, size: nat)
    requires p.serializedChars.Some?
    ensures var q := Recounted(p, evidence, snippets, size);
            JsonChars(q) - JsonChars(p) == CounterDigits(q) - CounterDigits(p)
  {
    var q := Recounted(p, evidence, snippets, size);
    assert BodyJson(q) == BodyJson(p) && FixedInfo(q) == FixedInfo(p) && FlagInfo(q) == FlagInfo(p);
    CountersCostDigits(BodyJson(p), FixedInfo(p) + FlagInfo(p), KEYS, p.omittedEvidence, p.omittedSnippets,
                       p.serializedChars.value, evidence, snippets, size);
  }

  lemma NewMembersCost(body: seq<(string, Value)>, key: string, before: seq<(string, Value)>,
                       added: seq<(string, Value)>, after: seq<(string, Value)>)
    requires before != []
    ensures |Dump(Whole(body, key, before + added + after))| == |Dump(Whole(body, key, before + after))|
            + MemberChars(added)
  {
    WholeChars(body, key, before + after, before + added + after);
    MemberCharsAppend(before + added, after);
    MemberCharsAppend(before, added);
    MemberCharsAppend(before, after);
  }

  lemma NewSizeCosts(body: seq<(string, Value)>, fixed: seq<(string, Value)>, keys: CounterKeys,
                     evidence: nat, snippets: nat, size: nat)
    ensures CharsOf(body, fixed, keys, evidence, snippets, Some(size))
            == CharsOf(body, fixed, keys, evidence, snippets, None) + |Quoted(keys.size)| + 4 + Digits(size)
  {
    var without, member := WithCounters(fixed, keys, evidence, snippets, None), [(keys.size, Number(size))];
    NewMembersCost(body, keys.info, without, member, []);
    NumberChars(keys.size, size);
    assert without + [] == without;
    assert WithCounters(fixed, keys, evidence, snippets, Some(size)) == without + member + [];
  }

  lemma NewFlagCosts(body: seq<(string, Value)>, fixed: seq<(string, Value)>, flag: seq<(string, Value)>,
                     keys: CounterKeys,
                     evidence: nat, snippets: nat, size: Option<nat>)
    requires fixed != []
    ensures CharsOf(body, fixed + flag, keys, evidence, snippets, size)
            >= CharsOf(body, fixed + [], keys, evidence, snippets, size)
  {
    var counters := WithCounters([], keys, evidence, snippets, size);
    NewMembersCost(body, keys.info, fixed, flag, counters);
    assert fixed + [] == fixed;
    assert WithCounters(fixed + flag, keys, evidence, snippets, size) == fixed + flag + counters;
    assert WithCounters(fixed, keys, evidence, snippets, size) == fixed + counters;
  }

  /** Writing the size for the first time costs its key and its digits. */
  lemma SizeKeyCosts(p: Response, size: nat)
    requires p.serializedChars.None?
    ensures JsonChars(p.(serializedChars := Some(size))) == JsonChars(p) + |Quoted(KEYS.size)| + 4 + Digits(size)
  {
    var q := p.(serializedChars := Some(size));
    assert BodyJson(q) == BodyJson(p) && FixedInfo(q) == FixedInfo(p) && FlagInfo(q) == FlagInfo(p);
    NewSizeCosts(BodyJson(p), FixedInfo(p) + FlagInfo(p), KEYS, p.omittedEvidence, p.omittedSnippets, size);
  }

  /** The flag costs characters, so setting it never makes a response fit. */
  lemma FlagCosts(p: Response)
    ensures JsonChars(p.(budgetExceeded := true)) >= JsonChars(p.(budgetExceeded := false))
  {
    var on, off := p.(budgetExceeded := true), p.(budgetExceeded := false);
    assert BodyJson(on) == BodyJson(off) && FixedInfo(on) == FixedInfo(off) && FlagInfo(off) == [];
    NewFlagCosts(BodyJson(p), FixedInfo(p), FlagInfo(on), KEYS, p.omittedEvidence, p.omittedSnippets,
      p.serializedChars);
  }

  // ---------- Two passes ----------

  function Omitted(total: nat, kept: nat): nat {
    if total >= kept then total - kept else 0
  }

  /** The counters brought up to date; the size is measured before it is written itself. */
  function Rewritten(p: Response, evidenceTotal: nat, snippetTotal: nat): Response {
    var q := p.(omittedEvidence := Omitted(evidenceTotal, |p.evidence|),
      omittedSnippets := Omitted(snippetTotal, |p.snippets|));
    q.(serializedChars := Some(JsonChars(q)))
  }

  /** Writing the counters again changes the size by the change in their digits; the size written is
      measured with the new counts and the old size. */
  lemma RewritingCostsDigits(p: Response, evidenceTotal: nat, snippetTotal: nat)
    requires p.serializedChars.Some?
    ensures var q := Rewritten(p, evidenceTotal, snippetTotal);
            && JsonChars(q) - JsonChars(p) == CounterDigits(q) - CounterDigits(p)
            && q.serializedChars.value - JsonChars(p)
               == Digits(q.omittedEvidence) + Digits(q.omittedSnippets)
                  - Digits(p.omittedEvidence) - Digits(p.omittedSnippets)
  {
    var evidence, snippets := Omitted(evidenceTotal, |p.evidence|), Omitted(snippetTotal, |p.snippets|);
    var measured := Recounted(p, evidence, snippets, p.serializedChars.value);
    assert measured == p.(omittedEvidence := evidence, omittedSnippets := snippets);
    RecountingCostsDigits(p, evidence, snippets, JsonChars(measured));
    RecountingCostsDigits(p, evidence, snippets, p.serializedChars.value);
  }

  function Pass(p: Response, cfg: Config, budget: int, evidenceTotal: nat, snippetTotal: nat): Response {
    Rewritten(Fitted(p, cfg, budget, JsonChars), evidenceTotal, snippetTotal)
  }

  function Compacted(p: Response, cfg: Config, budget: int, evidenceTotal: nat, snippetTotal: nat): Response {
    Pass(Pass(p, cfg, budget, evidenceTotal, snippetTotal), cfg, budget, evidenceTotal, snippetTotal)
  }

  /** After the second fit, only digits change: the result exceeds the fitted size by the growth of its
      three counters, and the size it reports is off by the growth of that number alone. */
  lemma CompactedSize(p: Response, cfg: Config, budget: int, evidenceTotal: nat, snippetTotal: nat)
    ensures var first := Pass(p, cfg, budget, evidenceTotal, snippetTotal);
            var fitted := Fitted(first, cfg, budget, JsonChars);
            var q := Compacted(p, cfg, budget, evidenceTotal, snippetTotal);
            && fitted.serializedChars == first.serializedChars
            && JsonChars(q) - JsonChars(fitted) == CounterDigits(q) - CounterDigits(first)
            && JsonChars(q) - q.serializedChars.value
              == Digits(q.serializedChars.value) - Digits(first.serializedChars.value)
            && (!q.budgetExceeded ==> JsonChars(q) <= budget + CounterDigits(q) - CounterDigits(first))
  {
    var first := Pass(p, cfg, budget, evidenceTotal, snippetTotal);
    var fitted := Fitted(first, cfg, budget, JsonChars);
    FittingKeeps(first, cfg, budget, JsonChars);
    FitsOrReportsTheExcess(first, cfg, budget, JsonChars);
    RewritingCostsDigits(fitted, evidenceTotal, snippetTotal);
  }

  /** Across both passes citations, URLs and sources stay intact, and kept and omitted items add up. */
  lemma CompactedConserves(p: Response, cfg: Config, budget: int, evidenceTotal: nat, snippetTotal: nat)
    requires |p.evidence| <= evidenceTotal && SourcesMatch(p, cfg.catalogue)
    ensures var q := Compacted(p, cfg, budget, evidenceTotal, snippetTotal);
            && q.frame == p.frame
            && ExactTargets(q.snippets) == ExactTargets(p.snippets)
            && EvidencePrefix(q.evidence, p.evidence)
            && SourcesMatch(q, cfg.catalogue)
            && q.omittedEvidence + |q.evidence| == evidenceTotal
            && (p.budgetExceeded ==> q.budgetExceeded)
  {
    var first := Pass(p, cfg, budget, evidenceTotal, snippetTotal);
    FittingKeeps(p, cfg, budget, JsonChars);
    FittingKeeps(first, cfg, budget, JsonChars);
  }

  /** The result is flagged exactly when one of the two fits could not reach the budget. */
  lemma CompactedFlagIsHonest(p: Response, cfg: Config, budget: int, evidenceTotal: nat, snippetTotal: nat)
    requires !p.budgetExceeded
    ensures var first := Pass(p, cfg, budget, evidenceTotal, snippetTotal);
            Compacted(p, cfg, budget, evidenceTotal, snippetTotal).budgetExceeded
            <==> (JsonChars(Fitted(p, cfg, budget, JsonChars)) > budget
                  || JsonChars(Fitted(first, cfg, budget, JsonChars)) > budget)
  {
    var first := Pass(p, cfg, budget, evidenceTotal, snippetTotal);
    FlagCosts(Fitted(p, cfg, budget, JsonChars));
    FlagCosts(Fitted(first, cfg, budget, JsonChars));
    FlagIsHonest(p, cfg, budget, JsonChars);
    if first.budgetExceeded {
      FittingKeeps(first, cfg, budget, JsonChars);
    } else {
      FlagIsHonest(first, cfg, budget, JsonChars);
    }
  }

  method WriteCounters(payload: ResponsePayload, evidenceTotal: nat, snippetTotal: nat)
    requires payload.size == JsonChars
    modifies payload
    ensures payload.View() == Rewritten(old(payload.View()), evidenceTotal, snippetTotal)
  {
    payload.omittedEvidence := Omitted(evidenceTotal, |payload.evidence|);
    payload.omittedSnippets := Omitted(snippetTotal, |payload.snippets|);
    var chars := JsonChars(payload.View());
    payload.serializedChars := Some(chars);
  }

  method CompactResponse(payload: ResponsePayload, budget: int, minimumEvidence: nat, evidenceTotal: nat,
                         snippetTotal: nat)
    requires payload.size == JsonChars
    modifies payload
    ensures payload.View() ==
            Compacted(old(payload.View()), ConfigFor(budget, minimumEvidence, payload.catalogue), budget,
              evidenceTotal, snippetTotal)
  {
    var cfg := ConfigFor(budget, minimumEvidence, payload.catalogue);
    payload.Fit(cfg, budget);
    WriteCounters(payload, evidenceTotal, snippetTotal);
    payload.Fit(cfg, budget);
    WriteCounters(payload, evidenceTotal, snippetTotal);
  }

  // ---------- The budget can be missed by a digit ----------

  /** A response that fits both times, but whose size gains a digit when it is first written. */
  lemma MissedByADigit(p: Response, cfg: Config, evidenceTotal: nat, snippetTotal: nat) returns (budget: nat)
    requires p == Rewritten(p, evidenceTotal, snippetTotal).(serializedChars := None)
    requires Digits(JsonChars(p)) < Digits(JsonChars(p) + 1)
    ensures var q := Compacted(p, cfg, budget, evidenceTotal, snippetTotal);
            q.budgetExceeded == p.budgetExceeded && JsonChars(q) > budget > JsonChars(p)
  {
    var first := Rewritten(p, evidenceTotal, snippetTotal);
    budget := JsonChars(first);
    SizeKeyCosts(p, JsonChars(p));
    assert first == p.(serializedChars := Some(JsonChars(p)));
    assert Fitted(p, cfg, budget, JsonChars) == p && Fitted(first, cfg, budget, JsonChars) == first;
    CompactedSize(p, cfg, budget, evidenceTotal, snippetTotal);
    DigitsGrow(JsonChars(p) + 1, budget);
  }
}
