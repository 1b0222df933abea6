/** Responses that exceed their budget unflagged, wherever the budget allows it. */
module BudgetInstances {
  import opened Wrappers
  import opened Payload
  import opened Fitting
  import opened Json
  import opened JsonLengths
  import opened TwoPassFit
  import opened ResponseChars
  import opened MissedBudget
  import opened PackageForms
  import opened SpareResponses
  import opened SpareLengths
  import opened ShortResponses
  import opened SuppliedPlans

  // ---------- From packages to responses ----------

  function Start(plan: Plan, records: nat, topics: nat): Response {
    At(plan, Complete(plan, records, 1, topics), 0, None)
  }

  lemma StartIsBuilt(plan: Plan, records: nat, topics: nat)
    requires Normal(plan) && records <= MOST_EVIDENCE
    ensures Built(Start(plan, records, topics), Pages(plan), plan.frame.contextBudget, records, MOST_EXACT)
  {
    RebuiltSources(plan, records);
  }

  /** What a plan needs for its start to be supplied and built. */
  ghost predicate Ready(plan: Plan, budget: int, records: nat, topics: nat) {
    && plan.texts == WORDING && Readable(plan) && Spacious(plan) && Normal(plan)
    && 0 < |plan.passage| <= 100 && plan.pageLetters <= LONGEST_TAIL
    && FrameForm(plan.frame, budget) && records <= MOST_EVIDENCE && Consistent(plan, records, topics)
  }

  lemma StartIsReady(plan: Plan, budget: int, records: nat, topics: nat)
    requires Ready(plan, budget, records, topics)
    ensures var p := Start(plan, records, topics);
            p.frame == plan.frame && Supplied(p, Pages(plan), budget)
            && Built(p, Pages(plan), budget, records, MOST_EXACT)
  {
    StartIsBuilt(plan, records, topics);
    PlanIsSupplied(plan, records, topics, budget);
  }

  /** Letters added to the URLs of the snippets give a response its length. */
  lemma LettersFor(short: Plan, s: Stage, length: nat) returns (plan: Plan)
    requires Readable(short) && short.letters == 0
    requires JsonChars(At(short, s, 0, None)) <= length <= JsonChars(At(short, s, 0, None)) + MOST_EXACT * LONGEST_TAIL
    ensures plan == short.(letters := plan.letters) && JsonChars(At(plan, s, 0, None)) == length
  {
    var letters := length - JsonChars(At(short, s, 0, None));
    plan := short.(letters := letters);
    LongerByLetters(short, letters, s, 0, None);
  }

  /** A response that no pass has changed yet. */
  ghost predicate Unwritten(p: Response) {
    && p.omittedEvidence == 0 && p.omittedSnippets == 0 && p.serializedChars.None? && !p.budgetExceeded
    && |p.snippets| == MOST_EXACT
  }

  function Counted(p: Response, omitted: nat, size: nat): Response {
    p.(omittedEvidence := omitted, serializedChars := Some(size))
  }

  /** What the first pass writes while at most nine records are omitted. */
  lemma FirstCount(p: Response, total: nat)
    requires Unwritten(p) && |p.evidence| <= total < |p.evidence| + 10
    ensures var first := Counted(p, total - |p.evidence|, JsonChars(p));
            Rewritten(p, total, MOST_EXACT) == first && JsonChars(first) == JsonChars(p) + 22 + Digits(JsonChars(p))
  {
    DigitsOfSmall(0);
    DigitsOfSmall(total - |p.evidence|);
    FirstPassSize(p, total, MOST_EXACT);
  }

  // ---------- A budget just above a power of ten ----------

  lemma ManyRecordsCost(plan: Plan, records: nat)
    requires RecordChars(plan) <= 91 && OriginChars(plan) == 87 && KindChars(plan) == 41 && records <= MOST_EVIDENCE
    ensures var count := PageCount(plan, records);
            Times(records, RecordChars(plan)) + Times(count, OriginChars(plan)) + Times(count, KindChars(plan)) <= 3_939
  {
    var count := PageCount(plan, records);
    if records > 0 { PageNumbers(plan, records - 1, records - 1); }
    MoreIsLonger(MOST_EVIDENCE, records, RecordChars(plan));
    MoreIsLonger(PAGES, count, OriginChars(plan));
    MoreIsLonger(PAGES, count, KindChars(plan));
    TimesIsProduct(MOST_EVIDENCE, RecordChars(plan));
    TimesIsProduct(PAGES, OriginChars(plan));
    TimesIsProduct(PAGES, KindChars(plan));
  }

  lemma ManyRecordsFit(plan: Plan, passage: nat, records: nat, budget: int)
    requires plan.texts == WORDING && plan.passage == Letters(passage) && passage <= 20
    requires plan.letters == 0 && plan.pageLetters == 0 && records <= MOST_EVIDENCE
    requires Permitted(budget) && FrameForm(plan.frame, budget)
    requires ListChars(Texts(plan.missing)) <= 200 && ListChars(Texts(plan.unresolved)) <= 200
    ensures JsonChars(Start(plan, records, 0)) <= 9_000
  {
    var s := Complete(plan, records, 1, 0);
    PlanIsUsable(plan, passage);
    StageLists(plan, s, 0, None);
    SnippetsLength(plan);
    TimesIsProduct(MOST_EXACT, SnippetChars(plan));
    ManyRecordsCost(plan, records);
    TimesIsProduct(1, |plan.texts.warning| + 4);
    WarningIsPlain();
    ListsAreMost(At(plan, s, 0, None), budget);
  }

  lemma TwoTexts(s: string, t: string)
    requires Plain(s) && Plain(t)
    ensures ListChars(Texts([s])) == |s| + 4 && ListChars(Texts([s, t])) == |s| + |t| + 8
  {
    PlainQuoted(s);
    PlainQuoted(t);
    assert Texts([s]) == [Text(s)] && Texts([s, t]) == [Text(s)] + [Text(t)];
    OneItem(Text(s));
    OneItem(Text(t));
    ItemCharsAppend([Text(s)], [Text(t)]);
  }

  lemma NotesAreShort()
    ensures Plain(NO_PRIMARY) && |NO_PRIMARY| == 52
    ensures ListChars(Texts([TOPIC])) <= 200 && ListChars(Texts([TOPIC, NO_PRIMARY])) <= 200
  {
    NoPrimaryIsPlain();
    TopicIsPlain();
    TwoTexts(TOPIC, NO_PRIMARY);
  }

  lemma NotesAreConsistent(plan: Plan, topic: string, remark: string, records: nat)
    requires plan.missing == [topic] && plan.unresolved == [topic, remark] && |topic| <= 220 && |remark| <= 240
    requires (plan.frame.primarySource ==> records > 0) && plan.frame.independentSources <= PageCount(plan, records)
    ensures Consistent(plan, records, 0)
  {
  }

  function NotesPlan(frame: Frame): Plan {
    PlanFor(frame, false, 20, [TOPIC], [TOPIC, NO_PRIMARY])
  }

  lemma NotesPlanIsReady(frame: Frame, plan: Plan, budget: int, total: nat)
    requires total <= MOST_EVIDENCE && FrameForm(frame, budget) && plan == NotesPlan(frame).(letters := plan.letters)
    requires (frame.primarySource ==> total > 0) && frame.independentSources <= (total + 1) / 2
    ensures Ready(plan, budget, total, 0)
  {
    NotesAreShort();
    TopicIsPlain();
    NotesAreConsistent(plan, TOPIC, NO_PRIMARY, total);
    PlanIsUsable(plan, 20);
  }

  /** Of a response that fits before and after its size is written, the second pass only writes the size
      again. */
  lemma FittingSize(p: Response, cfg: Config, budget: nat)
    requires JustAboveAPower(budget) && Unwritten(p) && JsonChars(p) == budget - 26
    ensures Misses(Compacted(p, cfg, budget, |p.evidence|, MOST_EXACT), budget)
  {
    var first := Counted(p, 0, budget - 26);
    DigitsOfSmall(budget - 26);
    DigitsOfSmall(budget);
    FirstCount(p, |p.evidence|);
    assert Fitted(p, cfg, budget, JsonChars) == p && Fitted(first, cfg, budget, JsonChars) == first;
    RewritingCostsDigits(first, |p.evidence|, MOST_EXACT);
  }

  lemma ShortPlan(budget: nat, total: nat, frame: Frame) returns (short: Plan)
    requires JustAboveAPower(budget) && total <= MOST_EVIDENCE && FrameForm(frame, budget)
    ensures short == NotesPlan(frame) && Readable(short) && JsonChars(Start(short, total, 0)) <= 9_000
  {
    short := NotesPlan(frame);
    NotesAreShort();
    PlanIsUsable(short, 20);
    ManyRecordsFit(short, 20, total, budget);
  }

  lemma PlanJustAbove(budget: nat, total: nat, frame: Frame) returns (plan: Plan)
    requires JustAboveAPower(budget) && total <= MOST_EVIDENCE && FrameForm(frame, budget)
    requires (frame.primarySource ==> total > 0) && frame.independentSources <= (total + 1) / 2
    ensures plan.frame == frame && Ready(plan, budget, total, 0) && JsonChars(Start(plan, total, 0)) == budget - 26
  {
    var short := ShortPlan(budget, total, frame);
    plan := LettersFor(short, Complete(short, total, 1, 0), budget - 26);
    NotesPlanIsReady(frame, plan, budget, total);
  }

  /** Just above a power of ten, some response fits exactly once its size is written, and no longer once
      the size is written with its new digit. */
  lemma MissJustAboveAPower(budget: nat, total: nat, frame: Frame) returns (p: Response, pages: Catalogue)
    requires JustAboveAPower(budget) && total <= MOST_EVIDENCE && FrameForm(frame, budget)
    requires (frame.primarySource ==> total > 0) && frame.independentSources <= (total + 1) / 2
    ensures p.frame == frame && Supplied(p, pages, budget) && Built(p, pages, budget, total, MOST_EXACT)
    ensures Misses(Returned(p, pages, budget, total, MOST_EXACT), budget)
  {
    var plan := PlanJustAbove(budget, total, frame);
    p, pages := Start(plan, total, 0), Pages(plan);
    StartIsReady(plan, budget, total, 0);
    FittingSize(p, ConfigFor(budget, MinimumEvidence(p, budget), pages), budget);
  }

  // ---------- One more digit of omitted records ----------

  /** What following a fit from a stage needs. */
  ghost predicate Walkable(plan: Plan, s: Stage, cfg: Config) {
    && Readable(plan) && Spacious(plan) && Sensible(plan, s)
    && cfg.evidenceFloor >= 100 && cfg.catalogue == Pages(plan)
  }

  lemma ReachedNext(p: Response, cfg: Config, budget: int, next: Response)
    requires JsonChars(p) > budget >= JsonChars(next)
    requires Choice(p, cfg).Some? && Reduced(p, cfg, Choice(p, cfg).value) == next
    ensures Fitted(p, cfg, budget, JsonChars) == next
  {
  }

  /** A plan whose last record costs what the types of the sources cost and a little more. */
  ghost predicate Balanced(plan: Plan, k: nat, more: nat)
    requires k > 0
  {
    && PageCount(plan, k - 1) == PageCount(plan, k)
    && RecordChars(plan) == Times(PageCount(plan, k), KindChars(plan)) + more
  }

  lemma LastRecordCosts(plan: Plan, k: nat, omitted: nat, size: Option<nat>, more: nat)
    requires Readable(plan) && 2 <= k <= MOST_EVIDENCE && Balanced(plan, k, more)
    ensures JsonChars(At(plan, Stage(k, 0, 0, 0), omitted, size))
            == JsonChars(At(plan, Complete(plan, k - 1, 0, 0), omitted, size)) + more
  {
    StagesDiffer(plan, Complete(plan, k - 1, 0, 0), Stage(k, 0, 0, 0), omitted, size);
    assert Times(k, RecordChars(plan)) == RecordChars(plan) + Times(k - 1, RecordChars(plan));
  }

  /** From the goal of the first pass, one more record goes, and the sources get their types back. */
  lemma LastRecordGoes(plan: Plan, cfg: Config, budget: nat, k: nat, omitted: nat, size: Option<nat>, more: nat)
    requires Walkable(plan, Stage(k, 0, 0, 0), cfg) && 3 <= k <= cfg.minimumEvidence && Balanced(plan, k, more)
    requires more > 0 && JsonChars(At(plan, Stage(k, 0, 0, 0), omitted, size)) == budget + more
    ensures var next := At(plan, Complete(plan, k - 1, 0, 0), omitted, size);
            Fitted(At(plan, Stage(k, 0, 0, 0), omitted, size), cfg, budget, JsonChars) == next
            && JsonChars(next) == budget
  {
    LastRecordCosts(plan, k, omitted, size, more);
    NextResponse(plan, Stage(k, 0, 0, 0), omitted, size, cfg);
    ReachedNext(At(plan, Stage(k, 0, 0, 0), omitted, size), cfg, budget,
                At(plan, Complete(plan, k - 1, 0, 0), omitted, size));
  }

  /** As long as the budget, with ten records omitted and nine counted. */
  ghost predicate OnTheBudget(last: Response, budget: nat, total: nat)
    requires Permitted(budget)
  {
    && JsonChars(last) == budget && total == |last.evidence| + 10 && last.omittedEvidence == 9
    && last.omittedSnippets == 0 && |last.snippets| == MOST_EXACT && !last.budgetExceeded
    && last.serializedChars == Some(budget - 20)
  }

  lemma SecondCount(last: Response, budget: nat, total: nat)
    requires Permitted(budget) && OnTheBudget(last, budget, total)
    ensures Misses(Rewritten(last, total, MOST_EXACT), budget)
  {
    DigitsOfSmall(9);
    DigitsOfSmall(10);
    RewritingCostsDigits(last, total, MOST_EXACT);
    DigitsGrow(budget - 20, Rewritten(last, total, MOST_EXACT).serializedChars.value);
  }

  lemma FirstPass(p: Response, kept: Response, cfg: Config, budget: nat, total: nat) returns (first: Response)
    requires Permitted(budget) && Fitted(p, cfg, budget, JsonChars) == kept
    requires Unwritten(kept) && total == |kept.evidence| + 9 && JsonChars(kept) == budget - 20
    ensures Pass(p, cfg, budget, total, MOST_EXACT) == first == Counted(kept, 9, budget - 20)
  {
    FirstCount(kept, total);
    first := Counted(kept, 9, budget - 20);
  }

  lemma SecondPass(first: Response, last: Response, cfg: Config, budget: nat, total: nat)
    requires Permitted(budget) && Fitted(first, cfg, budget, JsonChars) == last && OnTheBudget(last, budget, total)
    ensures Misses(Pass(first, cfg, budget, total, MOST_EXACT), budget)
  {
    SecondCount(last, budget, total);
  }

  lemma TwoPasses(p: Response, first: Response, cfg: Config, budget: int, total: nat)
    requires Pass(p, cfg, budget, total, MOST_EXACT) == first
    requires Misses(Pass(first, cfg, budget, total, MOST_EXACT), budget)
    ensures Misses(Compacted(p, cfg, budget, total, MOST_EXACT), budget)
  {
  }

  /** The second fit drops one record more and ends on the budget. */
  lemma SecondFit(plan: Plan, cfg: Config, budget: nat, k: nat) returns (last: Response)
    requires Permitted(budget) && Walkable(plan, Stage(k, 0, 0, 0), cfg) && 3 <= k <= cfg.minimumEvidence
    requires JsonChars(At(plan, Stage(k, 0, 0, 0), 0, None)) == budget - 20
    requires Balanced(plan, k, 2 + Digits(budget - 20))
    ensures Fitted(Counted(At(plan, Stage(k, 0, 0, 0), 0, None), 9, budget - 20), cfg, budget, JsonChars) == last
    ensures OnTheBudget(last, budget, k + 9)
  {
    FirstCount(At(plan, Stage(k, 0, 0, 0), 0, None), k + 9);
    LastRecordGoes(plan, cfg, budget, k, 9, Some(budget - 20), 2 + Digits(budget - 20));
    last := At(plan, Complete(plan, k - 1, 0, 0), 9, Some(budget - 20));
  }

  lemma StillWalkable(plan: Plan, s: Stage, cfg: Config, k: nat)
    requires Walkable(plan, s, cfg) && k <= s.records
    ensures Walkable(plan, Stage(k, 0, 0, 0), cfg)
  {
  }

  /** The first fit ends 20 characters below the budget with nine records omitted. Writing the size
      exceeds the budget, the second fit ends on it with one record less, and ten omitted records are one
      digit too many. */
  lemma MissByOmissions(plan: Plan, s: Stage, cfg: Config, budget: nat, k: nat)
    requires Permitted(budget) && Walkable(plan, s, cfg) && s.records == k + 9 && 3 <= k <= cfg.minimumEvidence
    requires JsonChars(At(plan, Stage(k, 0, 0, 0), 0, None)) == budget - 20
    requires Balanced(plan, k, 2 + Digits(budget - 20))
    ensures Misses(Compacted(At(plan, s, 0, None), cfg, budget, k + 9, MOST_EXACT), budget)
  {
    FitReaches(plan, s, Stage(k, 0, 0, 0), 0, None, cfg, budget);
    StillWalkable(plan, s, cfg, k);
    var last := SecondFit(plan, cfg, budget, k);
    var first := FirstPass(At(plan, s, 0, None), At(plan, Stage(k, 0, 0, 0), 0, None), cfg, budget, k + 9);
    SecondPass(first, last, cfg, budget, k + 9);
    TwoPasses(At(plan, s, 0, None), first, cfg, budget, k + 9);
  }

  // ---------- A plan for every permitted budget ----------

  /** The first page gives one record if the number of records kept at the end of the first pass is odd. */
  function OmittingPlan(frame: Frame, k: nat, more: nat, pageLetters: nat): Plan {
    var passage := if k <= 4 then 11 + more else 52 + more;
    PlanFor(frame, k % 2 == 1, passage, [], []).(pageLetters := pageLetters)
  }

  lemma OmittingPlanIsBalanced(plan: Plan, frame: Frame, k: nat, more: nat)
    requires 3 <= k <= 6 && more <= 8
    requires plan == OmittingPlan(frame, k, more, plan.pageLetters).(letters := plan.letters)
    ensures Balanced(plan, k, more) && PageCount(plan, k) == if k <= 4 then 2 else 3
  {
    PlanIsUsable(plan, if k <= 4 then 11 + more else 52 + more);
    TimesIsProduct(PageCount(plan, k), 41);
  }

  lemma OmittingPlanIsReady(plan: Plan, frame: Frame, k: nat, more: nat, budget: int, topics: nat)
    requires 3 <= k <= 6 && more <= 8
    requires plan == OmittingPlan(frame, k, more, plan.pageLetters).(letters := plan.letters)
    requires plan.pageLetters <= LONGEST_TAIL && FrameForm(frame, budget) && 0 < topics <= 6
    requires frame.primarySource && frame.independentSources <= 6
    ensures Ready(plan, budget, k + 9, topics)
  {
    PlanIsUsable(plan, if k <= 4 then 11 + more else 52 + more);
    PageNumbers(plan, 11, k + 8);
  }

  lemma KeptListsCost(plan: Plan, k: nat, pages: nat, passage: nat)
    requires 3 <= k <= 6 && pages == PageCount(plan, k) && 2 <= pages <= 3
    requires plan.texts == WORDING && plan.passage == Letters(passage) && passage <= 60
    requires plan.letters == 0 && plan.missing == [] && plan.unresolved == []
    ensures var s := Stage(k, 0, 0, 0);
            ListsChars(At(plan, s, 0, None)) == k * (71 + passage) + pages * (87 + plan.pageLetters) + 1_052
  {
    var s := Stage(k, 0, 0, 0);
    PlanIsUsable(plan, passage);
    StageLists(plan, s, 0, None);
    SnippetsLength(plan);
    TimesIsProduct(MOST_EXACT, SnippetChars(plan));
    TimesIsProduct(pages, OriginChars(plan));
    TimesIsProduct(k, RecordChars(plan));
  }

  lemma KeptListsAreFew(plan: Plan, frame: Frame, k: nat, more: nat, tail: nat)
    requires 3 <= k <= 6 && more <= 8 && plan == OmittingPlan(frame, k, more, tail)
    ensures 1_400 + 2 * tail <= ListsChars(At(plan, Stage(k, 0, 0, 0), 0, None))
            && ListsChars(At(plan, Stage(k, 0, 0, 0), 0, None)) <= (if k <= 4 then 1_600 else 2_100) + 3 * tail
  {
    OmittingPlanIsBalanced(plan, frame, k, more);
    if k <= 4 {
      KeptListsCost(plan, k, 2, 11 + more);
      assert k == 3 || k == 4;
    } else {
      KeptListsCost(plan, k, 3, 52 + more);
      assert k == 5 || k == 6;
    }
  }

  /** Without letters in the URLs of snippets, the response that the first pass leaves is short enough, and
      ten URLs are enough to make it as long as the budget. */
  lemma KeptResponseCost(plan: Plan, frame: Frame, k: nat, more: nat, budget: nat, tail: nat)
    requires 3 <= k <= (if budget < 6_000 then 4 else 6) && more <= 8 && plan == OmittingPlan(frame, k, more, tail)
    requires Permitted(budget) && FrameForm(frame, budget) && tail == if budget > 40_000 then LONGEST_TAIL else 0
    ensures var length := JsonChars(At(plan, Stage(k, 0, 0, 0), 0, None));
            length <= budget - 20 <= length + MOST_EXACT * LONGEST_TAIL
  {
    KeptListsAreFew(plan, frame, k, more, tail);
    ListsAreMost(At(plan, Stage(k, 0, 0, 0), 0, None), budget);
  }

  lemma LongPlan(budget: nat, k: nat, frame: Frame, more: nat) returns (plan: Plan)
    requires Permitted(budget) && 3 <= k <= (if budget < 6_000 then 4 else 6) && FrameForm(frame, budget) && more <= 8
    ensures plan == OmittingPlan(frame, k, more, plan.pageLetters).(letters := plan.letters)
    ensures plan.pageLetters <= LONGEST_TAIL && JsonChars(At(plan, Stage(k, 0, 0, 0), 0, None)) == budget - 20
  {
    var tail := if budget > 40_000 then LONGEST_TAIL else 0;
    var short := OmittingPlan(frame, k, more, tail);
    KeptResponseCost(short, frame, k, more, budget, tail);
    PlanIsUsable(short, if k <= 4 then 11 + more else 52 + more);
    plan := LettersFor(short, Stage(k, 0, 0, 0), budget - 20);
  }

  lemma PlanForOmissions(budget: nat, k: nat, frame: Frame, topics: nat) returns (plan: Plan)
    requires Permitted(budget) && 3 <= k <= (if budget < 6_000 then 4 else 6) && FrameForm(frame, budget)
    requires frame.primarySource && frame.independentSources <= 6 && 0 < topics <= 6
    ensures plan.frame == frame && plan.missing == [] && plan.unresolved == []
    ensures Ready(plan, budget, k + 9, topics) && Balanced(plan, k, 2 + Digits(budget - 20))
    ensures JsonChars(At(plan, Stage(k, 0, 0, 0), 0, None)) == budget - 20
  {
    var more := 2 + Digits(budget - 20);
    DigitsOfSmall(budget - 20);
    plan := LongPlan(budget, k, frame, more);
    OmittingPlanIsBalanced(plan, frame, k, more);
    OmittingPlanIsReady(plan, frame, k, more, budget, topics);
  }

  lemma ReadyIsWalkable(plan: Plan, budget: int, records: nat, topics: nat, cfg: Config)
    requires Ready(plan, budget, records, topics) && plan.missing == [] && plan.unresolved == []
    requires cfg.evidenceFloor >= 100 && cfg.catalogue == Pages(plan)
    ensures Walkable(plan, Complete(plan, records, 1, topics), cfg)
  {
  }

  /** Where the number of omitted records can gain a digit, some response gains it while its size is
      already exactly the budget. */
  lemma MissWhereOmissionsGain(budget: nat, total: nat, frame: Frame) returns (p: Response, pages: Catalogue)
    requires Permitted(budget) && OmissionsGainADigit(budget, total) && FrameForm(frame, budget)
    requires frame.primarySource && frame.independentSources <= 6
    ensures p.frame == frame && Supplied(p, pages, budget) && Built(p, pages, budget, total, MOST_EXACT)
    ensures Misses(Returned(p, pages, budget, total, MOST_EXACT), budget)
  {
    var k, topics := total - 9, if total > 13 then 4 else 1;
    var plan := PlanForOmissions(budget, k, frame, topics);
    p, pages := Start(plan, total, topics), Pages(plan);
    var cfg := ConfigFor(budget, MinimumEvidence(p, budget), pages);
    StartIsReady(plan, budget, total, topics);
    ReadyIsWalkable(plan, budget, total, topics, cfg);
    MissByOmissions(plan, Complete(plan, total, 1, topics), cfg, budget, k);
  }

  // ---------- Exactly when the budget can be missed ----------

  /** Some response, supplied and built with this budget from so many evidence records, is returned longer
      than the budget without the flag. */
  ghost predicate CanMiss(budget: int, evidenceTotal: nat) {
    exists p, pages, snippetTotal: nat ::
      snippetTotal <= MOST_SNIPPETS && Supplied(p, pages, budget)
      && Built(p, pages, budget, evidenceTotal, snippetTotal)
      && Misses(Returned(p, pages, budget, evidenceTotal, snippetTotal), budget)
  }

  lemma SomeFrame(budget: nat, total: nat) returns (frame: Frame)
    ensures FrameForm(frame, budget) && (frame.primarySource <==> total > 0)
            && frame.independentSources == if total > 0 then 1 else 0
  {
    var privacy := Privacy(("\"tor-search\"", "\"tor-fetch\""), false, "\"strict\"");
    assert PrivacyForm(privacy);
    frame := Frame(if total > 0 then "0.833" else "0.0", if total > 0 then "strong" else "insufficient", total > 0,
                   if total > 0 then 1 else 0, privacy, budget);
  }

  /** For the budgets the server permits and the numbers of records it selects: the budget can be missed
      exactly when a power of ten lies just below it, or among the numbers of records that may be omitted
      at the end. */
  lemma BudgetCanBeMissedIff(budget: nat, evidenceTotal: nat)
    requires Permitted(budget) && evidenceTotal <= MOST_EVIDENCE
    ensures CanMiss(budget, evidenceTotal) <==> JustAboveAPower(budget) || OmissionsGainADigit(budget, evidenceTotal)
  {
    var frame := SomeFrame(budget, evidenceTotal);
    if JustAboveAPower(budget) {
      var p, pages := MissJustAboveAPower(budget, evidenceTotal, frame);
    } else if OmissionsGainADigit(budget, evidenceTotal) {
      var p, pages := MissWhereOmissionsGain(budget, evidenceTotal, frame);
    } else if CanMiss(budget, evidenceTotal) {
      var p, pages, snippetTotal: nat :|
        snippetTotal <= MOST_SNIPPETS && Supplied(p, pages, budget)
        && Built(p, pages, budget, evidenceTotal, snippetTotal)
        && Misses(Returned(p, pages, budget, evidenceTotal, snippetTotal), budget);
      UnflaggedIsWithinTheBudget(p, pages, budget, evidenceTotal, snippetTotal);
    }
  }
}
