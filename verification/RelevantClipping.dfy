/** Shortening a text around what a query asks for: up to four whole sentences that answer it, or a
    window of the text where its terms are densest. */
module RelevantClipping {
  import opened Wrappers
  import opened TextSpans
  import opened Clipping

  // The tokeniser and case folding are parameters; terms are listed in the order in which the source
  // happens to iterate its set of them.

  datatype Lexer = Lexer(terms: string -> seq<string>, fold: string -> string)

  const GAP := " " + ELLIPSIS + " "
  const MAX_SENTENCES := 4

  // ---------- Small string functions ----------

  /** Non-overlapping occurrences of `needle`. */
  function Count(hay: string, needle: string): nat
    decreases |hay|
  {
    if needle == "" then |hay| + 1
    else if |hay| < |needle| then 0
    else if hay[..|needle|] == needle then 1 + Count(hay[|needle|..], needle)
    else Count(hay[1..], needle)
  }

  function CountAll(hay: string, terms: seq<string>, fold: string -> string): nat {
    if terms == [] then 0 else Count(hay, fold(terms[0])) + CountAll(hay, terms[1..], fold)
  }

  predicate Occurs(hay: string, needle: string) {
    Count(hay, needle) > 0
  }

  function CountDistinct(hay: string, terms: seq<string>, fold: string -> string): nat {
    if terms == [] then 0
    else (if Occurs(hay, fold(terms[0])) then 1 else 0) + CountDistinct(hay, terms[1..], fold)
  }

  /** A slice that, as in the source language, ends where the string does. */
  function Clamped(s: string, lo: nat, hi: nat): string {
    if lo >= |s| || hi <= lo then "" else s[lo..Min(hi, |s|)]
  }

  function ToSet(terms: seq<string>): set<string> {
    set t | t in terms
  }

  // ---------- The window ----------

  /** Where the non-overlapping occurrences of a term begin, from position `from` on. */
  function Matches(text: string, term: string, from: nat): seq<nat>
    decreases if from <= |text| then |text| - from + 1 else 0
  {
    if from > |text| || from + |term| > |text| then []
    else if text[from..from+|term|] == term then [from] + Matches(text, term, from + Max(1, |term|))
    else Matches(text, term, from + 1)
  }

  function Centers(text: string, terms: seq<string>, fold: string -> string): seq<nat> {
    if terms == [] then [] else Matches(text, fold(terms[0]), 0) + Centers(text, terms[1..], fold)
  }

  function WindowStart(length: nat, size: nat, center: nat): nat {
    Max(0, Min(center - size / 3, length - size))
  }

  function WindowScore(folded: string, terms: seq<string>, fold: string -> string, start: nat, end: nat): nat {
    var window := Clamped(folded, start, end);
    CountDistinct(window, terms, fold) * 10 + CountAll(window, terms, fold)
  }

  function WindowStarts(length: nat, size: nat, centers: seq<nat>): seq<nat> {
    seq(|centers|, i requires 0 <= i < |centers| => WindowStart(length, size, centers[i]))
  }

  predicate AtLeastAsGood(score: nat -> nat, a: nat, b: nat) {
    score(a) > score(b) || (score(a) == score(b) && a <= b)
  }

  /** The best-scoring start; of equals, the earliest in the text. */
  function BestStart(starts: seq<nat>, score: nat -> nat): (best: nat)
    requires starts != []
    ensures best in starts && forall s :: s in starts ==> AtLeastAsGood(score, best, s)
  {
    if |starts| == 1 then starts[0]
    else
      var rest := BestStart(starts[1..], score);
      assert starts == [starts[0]] + starts[1..];
      if AtLeastAsGood(score, starts[0], rest) then starts[0] else rest
  }

  /** The first blank at or after `from`, or -1. */
  function FindBlank(s: string, from: nat): (r: int)
    ensures -1 <= r && (r >= 0 ==> from <= r < |s| && s[r] == ' ')
    decreases |s| - from
  {
    if from >= |s| then -1 else if s[from] == ' ' then from else FindBlank(s, from + 1)
  }

  /** The last blank in [lo, hi), or -1. */
  function RFindBlank(s: string, lo: nat, hi: nat): (r: int)
    requires hi <= |s|
    ensures -1 <= r && (r >= 0 ==> lo <= r < hi && s[r] == ' ')
    decreases hi
  {
    if hi <= lo then -1 else if s[hi-1] == ' ' then hi - 1 else RFindBlank(s, lo, hi - 1)
  }

  function ScoresFrom(text: string, size: nat, terms: seq<string>, fold: string -> string): nat -> nat {
    (start: nat) => WindowScore(fold(text), terms, fold, start, Min(|text|, start + size))
  }

  function BestWindow(text: string, size: nat, terms: seq<string>, fold: string -> string): nat
    requires Centers(fold(text), terms, fold) != []
  {
    BestStart(WindowStarts(|text|, size, Centers(fold(text), terms, fold)), ScoresFrom(text, size, terms, fold))
  }

  /** Where the window begins: behind its first blank, unless that is too near its end or it begins the text. */
  function WordStart(text: string, best: nat, end: nat): (r: nat)
    ensures best <= r && (best < end ==> r < end)
  {
    var nextSpace := if best > 0 then FindBlank(text, best) else -1;
    if 0 <= nextSpace < end - 40 then nextSpace + 1 else best
  }

  /** Where it ends: at its last blank behind the first forty characters, unless it ends the text. */
  function WordEnd(text: string, start: nat, end: nat): (r: nat)
    requires start <= end <= |text|
    ensures start <= r <= end
  {
    var previousSpace := if end < |text| then RFindBlank(text, start + 40, end) else -1;
    if previousSpace > start then previousSpace else end
  }

  /** The range of the text that the window shows. */
  function WindowRange(text: string, limit: int, terms: seq<string>, fold: string -> string): (r: Span)
    requires Centers(fold(text), terms, fold) != []
    ensures r.start <= r.end <= |text| && r.end - r.start <= Max(1, limit - 2)
  {
    var size := Max(1, limit - 2);
    var best := BestWindow(text, size, terms, fold);
    var end := Min(|text|, best + size);
    var start := WordStart(text, best, end);
    Span(start, WordEnd(text, start, end))
  }

  /** A stretch of the text, stripped, with an ellipsis on each side where text is left out. */
  function Shown(text: string, r: Span): string
    requires r.start <= r.end <= |text|
  {
    (if r.start > 0 then ELLIPSIS else "") + Strip(text[r.start..r.end]) + (if r.end < |text| then ELLIPSIS else "")
  }

  function ClipWindow(text: string, limit: int, terms: seq<string>, fold: string -> string): string {
    if Centers(fold(text), terms, fold) == [] then ClipText(text, limit)
    else
      Shown(text, WindowRange(text, limit, terms, fold))
  }

  lemma WindowFits(text: string, limit: int, terms: seq<string>, fold: string -> string)
    requires limit >= 3
    ensures |ClipWindow(text, limit, terms, fold)| <= limit
  {
    if Centers(fold(text), terms, fold) == [] { ClipTextFits(text, limit); }
  }

  ghost predicate WindowAlwaysFits(limit: int) {
    forall text, terms, fold :: |text| > limit ==> |ClipWindow(text, limit, terms, fold)| <= limit
  }

  /** The window keeps within every limit from three up, and only those: one character with an
      ellipsis on both sides is the least it shows. */
  lemma WindowFitsIff(limit: int)
    ensures WindowAlwaysFits(limit) <==> limit >= 3
  {
    if limit >= 3 {
      forall text, terms, fold ensures |ClipWindow(text, limit, terms, fold)| <= limit {
        WindowFits(text, limit, terms, fold);
      }
    } else {
      var text, fold := ShortLimitsOverflow(limit);
      assert |ClipWindow(text, limit, ["b"], fold)| > limit;
    }
  }

  lemma ShortLimitsOverflow(limit: int) returns (text: string, fold: string -> string)
    requires limit < 3
    ensures |ClipWindow(text, limit, ["b"], fold)| == 3 && |text| > limit
  {
    text, fold := "abc", (s: string) => s;
    var terms := ["b"];
    assert text[0..1] != "b" && text[1..2] == "b" && text[2..3] != "b" by {
      assert text[0..1][0] == 'a' && text[2..3][0] == 'c';
    }
    assert Matches(text, "b", 2) == Matches(text, "b", 3) == [];
    assert Matches(text, "b", 0) == Matches(text, "b", 1) == [1];
    assert Centers(text, terms[1..], fold) == [];
    assert Centers(text, terms, fold) == [1];
    var r := WindowRange(text, limit, terms, fold);
    assert r.start == 1 && r.end == 2;
    assert Strip("b") == "b";
  }

  // ---------- Whole sentences ----------

  /** A sentence that shares terms with the query. */
  datatype Match = Match(index: nat, overlap: set<string>, occurrences: nat)

  function Gain(m: Match, covered: set<string>): nat {
    12 * |m.overlap - covered| + 4 * |m.overlap| + m.occurrences
  }

  predicate Preferred(a: Match, b: Match, covered: set<string>) {
    Gain(a, covered) > Gain(b, covered) || (Gain(a, covered) == Gain(b, covered) && a.index <= b.index)
  }

  /** The position of the match with the greatest gain; of equals, the earliest sentence. */
  function BestMatch(ms: seq<Match>, covered: set<string>): (b: nat)
    requires ms != []
    ensures b < |ms| && forall j :: 0 <= j < |ms| ==> Preferred(ms[b], ms[j], covered)
  {
    if |ms| == 1 then 0
    else
      var rest := BestMatch(ms[1..], covered);
      assert forall j :: 1 <= j < |ms| ==> ms[j] == ms[1..][j-1];
      if Preferred(ms[0], ms[rest+1], covered) then 0 else rest + 1
  }

  function SentenceText(text: string, s: Span): string {
    if s.start <= s.end <= |text| then text[s.start..s.end] else ""
  }

  function MatchOf(text: string, spans: seq<Span>, terms: seq<string>, lexer: Lexer, i: nat): Match
    requires i < |spans|
  {
    var sentence := SentenceText(text, spans[i]);
    Match(i, ToSet(terms) * ToSet(lexer.terms(sentence)), CountAll(lexer.fold(sentence), terms, lexer.fold))
  }

  /** The matches among the first `n` sentences, in order. */
  function MatchesOf(text: string, spans: seq<Span>, terms: seq<string>, lexer: Lexer, n: nat): (ms: seq<Match>)
    requires n <= |spans|
    ensures forall i :: 0 <= i < |ms| ==> ms[i].index < n && ms[i].overlap != {}
    ensures forall i, j :: 0 <= i < j < |ms| ==> ms[i].index < ms[j].index
  {
    if n == 0 then []
    else
      var m := MatchOf(text, spans, terms, lexer, n - 1);
      MatchesOf(text, spans, terms, lexer, n - 1) + if m.overlap != {} then [m] else []
  }

  predicate Ascending(picks: seq<nat>) {
    forall i, j :: 0 <= i < j < |picks| ==> picks[i] < picks[j]
  }

  predicate Within(picks: seq<nat>, n: nat) {
    forall j :: 0 <= j < |picks| ==> picks[j] < n
  }

  function Insert(picks: seq<nat>, x: nat): (r: seq<nat>)
    ensures |r| == |picks| + 1
  {
    if picks == [] || x < picks[0] then [x] + picks
    else [picks[0]] + Insert(picks[1..], x)
  }

  lemma {:induction false} InsertMembers(picks: seq<nat>, x: nat, y: nat)
    ensures y in Insert(picks, x) <==> y == x || y in picks
  {
    if picks != [] && x >= picks[0] {
      InsertMembers(picks[1..], x, y);
      assert y in picks <==> y == picks[0] || y in picks[1..];
    }
  }

  lemma {:induction false} InsertWithin(picks: seq<nat>, x: nat, n: nat)
    requires Within(picks, n) && x < n
    ensures Within(Insert(picks, x), n)
  {
    if picks != [] && x >= picks[0] { InsertWithin(picks[1..], x, n); }
  }

  /** The least and the greatest pick after an insertion. */
  lemma {:induction false} InsertEnds(picks: seq<nat>, x: nat)
    requires Ascending(picks)
    ensures Insert(picks, x)[0] == if picks == [] || x < picks[0] then x else picks[0]
    ensures Insert(picks, x)[|picks|] == if picks == [] || x >= picks[|picks|-1] then x else picks[|picks|-1]
  {
    if picks != [] && x >= picks[0] {
      var rest := picks[1..];
      InsertEnds(rest, x);
      assert Insert(picks, x)[|picks|] == Insert(rest, x)[|rest|];
      if rest != [] { assert rest[|rest|-1] == picks[|picks|-1] && picks[0] <= picks[|picks|-1]; }
    }
  }

  lemma {:induction false} InsertKeepsOrder(picks: seq<nat>, x: nat)
    requires Ascending(picks) && x !in picks
    ensures Ascending(Insert(picks, x))
  {
    if picks != [] && x >= picks[0] {
      var rest := picks[1..];
      assert picks[0] in picks && forall j :: 0 <= j < |rest| ==> rest[j] in picks;
      InsertKeepsOrder(rest, x);
      InsertEnds(rest, x);
      if rest != [] { assert rest[0] == picks[1]; }
    }
  }

  function Joined(text: string, spans: seq<Span>, picks: seq<nat>): string
    requires Within(picks, |spans|)
  {
    if picks == [] then ""
    else if |picks| == 1 then SentenceText(text, spans[picks[0]])
    else SentenceText(text, spans[picks[0]]) + GAP + Joined(text, spans, picks[1..])
  }

  /** The picked sentences in order, with ellipses between them and where text is left out around them. */
  function Rendered(text: string, spans: seq<Span>, picks: seq<nat>): string
    requires picks != [] && Within(picks, |spans|)
  {
    (if picks[0] > 0 then ELLIPSIS else "")
    + Joined(text, spans, picks)
    + (if picks[|picks|-1] < |spans| - 1 then ELLIPSIS else "")
  }

  function TotalLength(text: string, spans: seq<Span>, picks: seq<nat>): nat
    requires Within(picks, |spans|)
  {
    if picks == [] then 0
    else |SentenceText(text, spans[picks[0]])| + TotalLength(text, spans, picks[1..])
  }

  lemma {:induction false} JoinedLength(text: string, spans: seq<Span>, picks: seq<nat>)
    requires picks != [] && Within(picks, |spans|)
    ensures |Joined(text, spans, picks)| == TotalLength(text, spans, picks) + 3 * (|picks| - 1)
  {
    if |picks| > 1 { JoinedLength(text, spans, picks[1..]); }
  }

  lemma RenderedLength(text: string, spans: seq<Span>, picks: seq<nat>)
    requires picks != [] && Within(picks, |spans|)
    ensures |Rendered(text, spans, picks)| ==
              (if picks[0] > 0 then 1 else 0) + TotalLength(text, spans, picks) + 3 * (|picks| - 1)
              + (if picks[|picks|-1] < |spans| - 1 then 1 else 0)
  {
    JoinedLength(text, spans, picks);
  }

  lemma {:induction false} InsertAddsItsLength(text: string, spans: seq<Span>, picks: seq<nat>, x: nat)
    requires x < |spans| && Within(picks, |spans|)
    ensures Within(Insert(picks, x), |spans|)
    ensures TotalLength(text, spans, Insert(picks, x)) == TotalLength(text, spans, picks)
            + |SentenceText(text, spans[x])|
  {
    InsertWithin(picks, x, |spans|);
    if picks != [] && x >= picks[0] {
      InsertAddsItsLength(text, spans, picks[1..], x);
      assert Insert(picks, x)[1..] == Insert(picks[1..], x);
    } else {
      assert Insert(picks, x)[1..] == picks;
    }
  }

  lemma RenderedLengthAfterInsert(text: string, spans: seq<Span>, picks: seq<nat>, x: nat)
    requires Ascending(picks) && x !in picks && x < |spans| && Within(picks, |spans|)
    ensures Ascending(Insert(picks, x)) && Within(Insert(picks, x), |spans|)
    ensures |Rendered(text, spans, Insert(picks, x))| ==
              (if (if picks == [] || x < picks[0] then x else picks[0]) > 0 then 1 else 0)
              + TotalLength(text, spans, picks) + |SentenceText(text, spans[x])| + 3 * |picks|
              + (if (if picks == [] || x > picks[|picks|-1] then x else picks[|picks|-1]) < |spans| - 1 then 1 else 0)
  {
    InsertKeepsOrder(picks, x);
    InsertEnds(picks, x);
    InsertAddsItsLength(text, spans, picks, x);
    RenderedLength(text, spans, Insert(picks, x));
  }

  /** One more sentence never makes room for another: a sentence that does not fit beside some picks
      does not fit beside more of them. */
  lemma MisfitsStayMisfits(text: string, spans: seq<Span>, picks: seq<nat>, x: nat, y: nat)
    requires Ascending(picks) && x !in picks && y !in picks && x != y && x < |spans| && y < |spans|
    requires Within(picks, |spans|)
    ensures Within(Insert(picks, x), |spans|) && Within(Insert(picks, y), |spans|)
    ensures Within(Insert(Insert(picks, x), y), |spans|)
    ensures |Rendered(text, spans, Insert(Insert(picks, x), y))| >= |Rendered(text, spans, Insert(picks, y))|
  {
    RenderedLengthAfterInsert(text, spans, picks, y);
    InsertKeepsOrder(picks, x);
    InsertEnds(picks, x);
    InsertAddsItsLength(text, spans, picks, x);
    InsertMembers(picks, x, y);
    RenderedLengthAfterInsert(text, spans, Insert(picks, x), y);
  }

  // ---------- The greedy search ----------

  predicate Fits(text: string, limit: int, spans: seq<Span>, picks: seq<nat>)
    requires picks != []
  {
    Within(picks, |spans|) && |Rendered(text, spans, picks)| <= limit
  }

  function Indices(ms: seq<Match>): set<nat> {
    set m | m in ms :: m.index
  }

  ghost predicate AreMatches(spans: seq<Span>, ms: seq<Match>) {
    && (forall i :: 0 <= i < |ms| ==> ms[i].index < |spans|)
    && (forall i, j :: 0 <= i < j < |ms| ==> ms[i].index < ms[j].index)
  }

  function BestIndex(ms: seq<Match>): nat
    requires ms != []
  {
    ms[BestMatch(ms, {})].index
  }

  /** A match that does not fit beside the picks. */
  ghost predicate Misfit(text: string, limit: int, spans: seq<Span>, picks: seq<nat>, m: Match) {
    !Fits(text, limit, spans, Insert(picks, m.index))
  }

  /** Of the matches that fit beside the picks, the one that gains most; of equals, the earliest sentence. */
  ghost predicate NextPick(text: string, limit: int, spans: seq<Span>, ms: seq<Match>, picks: seq<nat>,
                           covered: set<string>, m: Match)
  {
    && m in ms && m.index !in picks && !Misfit(text, limit, spans, picks, m)
    && forall other {:trigger Misfit(text, limit, spans, picks, other)} ::
         other in ms && other.index !in picks && !Misfit(text, limit, spans, picks, other) ==>
         Preferred(m, other, covered)
  }

  /** The sentences of these matches, in text order. */
  function PicksOf(order: seq<Match>): seq<nat> {
    if order == [] then [] else Insert(PicksOf(order[..|order|-1]), order[|order|-1].index)
  }

  /** The terms these matches cover. */
  function Gathered(order: seq<Match>): set<string> {
    if order == [] then {} else Gathered(order[..|order|-1]) + order[|order|-1].overlap
  }

  /** Each match gains most among those that fit beside the ones before it, given what those cover. */
  ghost predicate GreedyOrder(text: string, limit: int, spans: seq<Span>, ms: seq<Match>, order: seq<Match>) {
    order == []
    || (var before := order[..|order|-1];
        && GreedyOrder(text, limit, spans, ms, before)
        && NextPick(text, limit, spans, ms, PicksOf(before), Gathered(before), order[|order|-1]))
  }

  /** The selection of the greedy search: at most four matching sentences in text order that fit together,
      picked in greedy order from the best match on, until no other match fits or there are four. */
  ghost predicate IsSelection(text: string, limit: int, spans: seq<Span>, ms: seq<Match>, picks: seq<nat>) {
    && 0 < |picks| <= MAX_SENTENCES && Ascending(picks) && Fits(text, limit, spans, picks)
    && (forall p :: p in picks ==> p in Indices(ms))
    && ms != [] && BestIndex(ms) in picks
    && (|picks| < MAX_SENTENCES ==>
          forall m {:trigger Misfit(text, limit, spans, picks, m)} ::
            m in ms && m.index !in picks ==> Misfit(text, limit, spans, picks, m))
    && exists order :: GreedyOrder(text, limit, spans, ms, order) && picks == PicksOf(order)
  }

  /** The picks so far: matching sentences in order, which fit together and include the best match. */
  ghost predicate GoodPicks(text: string, limit: int, spans: seq<Span>, ms: seq<Match>, picks: seq<nat>) {
    && |picks| <= MAX_SENTENCES && Ascending(picks) && Within(picks, |spans|)
    && (forall p :: p in picks ==> p in Indices(ms))
    && (picks != [] ==> Fits(text, limit, spans, picks) && ms != [] && BestIndex(ms) in picks)
  }

  /** What is still to be tried. */
  ghost predicate Untried(spans: seq<Span>, ms: seq<Match>, remaining: seq<Match>, picks: seq<nat>) {
    AreMatches(spans, remaining) && forall m :: m in remaining ==> m in ms && m.index !in picks
  }

  /** What has been tried and not picked does not fit. */
  ghost predicate Explored(text: string, limit: int, spans: seq<Span>, ms: seq<Match>, remaining: seq<Match>,
                           picks: seq<nat>)
  {
    forall m {:trigger Misfit(text, limit, spans, picks, m)} ::
      m in ms && m !in remaining && m.index !in picks ==> Misfit(text, limit, spans, picks, m)
  }

  ghost predicate Searching(text: string, limit: int, spans: seq<Span>, ms: seq<Match>, remaining: seq<Match>,
                            picks: seq<nat>)
  {
    && GoodPicks(text, limit, spans, ms, picks) && Untried(spans, ms, remaining, picks)
    && (picks != [] ==> Explored(text, limit, spans, ms, remaining, picks))
  }

  lemma OneRemoved(spans: seq<Span>, ms: seq<Match>, b: nat)
    requires b < |ms| && AreMatches(spans, ms)
    ensures var others := ms[..b] + ms[b+1..];
            && AreMatches(spans, others)
            && (forall m :: m in others <==> m in ms && m != ms[b])
            && (forall m :: m in others ==> m.index != ms[b].index)
  {
    var others := ms[..b] + ms[b+1..];
    assert forall i :: 0 <= i < |others| ==> others[i] == ms[if i < b then i else i + 1];
    forall m | m in ms && m != ms[b] ensures m in others {
      var i :| 0 <= i < |ms| && ms[i] == m;
      assert others[if i < b then i else i - 1] == m;
    }
  }

  lemma AcceptedPicks(text: string, limit: int, spans: seq<Span>, ms: seq<Match>, picks: seq<nat>, m: Match)
    requires GoodPicks(text, limit, spans, ms, picks) && |picks| < MAX_SENTENCES
    requires m in ms && m.index !in picks && m.index < |spans| && Fits(text, limit, spans, Insert(picks, m.index))
    requires picks == [] ==> m == ms[BestMatch(ms, {})]
    ensures GoodPicks(text, limit, spans, ms, Insert(picks, m.index))
  {
    var proposed := Insert(picks, m.index);
    InsertKeepsOrder(picks, m.index);
    forall p | p in proposed ensures p in Indices(ms) { InsertMembers(picks, m.index, p); }
    InsertMembers(picks, m.index, BestIndex(ms));
  }

  lemma AcceptedLeaves(spans: seq<Span>, ms: seq<Match>, remaining: seq<Match>, picks: seq<nat>, b: nat)
    requires Untried(spans, ms, remaining, picks) && b < |remaining|
    ensures Untried(spans, ms, remaining[..b] + remaining[b+1..], Insert(picks, remaining[b].index))
  {
    OneRemoved(spans, remaining, b);
    forall m | m in remaining[..b] + remaining[b+1..] ensures m in ms && m.index !in Insert(picks, remaining[b].index) {
      InsertMembers(picks, remaining[b].index, m.index);
    }
  }

  lemma AcceptedExplored(text: string, limit: int, spans: seq<Span>, ms: seq<Match>, remaining: seq<Match>,
                         picks: seq<nat>, b: nat)
    requires AreMatches(spans, ms) && Searching(text, limit, spans, ms, remaining, picks) && b < |remaining|
    requires picks == [] ==> remaining == ms
    ensures Explored(text, limit, spans, ms, remaining[..b] + remaining[b+1..], Insert(picks, remaining[b].index))
  {
    var best, others := remaining[b], remaining[..b] + remaining[b+1..];
    var proposed := Insert(picks, best.index);
    forall m | m in ms && m !in others && m.index !in proposed ensures Misfit(text, limit, spans, proposed, m) {
      InsertMembers(picks, best.index, m.index);
      InsertMembers(picks, best.index, best.index);
      StillMisfits(text, limit, spans, ms, remaining, picks, b, m);
    }
  }

  lemma Accepting(text: string, limit: int, spans: seq<Span>, ms: seq<Match>, remaining: seq<Match>, picks: seq<nat>,
                  b: nat)
    requires AreMatches(spans, ms) && Searching(text, limit, spans, ms, remaining, picks) && |picks| < MAX_SENTENCES
    requires b < |remaining| && Fits(text, limit, spans, Insert(picks, remaining[b].index))
    requires picks == [] ==> remaining == ms && b == BestMatch(ms, {})
    ensures Searching(text, limit, spans, ms, remaining[..b] + remaining[b+1..], Insert(picks, remaining[b].index))
  {
    assert remaining[b] in remaining;
    AcceptedPicks(text, limit, spans, ms, picks, remaining[b]);
    AcceptedLeaves(spans, ms, remaining, picks, b);
    AcceptedExplored(text, limit, spans, ms, remaining, picks, b);
  }

  lemma StillMisfits(text: string, limit: int, spans: seq<Span>, ms: seq<Match>, remaining: seq<Match>,
                     picks: seq<nat>, b: nat, m: Match)
    requires AreMatches(spans, ms) && Searching(text, limit, spans, ms, remaining, picks)
    requires b < |remaining| && m in ms && m !in remaining[..b] + remaining[b+1..]
    requires m.index != remaining[b].index && m.index !in picks
    requires picks == [] ==> remaining == ms
    ensures Misfit(text, limit, spans, Insert(picks, remaining[b].index), m)
  {
    OneRemoved(spans, remaining, b);
    assert m !in remaining;
    assert remaining[b] in remaining;
    if picks != [] { assert Misfit(text, limit, spans, picks, m); }
    MisfitsStayMisfits(text, spans, picks, remaining[b].index, m.index);
  }

  lemma Rejecting(text: string, limit: int, spans: seq<Span>, ms: seq<Match>, remaining: seq<Match>, picks: seq<nat>,
                  b: nat)
    requires AreMatches(spans, ms) && Searching(text, limit, spans, ms, remaining, picks) && picks != []
    requires b < |remaining| && !Fits(text, limit, spans, Insert(picks, remaining[b].index))
    ensures Searching(text, limit, spans, ms, remaining[..b] + remaining[b+1..], picks)
  {
    OneRemoved(spans, remaining, b);
    forall m | m in ms && m !in remaining[..b] + remaining[b+1..] && m.index !in picks
      ensures Misfit(text, limit, spans, picks, m)
    {
      if m in remaining { assert m == remaining[b]; }
    }
  }

  /** The best of what is left to try is the next pick, if it fits. */
  lemma BestIsNext(text: string, limit: int, spans: seq<Span>, ms: seq<Match>, remaining: seq<Match>,
                   covered: set<string>,
                   picks: seq<nat>, b: nat)
    requires AreMatches(spans, ms) && Searching(text, limit, spans, ms, remaining, picks)
    requires b < |remaining| && (picks == [] ==> remaining == ms)
    requires forall j :: 0 <= j < |remaining| ==> Preferred(remaining[b], remaining[j], covered)
    requires !Misfit(text, limit, spans, picks, remaining[b])
    ensures NextPick(text, limit, spans, ms, picks, covered, remaining[b])
  {
    assert remaining[b] in remaining;
    forall other | other in ms && other.index !in picks && !Misfit(text, limit, spans, picks, other)
      ensures Preferred(remaining[b], other, covered)
    {
      assert other in remaining;
    }
  }

  lemma OneMoreInOrder(text: string, limit: int, spans: seq<Span>, ms: seq<Match>, order: seq<Match>, m: Match)
    requires GreedyOrder(text, limit, spans, ms, order)
    requires NextPick(text, limit, spans, ms, PicksOf(order), Gathered(order), m)
    ensures GreedyOrder(text, limit, spans, ms, order + [m])
    ensures PicksOf(order + [m]) == Insert(PicksOf(order), m.index)
            && Gathered(order + [m]) == Gathered(order) + m.overlap
  {
    assert (order + [m])[..|order|] == order;
  }

  /** One round of the search. The first match tried is the best one; if even that does not fit, the
      search gives up. */
  method TryBest(text: string, limit: int, spans: seq<Span>, ghost ms: seq<Match>, ghost order: seq<Match>,
                 remaining: seq<Match>,
                 covered: set<string>, picks: seq<nat>)
    returns (remaining': seq<Match>, covered': set<string>, picks': seq<nat>, ghost order': seq<Match>)
    requires AreMatches(spans, ms) && Searching(text, limit, spans, ms, remaining, picks)
    requires remaining != [] && |picks| < MAX_SENTENCES
    requires picks == [] ==> remaining == ms && covered == {}
    requires GreedyOrder(text, limit, spans, ms, order) && picks == PicksOf(order) && covered == Gathered(order)
    ensures picks' == [] ==> picks == [] && !Fits(text, limit, spans, [BestIndex(ms)])
    ensures picks == [] && picks' != [] ==> Fits(text, limit, spans, [BestIndex(ms)])
    ensures picks' != [] ==> Searching(text, limit, spans, ms, remaining', picks')
    ensures |remaining'| == |remaining| - 1
    ensures GreedyOrder(text, limit, spans, ms, order') && picks' == PicksOf(order') && covered' == Gathered(order')
  {
    order' := order;
    var b := BestMatch(remaining, covered);
    var best := remaining[b];
    var proposed := Insert(picks, best.index);
    InsertWithin(picks, best.index, |spans|);
    remaining' := remaining[..b] + remaining[b+1..];
    assert picks == [] ==> proposed == [BestIndex(ms)];
    if |Rendered(text, spans, proposed)| > limit {
      covered', picks' := covered, picks;
      if picks != [] { Rejecting(text, limit, spans, ms, remaining, picks, b); }
    } else {
      Accepting(text, limit, spans, ms, remaining, picks, b);
      BestIsNext(text, limit, spans, ms, remaining, covered, picks, b);
      OneMoreInOrder(text, limit, spans, ms, order, best);
      order' := order + [best];
      covered', picks' := covered + best.overlap, proposed;
    }
  }

  method SelectSentences(text: string, limit: int, spans: seq<Span>, ms: seq<Match>) returns (picks: seq<nat>)
    requires AreMatches(spans, ms)
    ensures picks == [] <==> ms == [] || !Fits(text, limit, spans, [BestIndex(ms)])
    ensures picks != [] ==> IsSelection(text, limit, spans, ms, picks)
  {
    picks := [];
    var covered: set<string> := {};
    var remaining := ms;
    ghost var order: seq<Match> := [];
    while remaining != [] && |picks| < MAX_SENTENCES
      invariant Searching(text, limit, spans, ms, remaining, picks)
      invariant picks == [] ==> remaining == ms && covered == {}
      invariant GreedyOrder(text, limit, spans, ms, order) && picks == PicksOf(order) && covered == Gathered(order)
      invariant picks != [] ==> ms != [] && Fits(text, limit, spans, [BestIndex(ms)])
      decreases |remaining|
    {
      remaining, covered, picks, order := TryBest(text, limit, spans, ms, order, remaining, covered, picks);
      if picks == [] {
        return;
      }
    }
  }

  // ---------- The selection is determined ----------

  lemma NextPickIsUnique(text: string, limit: int, spans: seq<Span>, ms: seq<Match>, picks: seq<nat>,
                         covered: set<string>,
                         m: Match, other: Match)
    requires AreMatches(spans, ms)
    requires NextPick(text, limit, spans, ms, picks, covered, m)
             && NextPick(text, limit, spans, ms, picks, covered, other)
    ensures m == other
  {
    assert Preferred(m, other, covered) && Preferred(other, m, covered);
  }

  lemma {:induction false} OrdersAgree(text: string, limit: int, spans: seq<Span>, ms: seq<Match>, a: seq<Match>,
                                       b: seq<Match>)
    requires AreMatches(spans, ms) && GreedyOrder(text, limit, spans, ms, a) && GreedyOrder(text, limit, spans, ms, b)
    requires |a| <= |b|
    ensures a == b[..|a|]
    decreases |b|
  {
    if |a| < |b| {
      OrdersAgree(text, limit, spans, ms, a, b[..|b|-1]);
      assert b[..|b|-1][..|a|] == b[..|a|];
    } else if a != [] {
      var n := |a| - 1;
      OrdersAgree(text, limit, spans, ms, a[..n], b[..n]);
      assert b[..n][..n] == b[..n];
      NextPickIsUnique(text, limit, spans, ms, PicksOf(a[..n]), Gathered(a[..n]), a[n], b[n]);
      assert a == a[..n] + [a[n]] && b[..n+1] == b[..n] + [b[n]];
    }
  }

  lemma {:induction false} PicksHaveTheOrdersLength(order: seq<Match>)
    ensures |PicksOf(order)| == |order|
  {
    if order != [] {
      PicksHaveTheOrdersLength(order[..|order|-1]);
      InsertLength(PicksOf(order[..|order|-1]), order[|order|-1].index);
    }
  }

  lemma {:induction false} InsertLength(picks: seq<nat>, x: nat)
    ensures |Insert(picks, x)| == |picks| + 1
  {
    if picks != [] && x >= picks[0] { InsertLength(picks[1..], x); }
  }

  /** A greedy order that goes on has a next pick. */
  lemma {:induction false} LongerOrderHasNext(text: string, limit: int, spans: seq<Span>, ms: seq<Match>,
                                              order: seq<Match>, n: nat)
    requires GreedyOrder(text, limit, spans, ms, order) && n < |order|
    ensures NextPick(text, limit, spans, ms, PicksOf(order[..n]), Gathered(order[..n]), order[n])
  {
    if n < |order| - 1 {
      LongerOrderHasNext(text, limit, spans, ms, order[..|order|-1], n);
      assert order[..|order|-1][..n] == order[..n];
    }
  }

  lemma SelectionHasNoNext(text: string, limit: int, spans: seq<Span>, ms: seq<Match>, picks: seq<nat>,
                           covered: set<string>, m: Match)
    requires IsSelection(text, limit, spans, ms, picks) && |picks| < MAX_SENTENCES
    ensures !NextPick(text, limit, spans, ms, picks, covered, m)
  {
    if m in ms && m.index !in picks { assert Misfit(text, limit, spans, picks, m); }
  }

  lemma SelectionIsLongest(text: string, limit: int, spans: seq<Span>, ms: seq<Match>, a: seq<Match>, b: seq<Match>)
    requires AreMatches(spans, ms) && GreedyOrder(text, limit, spans, ms, a) && GreedyOrder(text, limit, spans, ms, b)
    requires IsSelection(text, limit, spans, ms, PicksOf(a)) && |b| <= MAX_SENTENCES
    ensures |b| <= |a|
  {
    if |a| < |b| {
      OrdersAgree(text, limit, spans, ms, a, b);
      PicksHaveTheOrdersLength(a);
      SelectionHasNoNext(text, limit, spans, ms, PicksOf(a), Gathered(a), b[|a|]);
      LongerOrderHasNext(text, limit, spans, ms, b, |a|);
    }
  }

  lemma OneGreedyOrder(text: string, limit: int, spans: seq<Span>, ms: seq<Match>, a: seq<Match>, b: seq<Match>)
    requires AreMatches(spans, ms) && GreedyOrder(text, limit, spans, ms, a) && GreedyOrder(text, limit, spans, ms, b)
    requires IsSelection(text, limit, spans, ms, PicksOf(a)) && IsSelection(text, limit, spans, ms, PicksOf(b))
    ensures a == b
  {
    PicksHaveTheOrdersLength(a);
    PicksHaveTheOrdersLength(b);
    SelectionIsLongest(text, limit, spans, ms, a, b);
    SelectionIsLongest(text, limit, spans, ms, b, a);
    OrdersAgree(text, limit, spans, ms, a, b);
    assert b[..|a|] == b;
  }

  /** There is only one such selection. */
  lemma SelectionIsUnique(text: string, limit: int, spans: seq<Span>, ms: seq<Match>, p: seq<nat>, q: seq<nat>)
    requires AreMatches(spans, ms) && IsSelection(text, limit, spans, ms, p) && IsSelection(text, limit, spans, ms, q)
    ensures p == q
  {
    var a :| GreedyOrder(text, limit, spans, ms, a) && p == PicksOf(a);
    var b :| GreedyOrder(text, limit, spans, ms, b) && q == PicksOf(b);
    OneGreedyOrder(text, limit, spans, ms, a, b);
  }

  // ---------- The whole operation ----------

  /** What a query leaves of a text that is too long: a selection of whole sentences when the best
      matching one fits, the window otherwise. */
  ghost predicate ClippedAround(text: string, limit: int, terms: seq<string>, lexer: Lexer, r: string) {
    exists spans :: AreSentences(text, 0, |text|, spans) && ClippedTo(text, limit, terms, lexer, spans, r)
  }

  ghost predicate ClippedTo(text: string, limit: int, terms: seq<string>, lexer: Lexer, spans: seq<Span>, r: string) {
    var ms := MatchesOf(text, spans, terms, lexer, |spans|);
    if ms == [] || !Fits(text, limit, spans, [BestIndex(ms)]) then r == ClipWindow(text, limit, terms, lexer.fold)
    else exists picks :: IsSelection(text, limit, spans, ms, picks) && r == Rendered(text, spans, picks)
  }

  method ClipRelevantText(value: string, limit: int, query: Option<string>, lexer: Lexer) returns (r: string)
    ensures limit >= 3 ==> |r| <= limit
    ensures var text := Normalise(value);
            if |text| <= limit || query.None? || query.value == "" || lexer.terms(query.value) == [] then
              r == ClipText(text, limit)
            else ClippedAround(text, limit, lexer.terms(query.value), lexer, r)
  {
    var text := Normalise(value);
    ClipTextFits(text, limit);
    if |text| <= limit || query.None? || query.value == "" {
      return ClipText(text, limit);
    }
    var terms := lexer.terms(query.value);
    if terms == [] {
      return ClipText(text, limit);
    }
    var spans := SentenceSpans(text, 0, |text|);
    var matched := MatchesOf(text, spans, terms, lexer, |spans|);
    var picks := SelectSentences(text, limit, spans, matched);
    if picks != [] {
      r := Rendered(text, spans, picks);
    } else {
      r := ClipWindow(text, limit, terms, lexer.fold);
      if limit >= 3 { WindowFits(text, limit, terms, lexer.fold); }
    }
    assert ClippedTo(text, limit, terms, lexer, spans, r);
  }
}
