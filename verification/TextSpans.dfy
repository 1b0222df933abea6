/** Spans of a text: trimming, paragraphs and sentences, as half-open ranges of character positions.

    Each list of spans is made by a loop over the text; what the loops promise is that the spans are
    trimmed, in order and apart from one another, and that every character which is not white space
    lies in one of them. */
module TextSpans {
  import opened Wrappers

  datatype Span = Span(start: nat, end: nat)

  /** The characters Unicode counts as white space. */
  predicate IsSpace(c: char) {
    || '\t' <= c <= '\r' || '\U{1c}' <= c <= ' ' || c == '\U{85}' || c == '\U{a0}' || c == '\U{1680}'
    || '\U{2000}' <= c <= '\U{200a}' || c == '\U{2028}' || c == '\U{2029}' || c == '\U{202f}'
    || c == '\U{205f}' || c == '\U{3000}'
  }

  predicate EndsSentence(c: char) {
    c == '.' || c == '!' || c == '?'
  }

  ghost predicate AllSpace(text: string, lo: nat, hi: nat)
    requires hi <= |text|
  {
    forall i :: lo <= i < hi ==> IsSpace(text[i])
  }

  /** A non-empty range of the text that neither starts nor ends with white space. */
  predicate IsTrimmed(text: string, s: Span) {
    s.start < s.end <= |text| && !IsSpace(text[s.start]) && !IsSpace(text[s.end - 1])
  }

  /** The range left when white space is stripped from both ends of [start, end), if any. */
  ghost predicate IsTrimOf(text: string, start: nat, end: nat, r: Option<Span>)
    requires end <= |text|
  {
    match r
    case None => AllSpace(text, start, end)
    case Some(s) =>
      && start <= s.start && s.end <= end && IsTrimmed(text, s)
      && AllSpace(text, start, s.start) && AllSpace(text, s.end, end)
  }

  function AsList(r: Option<Span>): seq<Span> {
    if r.Some? then [r.value] else []
  }

  method TrimmedSpan(text: string, start: nat, end: nat) returns (r: Option<Span>)
    requires start <= end <= |text|
    ensures IsTrimOf(text, start, end, r)
  {
    var lo, hi := start, end;
    while lo < hi && IsSpace(text[lo])
      invariant start <= lo <= hi && AllSpace(text, start, lo)
    {
      lo := lo + 1;
    }
    while hi > lo && IsSpace(text[hi - 1])
      invariant lo <= hi <= end && AllSpace(text, hi, end)
      invariant lo < end ==> lo < hi && !IsSpace(text[lo])
    {
      hi := hi - 1;
    }
    r := if lo < hi then Some(Span(lo, hi)) else None;
  }

  // ---------- Lists of spans ----------

  /** Trimmed spans in order, without overlap, inside [lo, hi), leaving only white space outside. */
  ghost predicate Covers(text: string, spans: seq<Span>, lo: nat, hi: nat)
    requires hi <= |text|
  {
    && (forall k :: 0 <= k < |spans| ==> IsTrimmed(text, spans[k]) && lo <= spans[k].start && spans[k].end <= hi)
    && (forall j, k :: 0 <= j < k < |spans| ==> spans[j].end <= spans[k].start)
    && (forall i {:trigger Inside(spans, i)} :: lo <= i < hi && !IsSpace(text[i]) ==> Inside(spans, i))
  }

  ghost predicate Inside(spans: seq<Span>, i: nat) {
    exists k :: 0 <= k < |spans| && spans[k].start <= i < spans[k].end
  }

  lemma InsideGrows(spans: seq<Span>, span: Span, i: nat)
    ensures Inside(spans + [span], i) <==> Inside(spans, i) || span.start <= i < span.end
  {
    if Inside(spans, i) {
      var k :| 0 <= k < |spans| && spans[k].start <= i < spans[k].end;
      assert (spans + [span])[k] == spans[k];
    }
    if span.start <= i < span.end {
      assert (spans + [span])[|spans|] == span;
    }
  }

  lemma InsideSnoc(text: string, spans: seq<Span>, lo: nat, mid: nat, hi: nat, s: Span, i: nat)
    requires lo <= mid <= hi <= |text| && Covers(text, spans, lo, mid) && IsTrimOf(text, mid, hi, Some(s))
    requires lo <= i < hi && !IsSpace(text[i])
    ensures Inside(spans + [s], i)
  {
    InsideGrows(spans, s, i);
    if i < mid { assert Inside(spans, i); }
  }

  lemma CoverageSnoc(text: string, spans: seq<Span>, lo: nat, mid: nat, hi: nat, s: Span)
    requires lo <= mid <= hi <= |text| && Covers(text, spans, lo, mid) && IsTrimOf(text, mid, hi, Some(s))
    ensures Covers(text, spans + [s], lo, hi)
  {
    forall i {:trigger Inside(spans + [s], i)} | lo <= i < hi && !IsSpace(text[i]) ensures Inside(spans + [s], i) {
      InsideSnoc(text, spans, lo, mid, hi, s, i);
    }
  }

  /** Appending what one trimmed range holds extends a list that covers the text before it. */
  lemma CoverageGrows(text: string, spans: seq<Span>, lo: nat, mid: nat, hi: nat, span: Option<Span>)
    requires lo <= mid <= hi <= |text| && Covers(text, spans, lo, mid) && IsTrimOf(text, mid, hi, span)
    ensures Covers(text, spans + AsList(span), lo, hi)
  {
    match span
    case None =>
      assert spans + AsList(span) == spans;
    case Some(s) => CoverageSnoc(text, spans, lo, mid, hi, s);
  }

  // ---------- Paragraphs ----------

  /** The end of a line break at `i`: a newline, optionally preceded by a carriage return. */
  function LineBreak(text: string, i: nat): (end: Option<nat>)
    ensures end.Some? ==> i < end.value <= |text| && AllSpace(text, i, end.value)
  {
    if i < |text| && text[i] == '\n' then Some(i + 1)
    else if i + 1 < |text| && text[i] == '\r' && text[i+1] == '\n' then Some(i + 2)
    else None
  }

  function SkipBlanks(text: string, i: nat): (end: nat)
    requires i <= |text|
    ensures i <= end <= |text| && AllSpace(text, i, end)
    decreases |text| - i
  {
    if i < |text| && (text[i] == ' ' || text[i] == '\t') then SkipBlanks(text, i + 1) else i
  }

  /** The end of the longest run of blank lines at `i`. */
  function BlankLines(text: string, i: nat): (end: nat)
    requires i <= |text|
    ensures i <= end <= |text| && AllSpace(text, i, end)
    decreases |text| - i
  {
    match LineBreak(text, SkipBlanks(text, i))
    case None => i
    case Some(next) => BlankLines(text, next)
  }

  /** The end of the paragraph separator at `i`: a line break and at least one blank line. */
  function Separator(text: string, i: nat): (end: Option<nat>)
    ensures end.Some? ==> i < end.value <= |text| && AllSpace(text, i, end.value)
  {
    match LineBreak(text, i)
    case None => None
    case Some(next) => if BlankLines(text, next) == next then None else Some(BlankLines(text, next))
  }

  ghost predicate SeparatorBetween(text: string, lo: nat, hi: nat) {
    exists i :: lo <= i < hi && Separator(text, i).Some?
  }

  /** The paragraphs found in the text before `start`, where a separator (or the text) ends. */
  ghost predicate ParagraphsBefore(text: string, spans: seq<Span>, start: nat)
    requires start <= |text|
  {
    && Covers(text, spans, 0, start)
    && (forall k :: 0 <= k < |spans| ==> !SeparatorBetween(text, spans[k].start, spans[k].end))
    && (forall j, k :: 0 <= j < |spans| && 0 <= k < |spans| && k == j + 1 ==>
          SeparatorBetween(text, spans[j].end, spans[k].start))
  }

  /** The paragraphs of a text: its maximal stretches without a separator, trimmed. */
  ghost predicate AreParagraphs(text: string, spans: seq<Span>) {
    ParagraphsBefore(text, spans, |text|)
  }

  lemma ParagraphsGrow(text: string, spans: seq<Span>, start: nat, end: nat, span: Option<Span>)
    requires start <= end <= |text| && AtParagraphStart(text, spans, start) && IsTrimOf(text, start, end, span)
    requires !SeparatorBetween(text, start, end)
    ensures ParagraphsBefore(text, spans + AsList(span), end)
  {
    CoverageGrows(text, spans, 0, start, end, span);
    match span
    case None =>
      assert spans + AsList(span) == spans;
    case Some(s) =>
      var all := spans + [s];
      forall k | 0 <= k < |all| ensures !SeparatorBetween(text, all[k].start, all[k].end) {
        assert k < |spans| ==> all[k] == spans[k];
      }
      forall j, k | 0 <= j < |all| && 0 <= k < |all| && k == j + 1
        ensures SeparatorBetween(text, all[j].end, all[k].start)
      {
        assert all[j] == spans[j];
        assert k < |spans| ==> all[k] == spans[k];
      }
  }

  /** Where the scan resumes: at the start of the text or right after a separator. */
  ghost predicate AtParagraphStart(text: string, spans: seq<Span>, start: nat)
    requires start <= |text|
  {
    ParagraphsBefore(text, spans, start) && (spans != [] ==> SeparatorBetween(text, spans[|spans|-1].end, start))
  }

  lemma SeparatorEndsParagraph(text: string, spans: seq<Span>, i: nat, end: nat)
    requires i < end <= |text| && ParagraphsBefore(text, spans, i) && Separator(text, i) == Some(end)
    ensures AtParagraphStart(text, spans, end)
  {
    if spans != [] {
      assert SeparatorBetween(text, spans[|spans|-1].end, end);
    }
  }

  method ParagraphSpans(text: string) returns (spans: seq<Span>)
    ensures AreParagraphs(text, spans)
  {
    spans := [];
    var start, i := 0, 0;
    while i < |text|
      invariant 0 <= start <= i <= |text|
      invariant AtParagraphStart(text, spans, start) && !SeparatorBetween(text, start, i)
      decreases |text| - i
    {
      var separator := Separator(text, i);
      match separator {
        case None => i := i + 1;
        case Some(end) =>
          var span := TrimmedSpan(text, start, i);
          ParagraphsGrow(text, spans, start, i, span);
          spans := spans + AsList(span);
          SeparatorEndsParagraph(text, spans, i, end);
          start, i := end, end;
      }
    }
    var span := TrimmedSpan(text, start, |text|);
    ParagraphsGrow(text, spans, start, |text|, span);
    spans := spans + AsList(span);
  }

  // ---------- Sentences ----------

  /** A sentence ends before position `i`: white space right after closing punctuation. */
  predicate Break(text: string, i: nat) {
    0 < i < |text| && EndsSentence(text[i-1]) && IsSpace(text[i])
  }

  /** The sentences of [lo, hi): no break inside a sentence, and one right after each but the last. */
  ghost predicate AreSentences(text: string, lo: nat, hi: nat, spans: seq<Span>)
    requires hi <= |text|
  {
    && Covers(text, spans, lo, hi)
    && (forall k, i :: 0 <= k < |spans| && spans[k].start < i < spans[k].end ==> !Break(text, i))
    && (forall k :: 0 <= k < |spans| - 1 ==> Break(text, spans[k].end))
  }

  /** The sentences found before `start`, each closed by a break. */
  ghost predicate SentencesBefore(text: string, lo: nat, start: nat, spans: seq<Span>)
    requires start <= |text|
  {
    && Covers(text, spans, lo, start)
    && (forall k, i :: 0 <= k < |spans| && spans[k].start < i < spans[k].end ==> !Break(text, i))
    && (forall k :: 0 <= k < |spans| ==> Break(text, spans[k].end))
  }

  lemma SentencesGrow(text: string, lo: nat, start: nat, end: nat, spans: seq<Span>, span: Option<Span>)
    requires lo <= start <= end <= |text| && SentencesBefore(text, lo, start, spans)
    requires IsTrimOf(text, start, end, span) && forall i :: start < i < end ==> !Break(text, i)
    ensures AreSentences(text, lo, end, spans + AsList(span))
    ensures Break(text, end) ==> SentencesBefore(text, lo, end, spans + AsList(span))
  {
    CoverageGrows(text, spans, lo, start, end, span);
    if span.None? {
      assert spans + AsList(span) == spans;
    } else if Break(text, end) {
      assert span.value.end == end;
    }
  }

  method SentenceSpans(text: string, lo: nat, hi: nat) returns (spans: seq<Span>)
    requires lo <= hi <= |text|
    ensures AreSentences(text, lo, hi, spans)
  {
    spans := [];
    var start, i := lo, lo;
    while i < hi
      invariant lo <= start <= i <= hi
      invariant SentencesBefore(text, lo, start, spans) && forall j :: start < j < i ==> !Break(text, j)
      decreases hi - i
    {
      if Break(text, i) {
        var span := TrimmedSpan(text, start, i);
        SentencesGrow(text, lo, start, i, spans, span);
        spans := spans + AsList(span);
        var end := i;
        while end < hi && IsSpace(text[end])
          invariant i <= end <= hi && AllSpace(text, i, end)
        {
          end := end + 1;
        }
        start, i := end, end;
      } else {
        i := i + 1;
      }
    }
    var span := TrimmedSpan(text, start, hi);
    SentencesGrow(text, lo, start, hi, spans, span);
    spans := spans + AsList(span);
  }
}
