/** What separates paragraphs, on the characters alone. */
module ParagraphProperties {
  import opened Wrappers
  import opened TextSpans

  /** Two line feeds with only blanks and tabs between them, and perhaps a carriage return right before the
      second one. */
  ghost predicate BlankLine(text: string, i: nat, j: nat) {
    && i < j < |text| && text[i] == '\n' && text[j] == '\n'
    && forall k :: i < k < j ==> text[k] == ' ' || text[k] == '\t' || (text[k] == '\r' && k == j - 1)
  }

  ghost predicate HasBlankLine(text: string, lo: nat, hi: nat) {
    exists i, j :: lo <= i < j < hi && BlankLine(text, i, j)
  }

  // ---------- A separator holds a blank line ----------

  lemma {:induction false} SkippedAreBlanks(text: string, i: nat, k: nat)
    requires i <= |text| && i <= k < SkipBlanks(text, i)
    ensures text[k] == ' ' || text[k] == '\t'
    decreases |text| - i
  {
    if k > i { SkippedAreBlanks(text, i + 1, k); }
  }

  lemma LineBreakEnds(text: string, i: nat)
    requires LineBreak(text, i).Some?
    ensures var end := LineBreak(text, i).value;
            text[end - 1] == '\n' && (end == i + 1 || (end == i + 2 && text[i] == '\r'))
  {
  }

  /** A separator starts with a line break, and the line after it is blank. */
  lemma SeparatorHoldsABlankLine(text: string, i: nat)
    requires Separator(text, i).Some?
    ensures HasBlankLine(text, i, Separator(text, i).value)
  {
    var next := LineBreak(text, i).value;
    var skipped := SkipBlanks(text, next);
    var end := LineBreak(text, skipped).value;
    LineBreakEnds(text, i);
    LineBreakEnds(text, skipped);
    forall k | next <= k < skipped ensures text[k] == ' ' || text[k] == '\t' { SkippedAreBlanks(text, next, k); }
    assert BlankLine(text, next - 1, end - 1);
    assert end <= BlankLines(text, end) == BlankLines(text, next);
  }

  // ---------- A blank line makes a separator ----------

  lemma {:induction false} SkippingReaches(text: string, i: nat, end: nat)
    requires i <= end < |text| && text[end] != ' ' && text[end] != '\t'
    requires forall k :: i <= k < end ==> text[k] == ' ' || text[k] == '\t'
    ensures SkipBlanks(text, i) == end
    decreases end - i
  {
    if i < end { SkippingReaches(text, i + 1, end); }
  }

  lemma BlankLineSeparates(text: string, i: nat, j: nat)
    requires BlankLine(text, i, j)
    ensures Separator(text, i).Some?
  {
    var end := if j > i + 1 && text[j-1] == '\r' then j - 1 else j;
    SkippingReaches(text, i + 1, end);
    assert LineBreak(text, end) == Some(j + 1);
  }

  // ---------- Paragraphs ----------

  /** All of a separator is white space, so it ends before the next character that is not. */
  lemma SeparatorEndsBefore(text: string, i: nat, c: nat)
    requires Separator(text, i).Some? && i <= c < |text| && !IsSpace(text[c])
    ensures Separator(text, i).value <= c
  {
  }

  /** Before a character that is not white space, separators and blank lines are the same. */
  lemma SeparatedIff(text: string, lo: nat, hi: nat)
    requires lo <= hi < |text| && !IsSpace(text[hi])
    ensures SeparatorBetween(text, lo, hi) <==> HasBlankLine(text, lo, hi)
  {
    if SeparatorBetween(text, lo, hi) {
      var i :| lo <= i < hi && Separator(text, i).Some?;
      SeparatorHoldsABlankLine(text, i);
      SeparatorEndsBefore(text, i, hi);
      var a, b :| i <= a < b < Separator(text, i).value && BlankLine(text, a, b);
      assert lo <= a < b < hi && BlankLine(text, a, b);
    }
    if HasBlankLine(text, lo, hi) {
      var i, j :| lo <= i < j < hi && BlankLine(text, i, j);
      BlankLineSeparates(text, i, j);
    }
  }

  /** Inside a paragraph nothing separates, up to its last character. */
  lemma WithinIff(text: string, s: Span)
    requires IsTrimmed(text, s)
    ensures SeparatorBetween(text, s.start, s.end) <==> HasBlankLine(text, s.start, s.end)
  {
    SeparatedIff(text, s.start, s.end - 1);
    assert Separator(text, s.end - 1).None? by { if Separator(text, s.end - 1).Some? { assert false; } }
    if SeparatorBetween(text, s.start, s.end) {
      var i :| s.start <= i < s.end && Separator(text, i).Some?;
      assert i < s.end - 1;
    }
    if HasBlankLine(text, s.start, s.end) {
      var i, j :| s.start <= i < j < s.end && BlankLine(text, i, j);
      assert j < s.end - 1;
    }
  }

  /** Reference: trimmed stretches that hold every character which is not white space, no blank line inside
      one, and a blank line between each two neighbours. */
  ghost predicate SplitAtBlankLines(text: string, spans: seq<Span>) {
    && Covers(text, spans, 0, |text|)
    && (forall k :: 0 <= k < |spans| ==> !HasBlankLine(text, spans[k].start, spans[k].end))
    && (forall j, k :: 0 <= j < |spans| && 0 <= k < |spans| && k == j + 1 ==>
          HasBlankLine(text, spans[j].end, spans[k].start))
  }

  /** Paragraphs are exactly what blank lines split the text into. */
  lemma ParagraphsAreSplitAtBlankLines(text: string, spans: seq<Span>)
    ensures AreParagraphs(text, spans) <==> SplitAtBlankLines(text, spans)
  {
    if Covers(text, spans, 0, |text|) {
      forall k | 0 <= k < |spans|
        ensures SeparatorBetween(text, spans[k].start, spans[k].end)
                <==> HasBlankLine(text, spans[k].start, spans[k].end)
      {
        WithinIff(text, spans[k]);
      }
      forall j, k | 0 <= j < |spans| && 0 <= k < |spans| && k == j + 1
        ensures SeparatorBetween(text, spans[j].end, spans[k].start)
                <==> HasBlankLine(text, spans[j].end, spans[k].start)
      {
        SeparatedIff(text, spans[j].end, spans[k].start);
      }
    }
  }

  lemma StillHasBlankLine(text: string, lo: nat, hi: nat, from: nat, to: nat)
    requires from <= lo && hi <= to
    ensures HasBlankLine(text, lo, hi) ==> HasBlankLine(text, from, to)
  {
    if HasBlankLine(text, lo, hi) {
      var i, j :| lo <= i < j < hi && BlankLine(text, i, j);
      assert from <= i < j < to && BlankLine(text, i, j);
    }
  }

  /** A text without a blank line is at most one paragraph. */
  lemma WithoutBlankLineOneParagraph(text: string, spans: seq<Span>)
    requires AreParagraphs(text, spans) && !HasBlankLine(text, 0, |text|)
    ensures |spans| <= 1
  {
    ParagraphsAreSplitAtBlankLines(text, spans);
    if |spans| > 1 { StillHasBlankLine(text, spans[0].end, spans[1].start, 0, |text|); }
  }

  // ---------- Sentences ----------

  /** What the sentences of a stretch are, in terms of its characters: each but the last ends with closing
      punctuation right before white space, and none goes on after such a place. */
  lemma SentencesEndAtPunctuation(text: string, lo: nat, hi: nat, spans: seq<Span>, k: nat)
    requires hi <= |text| && AreSentences(text, lo, hi, spans) && k < |spans|
    ensures k < |spans| - 1 ==>
              (text[spans[k].end-1] == '.' || text[spans[k].end-1] == '!' || text[spans[k].end-1] == '?')
              && IsSpace(text[spans[k].end])
    ensures forall i ::
              spans[k].start <= i < spans[k].end - 1 && (text[i] == '.' || text[i] == '!' || text[i] == '?') ==>
                !IsSpace(text[i+1])
  {
    assert k < |spans| - 1 ==> Break(text, spans[k].end);
    forall i | spans[k].start <= i < spans[k].end - 1 && (text[i] == '.' || text[i] == '!' || text[i] == '?')
      ensures !IsSpace(text[i+1])
    {
      assert !Break(text, i + 1);
    }
  }
}
