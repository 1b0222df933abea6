/** What shortening keeps of a text: normalising keeps its words, and a cut prefers the end of a sentence. */
module ClippedWords {
  import opened TextSpans
  import opened Clipping

  // ---------- Words ----------

  /** The longest runs without white space. */
  function Words(s: string): (r: seq<string>)
    ensures s != "" && !IsSpace(s[0]) ==> r != []
  {
    if s == "" then []
    else
      var rest := Words(s[1..]);
      if IsSpace(s[0]) then rest
      else if |s| > 1 && !IsSpace(s[1]) then [[s[0]] + rest[0]] + rest[1..]
      else [[s[0]]] + rest
  }

  lemma {:induction false} SkippingKeepsWords(s: string)
    ensures Words(SkipSpace(s)) == Words(s)
  {
    if s != "" && IsSpace(s[0]) { SkippingKeepsWords(s[1..]); }
  }

  lemma {:induction false} SpaceAtTheEndAddsNoWord(s: string, c: char)
    requires IsSpace(c)
    ensures Words(s + [c]) == Words(s)
  {
    if s == "" {
      assert s + [c] == [c] && [c][1..] == "";
    } else {
      SpaceAtTheEndAddsNoWord(s[1..], c);
      assert (s + [c])[1..] == s[1..] + [c];
    }
  }

  lemma {:induction false} TrimmingKeepsWords(s: string)
    ensures Words(TrimEnd(s)) == Words(s)
  {
    if s != "" && IsSpace(s[|s|-1]) {
      TrimmingKeepsWords(s[..|s|-1]);
      SpaceAtTheEndAddsNoWord(s[..|s|-1], s[|s|-1]);
      assert s[..|s|-1] + [s[|s|-1]] == s;
    }
  }

  lemma {:induction false} CollapsingKeepsWords(s: string)
    ensures Words(Collapse(s)) == Words(s)
    ensures Collapse(s) != "" <==> s != ""
    ensures s != "" ==> (IsSpace(Collapse(s)[0]) <==> IsSpace(s[0]))
    decreases |s|
  {
    if s != "" {
      if IsSpace(s[0]) {
        var rest := SkipSpace(s[1..]);
        CollapsingKeepsWords(rest);
        SkippingKeepsWords(s[1..]);
        assert Collapse(s)[1..] == Collapse(rest);
      } else {
        CollapsingKeepsWords(s[1..]);
        assert Collapse(s)[1..] == Collapse(s[1..]);
      }
    }
  }

  /** A normalised text has the same words in the same order. */
  lemma NormalisingKeepsWords(s: string)
    ensures Words(Normalise(s)) == Words(s)
  {
    CollapsingKeepsWords(s);
    SkippingKeepsWords(Collapse(s));
    TrimmingKeepsWords(SkipSpace(Collapse(s)));
  }

  // ---------- Sentences ----------

  /** A sentence ends at this position, and another begins after a blank. */
  predicate EndsSentence(text: string, i: nat)
    requires i < |text|
  {
    (text[i] == '.' || text[i] == '?' || text[i] == '!') && i + 1 < |text| && text[i+1] == ' '
  }

  lemma EndsAreFound(s: string, mark: string)
    requires |mark| == 2 && (mark[0] == '.' || mark[0] == '?' || mark[0] == '!') && mark[1] == ' '
    ensures var i := RFind(s, mark, |s|); i >= 0 ==> i + 1 < |s| && EndsSentence(s, i)
  {
    var i := RFind(s, mark, |s|);
    if i >= 0 { assert s[i..i+2][0] == s[i] && s[i..i+2][1] == s[i+1]; }
  }

  lemma MarkIsFound(s: string, mark: string, i: nat)
    requires |mark| == 2 && i + 1 < |s| && s[i] == mark[0] && s[i+1] == mark[1]
    ensures RFind(s, mark, |s|) >= i
  {
    assert s[i..i+2] == mark;
    RFindIsLast(s, mark, |s|, i);
  }

  /** The last of the three marks that end a sentence. */
  function LastEnd(s: string): int {
    Max(RFind(s, ". ", |s|), Max(RFind(s, "? ", |s|), RFind(s, "! ", |s|)))
  }

  lemma LastEndEnds(s: string)
    ensures LastEnd(s) >= 0 ==> LastEnd(s) + 1 < |s| && EndsSentence(s, LastEnd(s))
  {
    EndsAreFound(s, ". ");
    EndsAreFound(s, "? ");
    EndsAreFound(s, "! ");
  }

  lemma NoLaterEnd(s: string, i: nat)
    requires i < |s| && EndsSentence(s, i)
    ensures i <= LastEnd(s)
  {
    if s[i] == '.' {
      MarkIsFound(s, ". ", i);
    } else if s[i] == '?' {
      MarkIsFound(s, "? ", i);
    } else {
      MarkIsFound(s, "! ", i);
    }
  }

  /** When a sentence ends in the part that fits, not before character 80 and its middle, the text is cut after the last
      that does. */
  lemma CutAfterTheLastSentence(candidate: string, limit: int, i: nat)
    requires limit >= 2 && i + 1 < |candidate| && EndsSentence(candidate, i) && i >= Max(80, limit / 2)
    ensures var r := Cut(candidate, limit);
            && r != "" && |r| > i && EndsSentence(candidate, |r| - 1)
            && forall j :: |r| <= j < |candidate| ==> !EndsSentence(candidate, j)
  {
    LastEndEnds(candidate);
    NoLaterEnd(candidate, i);
    forall j | LastEnd(candidate) < j < |candidate| ensures !EndsSentence(candidate, j) {
      if EndsSentence(candidate, j) { NoLaterEnd(candidate, j); }
    }
  }
}
