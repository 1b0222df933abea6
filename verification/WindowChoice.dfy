/** What the window around the terms of a query shows. */
module WindowChoice {
  import opened TextSpans
  import opened RelevantClipping

  // ---------- Occurrences ----------

  ghost predicate IsAt(hay: string, needle: string, i: nat) {
    i + |needle| <= |hay| && hay[i..i+|needle|] == needle
  }

  lemma IsAtLater(hay: string, needle: string, from: nat, i: nat)
    requires from <= |hay|
    ensures IsAt(hay[from..], needle, i) <==> IsAt(hay, needle, from + i)
  {
    if from + i + |needle| <= |hay| { assert hay[from..][i..i+|needle|] == hay[from+i..from+i+|needle|]; }
  }

  /** A term occurs exactly where it is a part of the text. */
  lemma {:induction false} OccursIff(hay: string, needle: string)
    ensures Occurs(hay, needle) <==> exists i: nat :: IsAt(hay, needle, i)
    decreases |hay|
  {
    if needle == "" {
      assert IsAt(hay, needle, 0);
    } else if |hay| >= |needle| {
      if hay[..|needle|] == needle {
        assert IsAt(hay, needle, 0);
      } else {
        OccursIff(hay[1..], needle);
        forall i: nat ensures IsAt(hay[1..], needle, i) <==> IsAt(hay, needle, 1 + i) {
          IsAtLater(hay, needle, 1, i);
        }
        assert !IsAt(hay, needle, 0);
        if i: nat :| IsAt(hay, needle, i) { assert IsAt(hay[1..], needle, i - 1); }
      }
    }
  }

  /** The matches of a term are occurrences, from left to right and without overlap. */
  lemma {:induction false} MatchesAreApart(text: string, term: string, from: nat, i: nat)
    requires i < |Matches(text, term, from)| && term != ""
    ensures var ms := Matches(text, term, from);
            && from <= ms[i] && IsAt(text, term, ms[i])
            && forall j :: 0 <= j < i ==> ms[j] + |term| <= ms[i]
    decreases |text| - from
  {
    if text[from..from+|term|] == term {
      if i > 0 {
        MatchesAreApart(text, term, from + |term|, i - 1);
        forall j | 0 <= j < i ensures Matches(text, term, from)[j] + |term| <= Matches(text, term, from)[i] {
          if j > 0 { assert Matches(text, term, from)[j] == Matches(text, term, from + |term|)[j - 1]; }
        }
      }
    } else {
      MatchesAreApart(text, term, from + 1, i);
    }
  }

  /** Every occurrence overlaps a match that does not begin after it. */
  lemma {:induction false} MatchesMissNothing(text: string, term: string, from: nat, at: nat) returns (k: nat)
    requires from <= at && IsAt(text, term, at) && term != ""
    ensures var ms := Matches(text, term, from); k < |ms| && ms[k] <= at < ms[k] + |term|
    decreases |text| - from
  {
    if text[from..from+|term|] == term {
      if at < from + |term| {
        k := 0;
      } else {
        k := MatchesMissNothing(text, term, from + |term|, at);
        k := k + 1;
      }
    } else {
      k := MatchesMissNothing(text, term, from + 1, at);
    }
  }

  /** Counting a term counts its matches. */
  lemma {:induction false} CountIsTheNumberOfMatches(text: string, term: string, from: nat)
    requires from <= |text| && term != ""
    ensures Count(text[from..], term) == |Matches(text, term, from)|
    decreases |text| - from
  {
    var rest := text[from..];
    if from + |term| <= |text| {
      assert rest[..|term|] == text[from..from+|term|];
      if rest[..|term|] == term {
        assert rest[|term|..] == text[from+|term|..];
        CountIsTheNumberOfMatches(text, term, from + |term|);
      } else {
        assert rest[1..] == text[from+1..];
        CountIsTheNumberOfMatches(text, term, from + 1);
      }
    }
  }

  /** The occurrences of several terms add up. */
  lemma {:induction false} CountAllAddsUp(hay: string, terms: seq<string>, more: seq<string>, fold: string -> string)
    ensures CountAll(hay, terms + more, fold) == CountAll(hay, terms, fold) + CountAll(hay, more, fold)
    ensures |terms| == 1 ==> CountAll(hay, terms, fold) == Count(hay, fold(terms[0]))
  {
    if terms == [] {
      assert terms + more == more;
    } else {
      assert (terms + more)[1..] == terms[1..] + more;
      CountAllAddsUp(hay, terms[1..], more, fold);
    }
  }

  // ---------- Comparing windows ----------

  /** The positions, from `from` on, of the terms that occur. */
  ghost function Occurring(hay: string, terms: seq<string>, fold: string -> string, from: nat): set<nat> {
    set i: nat | from <= i < |terms| && Occurs(hay, fold(terms[i]))
  }

  lemma {:induction false} CountDistinctIsTheirNumber(hay: string, terms: seq<string>, fold: string -> string,
                                                      from: nat)
    requires from <= |terms|
    ensures CountDistinct(hay, terms[from..], fold) == |Occurring(hay, terms, fold, from)|
    decreases |terms| - from
  {
    if from == |terms| {
      assert Occurring(hay, terms, fold, from) == {};
    } else {
      var rest := Occurring(hay, terms, fold, from + 1);
      CountDistinctIsTheirNumber(hay, terms, fold, from + 1);
      assert terms[from..][1..] == terms[from+1..];
      if Occurs(hay, fold(terms[from])) {
        assert Occurring(hay, terms, fold, from) == rest + {from};
      } else {
        assert Occurring(hay, terms, fold, from) == rest;
      }
    }
  }

  /** A term more outweighs up to nine occurrences; of two windows with equally many terms the one with more
      occurrences scores higher. */
  lemma MoreTermsThenMoreOccurrences(folded: string, terms: seq<string>, fold: string -> string, start: nat, end: nat,
                                     start': nat, end': nat)
    ensures var a, b := Clamped(folded, start, end), Clamped(folded, start', end');
            var termsA, termsB := |Occurring(a, terms, fold, 0)|, |Occurring(b, terms, fold, 0)|;
            var allA, allB := CountAll(a, terms, fold), CountAll(b, terms, fold);
            var higher := WindowScore(folded, terms, fold, start, end) > WindowScore(folded, terms, fold, start', end');
            && (termsA == termsB ==> (higher <==> allA > allB))
            && (termsA > termsB && allB < allA + 10 ==> higher)
            && (termsA == termsB + 1 ==> (higher <==> allB < allA + 10))
  {
    CountDistinctIsTheirNumber(Clamped(folded, start, end), terms, fold, 0);
    CountDistinctIsTheirNumber(Clamped(folded, start', end'), terms, fold, 0);
    assert terms[0..] == terms;
  }

  // ---------- Where the window is ----------

  /** The window of an occurrence holds its first character, has a third of its size before it unless the text begins
      or ends too near, and lies in the text unless the text is shorter. */
  lemma WindowHoldsItsCenter(length: nat, size: nat, center: nat)
    requires 0 < size && center < length
    ensures var start := WindowStart(length, size, center);
            && start <= center < start + size
            && (start + size <= length || start == 0)
            && (size / 3 <= center && center - size / 3 + size <= length ==> center - start == size / 3)
            && (center < size / 3 ==> start == 0)
            && (size <= length < center - size / 3 + size ==> start + size == length)
  {
  }

  lemma {:induction false} FindBlankIsFirst(s: string, from: nat, i: nat)
    requires from <= i < |s| && s[i] == ' '
    ensures from <= FindBlank(s, from) <= i
    decreases |s| - from
  {
    if s[from] != ' ' { FindBlankIsFirst(s, from + 1, i); }
  }

  lemma {:induction false} RFindBlankIsLast(s: string, lo: nat, hi: nat, i: nat)
    requires lo <= i < hi <= |s| && s[i] == ' '
    ensures RFindBlank(s, lo, hi) >= i
    decreases hi
  {
    if s[hi-1] != ' ' { RFindBlankIsLast(s, lo, hi - 1, i); }
  }

  /** The best window scores at least as much as every other around an occurrence, and begins before those that score
      as much. */
  lemma BestWindowIsBest(text: string, size: nat, terms: seq<string>, fold: string -> string, i: nat)
    requires i < |Centers(fold(text), terms, fold)|
    ensures var best, scores := BestWindow(text, size, terms, fold), ScoresFrom(text, size, terms, fold);
            var start := WindowStart(|text|, size, Centers(fold(text), terms, fold)[i]);
            && scores(best) >= scores(start) && (scores(best) == scores(start) ==> best <= start)
  {
    var centers := Centers(fold(text), terms, fold);
    var starts := WindowStarts(|text|, size, centers);
    assert starts[i] in starts;
  }

  lemma BestWindowHasACenter(text: string, size: nat, terms: seq<string>, fold: string -> string) returns (i: nat)
    requires Centers(fold(text), terms, fold) != []
    ensures i < |Centers(fold(text), terms, fold)|
    ensures BestWindow(text, size, terms, fold) == WindowStart(|text|, size, Centers(fold(text), terms, fold)[i])
  {
    var starts := WindowStarts(|text|, size, Centers(fold(text), terms, fold));
    i :| 0 <= i < |starts| && starts[i] == BestWindow(text, size, terms, fold);
  }

  /** A window that does not begin the text may begin later, behind its first blank, if more than forty characters are
      left. */
  lemma WordStartIsAfterABlank(text: string, best: nat, end: nat)
    requires best < |text| && end <= |text|
    ensures var start := WordStart(text, best, end);
            || start == best
            || (0 < best < start < end - 39 && text[start-1] == ' ' && ' ' !in text[best..start-1])
  {
    var start := WordStart(text, best, end);
    if start != best && ' ' in text[best..start-1] {
      var j :| 0 <= j < start - 1 - best && text[best..start-1][j] == ' ';
      FindBlankIsFirst(text, best, best + j);
    }
  }

  /** A window that does not end the text may end earlier, at its last blank, if at least forty characters are left. */
  lemma WordEndIsAtABlank(text: string, start: nat, end: nat)
    requires start <= end <= |text|
    ensures var r := WordEnd(text, start, end);
            || r == end
            || (start + 40 <= r < end < |text| && text[r] == ' ' && ' ' !in text[r+1..end])
  {
    var r := WordEnd(text, start, end);
    if r != end && ' ' in text[r+1..end] {
      var j :| 0 <= j < end - r - 1 && text[r+1..end][j] == ' ';
      RFindBlankIsLast(text, start + 40, end, r + 1 + j);
    }
  }

  // ---------- Matching sentences ----------

  /** A sentence matches exactly when it has a term of the query, with those terms and the occurrences of all terms. */
  lemma {:induction false} SentencesMatchIff(text: string, spans: seq<Span>, terms: seq<string>, lexer: Lexer, n: nat,
                                             i: nat)
    requires i < n <= |spans|
    ensures var sentence, ms := SentenceText(text, spans[i]), MatchesOf(text, spans, terms, lexer, n);
            if exists t :: t in terms && t in lexer.terms(sentence)
            then exists m :: m in ms && m.index == i
                   && (forall t :: t in m.overlap <==> t in terms && t in lexer.terms(sentence))
                   && m.occurrences == CountAll(lexer.fold(sentence), terms, lexer.fold)
            else forall m :: m in ms ==> m.index != i
  {
    var last, before := MatchOf(text, spans, terms, lexer, n - 1), MatchesOf(text, spans, terms, lexer, n - 1);
    var sentence, ms := SentenceText(text, spans[i]), MatchesOf(text, spans, terms, lexer, n);
    assert ms == if last.overlap != {} then before + [last] else before;
    if i < n - 1 {
      SentencesMatchIff(text, spans, terms, lexer, n - 1, i);
    } else {
      if t :| t in terms && t in lexer.terms(sentence) { assert t in last.overlap; }
    }
  }

  // ---------- Comparing sentences ----------

  /** A term that is new to the selection outweighs up to two more shared ones, and a shared term up to three more
      occurrences; of equal overlaps and new terms the sentence with more occurrences gains more. */
  lemma NewTermsGainMost(a: Match, b: Match, covered: set<string>)
    ensures var newA, newB := |a.overlap - covered|, |b.overlap - covered|;
            && (newA == newB && |a.overlap| == |b.overlap| ==>
                  (Gain(a, covered) > Gain(b, covered) <==> a.occurrences > b.occurrences))
            && (newA == newB && a.occurrences == b.occurrences ==>
                  (Gain(a, covered) > Gain(b, covered) <==> |a.overlap| > |b.overlap|))
            && (newA == newB + 1 && a.occurrences == b.occurrences ==>
                  (Gain(a, covered) > Gain(b, covered) <==> |b.overlap| < |a.overlap| + 3))
            && (newA == newB && |a.overlap| == |b.overlap| + 1 ==>
                  (Gain(a, covered) > Gain(b, covered) <==> b.occurrences < a.occurrences + 4))
  {
  }
}
