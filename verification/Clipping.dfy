/** Shortening text to a limit: at a sentence or word end, or around what a query asks for. */
module Clipping {
  import opened TextSpans

  const ELLIPSIS: string := "\U{2026}"

  // ---------- Normalised text ----------

  function SkipSpace(s: string): (r: string)
    ensures |r| <= |s| && (r != "" ==> !IsSpace(r[0]))
  {
    if s != "" && IsSpace(s[0]) then SkipSpace(s[1..]) else s
  }

  function TrimEnd(s: string): (r: string)
    ensures r <= s && (r != "" ==> !IsSpace(r[|r|-1]))
  {
    if s != "" && IsSpace(s[|s|-1]) then TrimEnd(s[..|s|-1]) else s
  }

  function Strip(s: string): (r: string)
    ensures |r| <= |s|
  {
    TrimEnd(SkipSpace(s))
  }

  /** Every run of white space becomes one blank. */
  function Collapse(s: string): (r: string)
    ensures |r| <= |s|
    decreases |s|
  {
    if s == "" then ""
    else if IsSpace(s[0]) then " " + Collapse(SkipSpace(s[1..]))
    else [s[0]] + Collapse(s[1..])
  }

  function Normalise(s: string): (r: string)
    ensures |r| <= |s|
  {
    Strip(Collapse(s))
  }

  /** White space at this position is a blank, and no more follows it. */
  ghost predicate SingleAt(s: string, i: nat)
    requires i < |s|
  {
    IsSpace(s[i]) ==> s[i] == ' ' && (i + 1 < |s| ==> !IsSpace(s[i + 1]))
  }

  /** White space occurs only as single blanks between other characters. */
  ghost predicate SingleBlanks(s: string) {
    forall i :: 0 <= i < |s| ==> SingleAt(s, i)
  }

  ghost predicate IsNormal(s: string) {
    SingleBlanks(s) && (s != "" ==> !IsSpace(s[0]) && !IsSpace(s[|s|-1]))
  }

  lemma PrependKeepsSingleBlanks(c: char, s: string)
    requires SingleBlanks(s) && (IsSpace(c) ==> c == ' ' && (s != "" ==> !IsSpace(s[0])))
    ensures SingleBlanks([c] + s)
  {
    forall i | 0 <= i < |[c] + s| ensures SingleAt([c] + s, i) {
      if i > 0 { assert SingleAt(s, i - 1); }
    }
  }

  lemma {:induction false} CollapseLeavesSingleBlanks(s: string)
    ensures SingleBlanks(Collapse(s))
    ensures s != "" && !IsSpace(s[0]) ==> Collapse(s) != "" && Collapse(s)[0] == s[0]
    decreases |s|
  {
    if s != "" {
      if IsSpace(s[0]) {
        var rest := SkipSpace(s[1..]);
        CollapseLeavesSingleBlanks(rest);
        PrependKeepsSingleBlanks(' ', Collapse(rest));
      } else {
        CollapseLeavesSingleBlanks(s[1..]);
        PrependKeepsSingleBlanks(s[0], Collapse(s[1..]));
      }
    }
  }

  lemma {:induction false} SkipSpaceIsSuffix(s: string)
    ensures SkipSpace(s) == s[|s| - |SkipSpace(s)|..]
  {
    if s != "" && IsSpace(s[0]) { SkipSpaceIsSuffix(s[1..]); }
  }

  lemma SliceKeepsSingleBlanks(s: string, lo: nat, hi: nat)
    requires SingleBlanks(s) && lo <= hi <= |s|
    ensures SingleBlanks(s[lo..hi])
  {
    var r := s[lo..hi];
    forall i | 0 <= i < |r| ensures SingleAt(r, i) {
      assert SingleAt(s, lo + i);
    }
  }

  lemma StripIsNormal(c: string)
    requires SingleBlanks(c)
    ensures IsNormal(Strip(c))
  {
    var suffix := SkipSpace(c);
    SkipSpaceIsSuffix(c);
    SliceKeepsSingleBlanks(c, |c| - |suffix|, |c|);
    assert suffix == c[|c| - |suffix|..|c|];
    var r := TrimEnd(suffix);
    SliceKeepsSingleBlanks(suffix, 0, |r|);
    assert r == suffix[0..|r|];
  }

  lemma NormaliseIsNormal(s: string)
    ensures IsNormal(Normalise(s))
  {
    CollapseLeavesSingleBlanks(s);
    StripIsNormal(Collapse(s));
  }

  lemma {:induction false} CollapseKeepsSingleBlanks(s: string)
    requires SingleBlanks(s)
    ensures Collapse(s) == s
    decreases |s|
  {
    if s != "" {
      assert SingleAt(s, 0);
      SliceKeepsSingleBlanks(s, 1, |s|);
      assert s[1..|s|] == s[1..];
      CollapseKeepsSingleBlanks(s[1..]);
      if IsSpace(s[0]) { assert SkipSpace(s[1..]) == s[1..]; }
    }
  }

  lemma NormalTextIsFixed(s: string)
    requires IsNormal(s)
    ensures Normalise(s) == s
  {
    CollapseKeepsSingleBlanks(s);
  }

  // ---------- Searching ----------

  /** The last position at or below `n` where `sub` occurs, or -1. */
  function RFind(s: string, sub: string, n: int): (r: int)
    ensures -1 <= r && (r >= 0 ==> r <= n && r + |sub| <= |s| && s[r..r+|sub|] == sub)
    decreases if n < 0 then 0 else n + 1
  {
    if n < 0 then -1
    else if n + |sub| <= |s| && s[n..n+|sub|] == sub then n
    else RFind(s, sub, n - 1)
  }

  function Max(x: int, y: int): int {
    if x >= y then x else y
  }

  function Min(x: int, y: int): int {
    if x <= y then x else y
  }

  // ---------- Clipping to a limit ----------

  /** Where a text that is too long is cut: after its last sentence if that keeps enough of it,
      otherwise after its last whole word if that does, otherwise at the limit. */
  function Cut(candidate: string, limit: int): (r: string)
    requires limit >= 2
    ensures r <= candidate
  {
    var sentenceEnd := Max(RFind(candidate, ". ", |candidate|),
                           Max(RFind(candidate, "? ", |candidate|), RFind(candidate, "! ", |candidate|)));
    if sentenceEnd >= Max(80, limit / 2) then candidate[..sentenceEnd + 1]
    else
      var wordEnd := RFind(candidate, " ", |candidate|);
      if wordEnd >= Max(40, limit / 2) then candidate[..wordEnd] else candidate
  }

  function ClipText(value: string, limit: int): string {
    var text := Normalise(value);
    if |text| <= limit then text
    else if limit <= 1 then (if limit == 1 then ELLIPSIS else "")
    else TrimEnd(Cut(TrimEnd(text[..limit-1]), limit)) + ELLIPSIS
  }

  /** The result never exceeds the limit. */
  lemma ClipTextFits(value: string, limit: int)
    ensures |ClipText(value, limit)| <= Max(limit, 0)
  {
    var text := Normalise(value);
    if |text| > limit && limit >= 2 {
      assert |TrimEnd(text[..limit-1])| <= limit - 1;
    }
  }

  lemma {:induction false} RFindIsLast(s: string, sub: string, n: int, i: nat)
    requires i <= n && i + |sub| <= |s| && s[i..i+|sub|] == sub
    ensures RFind(s, sub, n) >= i
    decreases n
  {
    if !(n + |sub| <= |s| && s[n..n+|sub|] == sub) { RFindIsLast(s, sub, n - 1, i); }
  }

  /** The part of a text that clipping keeps. */
  function Kept(text: string, limit: int): string
    requires 2 <= limit < |text|
  {
    TrimEnd(Cut(TrimEnd(text[..limit-1]), limit))
  }

  lemma TrimmingANormalText(text: string, n: nat)
    requires IsNormal(text) && 0 < n <= |text|
    ensures TrimEnd(text[..n]) == if IsSpace(text[n-1]) then text[..n-1] else text[..n]
  {
    assert text[..n][..n-1] == text[..n-1];
    if IsSpace(text[n-1]) && n > 1 { assert SingleAt(text, n - 2); }
  }

  lemma CutKeepsHalf(text: string, candidate: string, limit: int)
    requires IsNormal(text) && limit >= 2 && candidate <= text && limit - 2 <= |candidate|
    ensures limit / 2 - 1 <= |TrimEnd(Cut(candidate, limit))|
  {
    var cut := Cut(candidate, limit);
    if |cut| > 0 {
      assert cut == text[..|cut|];
      TrimmingANormalText(text, |cut|);
    }
  }

  lemma CandidateKeepsNearlyAll(text: string, limit: int)
    requires IsNormal(text) && 2 <= limit < |text|
    ensures var candidate := TrimEnd(text[..limit-1]);
            candidate <= text && limit - 2 <= |candidate| < limit
  {
    TrimmingANormalText(text, limit - 1);
  }

  /** A text that must be cut keeps an unchanged beginning of at least half the limit, marked by an
      ellipsis. */
  lemma ClipTextKeepsABeginning(value: string, limit: int)
    requires 2 <= limit < |Normalise(value)|
    ensures var text := Normalise(value);
            var kept := Kept(text, limit);
            && ClipText(value, limit) == kept + ELLIPSIS
            && kept <= text && limit / 2 - 1 <= |kept| < limit
  {
    var text := Normalise(value);
    NormaliseIsNormal(value);
    CandidateKeepsNearlyAll(text, limit);
    CutKeepsHalf(text, TrimEnd(text[..limit-1]), limit);
  }

  lemma TrimmingAtABlank(text: string, n: nat)
    requires IsNormal(text) && 0 < n < |text| && text[n] == ' '
    ensures TrimEnd(text[..n]) == text[..n]
  {
    assert IsSpace(' ');
    assert SingleAt(text, n - 1);
    TrimmingANormalText(text, n);
  }

  lemma CutIsBetweenWords(text: string, candidate: string, limit: int)
    requires IsNormal(text) && limit >= 2 && candidate <= text
    requires RFind(candidate, " ", |candidate|) >= Max(40, limit / 2)
    ensures |TrimEnd(Cut(candidate, limit))| < |text| && text[|TrimEnd(Cut(candidate, limit))|] == ' '
  {
    var wordEnd := RFind(candidate, " ", |candidate|);
    var sentenceEnd := Max(RFind(candidate, ". ", |candidate|),
                           Max(RFind(candidate, "? ", |candidate|), RFind(candidate, "! ", |candidate|)));
    var cut := Cut(candidate, limit);
    if sentenceEnd >= Max(80, limit / 2) {
      assert cut == text[..sentenceEnd + 1];
      TrimmingAtABlank(text, sentenceEnd + 1);
    } else {
      assert candidate[wordEnd..wordEnd + 1][0] == candidate[wordEnd] == ' ';
      assert cut == text[..wordEnd];
      TrimmingAtABlank(text, wordEnd);
    }
  }

  /** It is cut between words whenever a blank leaves at least half the limit. */
  lemma ClipTextCutsBetweenWords(value: string, limit: int, blank: nat)
    requires 2 <= limit < |Normalise(value)|
    requires Max(40, limit / 2) <= blank < limit - 2 && Normalise(value)[blank] == ' '
    ensures var kept := Kept(Normalise(value), limit);
            |kept| < |Normalise(value)| && Normalise(value)[|kept|] == ' '
  {
    var text := Normalise(value);
    NormaliseIsNormal(value);
    CandidateKeepsNearlyAll(text, limit);
    var candidate := TrimEnd(text[..limit-1]);
    assert candidate[blank] == text[blank] && candidate[blank..blank+1] == " ";
    RFindIsLast(candidate, " ", |candidate|, blank);
    CutIsBetweenWords(text, candidate, limit);
  }

  /** Shrinking a field towards a floor always shortens it: what the fitting loops rely on. */
  lemma ShrinkingIsStrict(value: string, floor: nat, step: nat)
    requires |value| > floor && step > 0
    ensures |ClipText(value, Max(floor, |value| - step))| < |value|
  {
    ClipTextFits(value, Max(floor, |value| - step));
  }

  lemma BeginningWithEllipsisIsNormal(text: string, p: string)
    requires IsNormal(text) && p <= text && (p != "" ==> !IsSpace(p[|p|-1]))
    ensures IsNormal(p + ELLIPSIS)
  {
    SliceKeepsSingleBlanks(text, 0, |p|);
    assert p == text[0..|p|];
    var r := p + ELLIPSIS;
    forall i | 0 <= i < |r| ensures SingleAt(r, i) {
      if i < |p| { assert SingleAt(p, i); }
    }
  }

  /** Clipping twice to one limit changes nothing more. */
  lemma ClipTextIsIdempotent(value: string, limit: int)
    ensures ClipText(ClipText(value, limit), limit) == ClipText(value, limit)
  {
    var text := Normalise(value);
    NormaliseIsNormal(value);
    ClipTextFits(value, limit);
    if |text| <= limit {
      NormalTextIsFixed(text);
    } else if limit >= 2 {
      var p := TrimEnd(Cut(TrimEnd(text[..limit-1]), limit));
      assert p <= TrimEnd(text[..limit-1]) <= text[..limit-1] <= text;
      BeginningWithEllipsisIsNormal(text, p);
      NormalTextIsFixed(p + ELLIPSIS);
    } else {
      NormalTextIsFixed(ClipText(value, limit));
    }
  }
}
