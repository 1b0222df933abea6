/** What the first reductions of the fixed list do to the printed length.

    Shortening a text is not obviously shortening what is printed: white space is compacted, an ellipsis
    is added, and characters may be printed as escapes. But a clipped text is a beginning of the compacted
    one that leaves out more than the ellipsis adds, compacting only replaces white space by single
    blanks, and no character is printed shorter than a blank. So none of the reductions that come before
    evidence is dropped ever makes the response longer. */
module EarlyTrimming {
  import opened Wrappers
  import opened TextSpans
  import opened Clipping
  import opened Payload
  import opened Fitting
  import opened Json
  import opened JsonLengths
  import opened TwoPassFit
  import opened ResponseChars

  // ---------- Clipped text is printed no longer ----------

  function Printed(s: string): nat {
    |EscapedAll(s)|
  }

  lemma PartIsNoLonger(s: string, lo: nat, hi: nat)
    requires lo <= hi <= |s|
    ensures Printed(s[lo..hi]) + (|s| - (hi - lo)) <= Printed(s)
  {
    assert s == s[..lo] + s[lo..hi] + s[hi..];
    EscapedAppend(s[..lo] + s[lo..hi], s[hi..]);
    EscapedAppend(s[..lo], s[lo..hi]);
    EscapedIsNoShorter(s[..lo]);
    EscapedIsNoShorter(s[hi..]);
  }

  lemma BeginningIsNoLonger(r: string, s: string)
    requires r <= s
    ensures Printed(r) + |s| - |r| <= Printed(s)
  {
    assert r == s[0..|r|];
    PartIsNoLonger(s, 0, |r|);
  }

  lemma SkippingIsNoLonger(s: string)
    ensures Printed(SkipSpace(s)) <= Printed(s)
  {
    var rest := SkipSpace(s);
    SkipSpaceIsSuffix(s);
    assert rest == s[|s| - |rest|..|s|];
    PartIsNoLonger(s, |s| - |rest|, |s|);
  }

  lemma Prepending(c: char, s: string)
    ensures Printed([c] + s) == |Escaped(c)| + Printed(s)
  {
    assert ([c] + s)[1..] == s;
  }

  lemma {:induction false} CollapsingIsNoLonger(s: string)
    ensures Printed(Collapse(s)) <= Printed(s)
    decreases |s|
  {
    if s != "" {
      if IsSpace(s[0]) {
        var rest := SkipSpace(s[1..]);
        SkippingIsNoLonger(s[1..]);
        CollapsingIsNoLonger(rest);
        Prepending(' ', Collapse(rest));
      } else {
        CollapsingIsNoLonger(s[1..]);
        Prepending(s[0], Collapse(s[1..]));
      }
      Prepending(s[0], s[1..]);
      assert [s[0]] + s[1..] == s;
    }
  }

  lemma NormalisingIsNoLonger(s: string)
    ensures Printed(Normalise(s)) <= Printed(s)
  {
    CollapsingIsNoLonger(s);
    SkippingIsNoLonger(Collapse(s));
    BeginningIsNoLonger(Strip(Collapse(s)), SkipSpace(Collapse(s)));
  }

  /** Clipping never lengthens what is printed. */
  lemma ClippingIsNoLonger(s: string, limit: int)
    ensures Printed(ClipText(s, limit)) <= Printed(s)
  {
    var text := Normalise(s);
    NormalisingIsNoLonger(s);
    PlainLength(ELLIPSIS);
    if |text| > limit {
      EscapedIsNoShorter(text);
      if limit >= 2 {
        ClipTextKeepsABeginning(s, limit);
        BeginningIsNoLonger(Kept(text, limit), text);
        EscapedAppend(Kept(text, limit), ELLIPSIS);
      }
    }
  }

  // ---------- One member of an object ----------

  lemma UpdatingMember(ms: Members, i: nat, key: string, v: Value)
    requires i < |ms| && ms[i].0 == key
    ensures |Dump(Object(ms[i := (key, v)]))| - |Dump(Object(ms))| == |Dump(v)| - |Dump(ms[i].1)|
  {
    assert ms == ms[..i] + [ms[i]] + ms[i+1..] && ms[i := (key, v)] == ms[..i] + [(key, v)] + ms[i+1..];
    ObjectChars(ms);
    ObjectChars(ms[i := (key, v)]);
    MiddleMemberChars(ms[..i], ms[i], ms[i+1..]);
    MiddleMemberChars(ms[..i], (key, v), ms[i+1..]);
  }

  lemma ShorterEvidence(e: Evidence, text: string)
    requires Printed(text) <= Printed(e.text)
    ensures |Dump(EvidenceJson(e.(text := text)))| <= |Dump(EvidenceJson(e))|
  {
    var ms := EvidenceJson(e).members;
    assert EvidenceJson(e.(text := text)).members == ms[2 := ("text", Text(text))];
    UpdatingMember(ms, 2, "text", Text(text));
  }

  lemma ShorterSnippet(s: Snippet, text: string)
    requires s.text.Some? && Printed(text) <= Printed(s.text.value)
    ensures |Dump(SnippetJson(s.(text := Some(text))))| <= |Dump(SnippetJson(s))|
  {
    var ms := SnippetJson(s).members;
    assert SnippetJson(s.(text := Some(text))).members == ms[4 := ("text", Text(text))];
    UpdatingMember(ms, 4, "text", Text(text));
  }

  lemma RemarkIsNoLonger(p: Response)
    ensures InfoChars(p.(textCompacted := true)) <= InfoChars(p)
  {
    var q := p.(textCompacted := true);
    assert Guidance(q) == Guidance(p) && FlagInfo(q) == FlagInfo(p);
    assert FixedInfo(p) == Guidance(p) + [("text_compacted", Truth(p.textCompacted))];
    assert FixedInfo(q) == Guidance(p) + [("text_compacted", Truth(true))];
    RemarkChars(Guidance(p), "text_compacted", Truth(p.textCompacted), Truth(true), FlagInfo(p));
  }

  lemma RemarkChars(fixed: Members, key: string, v: Value, w: Value, flag: Members)
    ensures MemberChars(fixed + [(key, w)] + flag) - MemberChars(fixed + [(key, v)] + flag) == |Dump(w)| - |Dump(v)|
  {
    MiddleMemberChars(fixed, (key, v), flag);
    MiddleMemberChars(fixed, (key, w), flag);
  }

  // ---------- One reduction ----------

  predicate Early(r: Reduction) {
    r.DropExpandedSnippet? || r.TrimWarnings? || r.TrimUnresolved? || r.TrimCovered? || r.ShrinkEvidence?
      || r.ShrinkSnippet?
  }

  lemma TrimmedTexts(xs: seq<string>)
    requires xs != []
    ensures ListChars(Texts(DropLast(xs))) <= ListChars(Texts(xs))
  {
    assert Texts(DropLast(xs)) <= Texts(xs);
    PrefixIsNoLonger(Texts(DropLast(xs)), Texts(xs));
  }

  lemma ShrunkEvidence(es: seq<Evidence>, i: nat, floor: nat, step: nat)
    requires i < |es|
    ensures ListChars(EvidencesJson(es[i := es[i].(text := Shrunk(es[i].text, floor, step))]))
            <= ListChars(EvidencesJson(es))
  {
    var e := es[i].(text := Shrunk(es[i].text, floor, step));
    ClippingIsNoLonger(es[i].text, Max(floor, |es[i].text| - step));
    ShorterEvidence(es[i], e.text);
    UpdatingItems(EvidencesJson(es), i, EvidenceJson(e));
    assert EvidencesJson(es[i := e]) == EvidencesJson(es)[i := EvidenceJson(e)];
  }

  lemma ShrunkSnippet(ss: seq<Snippet>, i: nat, floor: nat, step: nat)
    requires i < |ss| && ss[i].text.Some?
    ensures ListChars(SnippetsJson(ss[i := ss[i].(text := Some(Shrunk(ss[i].text.value, floor, step)))]))
            <= ListChars(SnippetsJson(ss))
  {
    var s := ss[i].(text := Some(Shrunk(ss[i].text.value, floor, step)));
    ClippingIsNoLonger(ss[i].text.value, Max(floor, |ss[i].text.value| - step));
    ShorterSnippet(ss[i], s.text.value);
    UpdatingItems(SnippetsJson(ss), i, SnippetJson(s));
    assert SnippetsJson(ss[i := s]) == SnippetsJson(ss)[i := SnippetJson(s)];
  }

  lemma FourKeys(ms: Members)
    requires |ms| >= 4
    ensures KeyChars(ms) >= |ms[0].0| + |ms[1].0| + |ms[2].0| + |ms[3].0| + 24
  {
    ThreeKeys(ms);
    EscapedIsNoShorter(ms[3].0);
    assert ms[2..][1..] == ms[3..] && ms[3..][0] == ms[3];
    assert KeyChars(ms[3..]) >= |Quoted(ms[3].0)| + 4;
  }

  lemma ThreeKeys(ms: Members)
    requires |ms| >= 3
    ensures KeyChars(ms) >= |ms[0].0| + |ms[1].0| + |ms[2].0| + 18 + KeyChars(ms[3..])
  {
    EscapedIsNoShorter(ms[0].0);
    EscapedIsNoShorter(ms[1].0);
    EscapedIsNoShorter(ms[2].0);
    assert ms[1..][0] == ms[1] && ms[1..][1..] == ms[2..] && ms[2..][0] == ms[2] && ms[2..][1..] == ms[3..];
    assert KeyChars(ms[1..]) == |Quoted(ms[1].0)| + 4 + KeyChars(ms[2..]);
    assert KeyChars(ms[2..]) == |Quoted(ms[2].0)| + 4 + KeyChars(ms[3..]);
  }
}
