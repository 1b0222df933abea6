/** The printed length of a response: what each part contributes to it.

    The response is an object of objects and lists. Its length is the length of its keys, which no
    fitting changes, of the lists that trimming shortens, of what the response says about itself, and
    of its counters. Two responses with the same frame and the same counters therefore differ in length
    exactly by their lists and by their remarks, and that difference can be followed through every
    reduction of the fitting loop, one part at a time. */
module ResponseChars {
  import opened Wrappers
  import opened Payload
  import opened Json
  import opened JsonLengths
  import opened TwoPassFit

  // ---------- The parts of the whole ----------

  function CoverageChars(p: Response): nat {
    ListChars(Texts(p.covered)) + ListChars(Texts(p.missing))
  }

  /** The lists that trimming shortens. */
  function ListsChars(p: Response): nat {
    CoverageChars(p) + ListChars(SourcesJson(p.sources)) + ListChars(EvidencesJson(p.evidence))
    + ListChars(SnippetsJson(p.snippets)) + ListChars(ContradictionsJson(p.contradictions))
    + ListChars(Texts(p.unresolved)) + ListChars(Texts(p.warnings)) + ListChars(FailuresJson(p.failures))
  }

  /** What the response says about itself, without its counters. */
  function InfoChars(p: Response): nat {
    MemberChars(FixedInfo(p) + FlagInfo(p))
  }

  function CoverageMembers(p: Response): Members {
    [("score", Literal(p.frame.score)), ("status", Text(p.frame.status)),
     ("covered_topics", List(Texts(p.covered))), ("missing_topics", List(Texts(p.missing))),
     ("primary_source_present", Truth(p.frame.primarySource)),
     ("independent_source_count", Number(p.frame.independentSources))]
  }

  lemma CoverageSplit(p: Response)
    ensures |Dump(CoverageJson(p))| == KeyChars(CoverageMembers(p)) + CoverageChars(p)
              + |p.frame.score| + |Quoted(p.frame.status)| + |Dump(Truth(p.frame.primarySource))|
                + Digits(p.frame.independentSources)
  {
    var ms := CoverageMembers(p);
    PrintedObject(ms);
    SixValues(ms);
    PrintedList(Texts(p.covered));
    PrintedList(Texts(p.missing));
  }

  lemma SameCoverageKeys(p: Response, q: Response)
    ensures KeyChars(CoverageMembers(p)) == KeyChars(CoverageMembers(q))
  {
    var xs, ys := CoverageMembers(p), CoverageMembers(q);
    forall i | 0 <= i < 6 ensures xs[i].0 == ys[i].0 {}
    SameKeys(xs, ys);
  }

  lemma CoverageDifference(p: Response, q: Response)
    requires p.frame == q.frame
    ensures |Dump(CoverageJson(q))| - |Dump(CoverageJson(p))| == CoverageChars(q) - CoverageChars(p)
  {
    CoverageSplit(p);
    CoverageSplit(q);
    SameCoverageKeys(p, q);
  }

  lemma BeforeSplit(p: Response)
    ensures ValueChars(BeforeSnippets(p))
            == |Dump(CoverageJson(p))| + ListChars(SourcesJson(p.sources)) + ListChars(EvidencesJson(p.evidence))
  {
    ThreeValues(BeforeSnippets(p));
    PrintedList(SourcesJson(p.sources));
    PrintedList(EvidencesJson(p.evidence));
  }

  lemma AfterSplit(p: Response)
    requires p.query.None?
    ensures ValueChars(AfterSnippets(p))
            == ListChars(ContradictionsJson(p.contradictions)) + ListChars(Texts(p.unresolved))
              + ListChars(Texts(p.warnings))
               + ListChars(FailuresJson(p.failures)) + |Dump(PrivacyJson(p))|
  {
    FiveValues(AfterSnippets(p));
    PrintedList(ContradictionsJson(p.contradictions));
    PrintedList(Texts(p.unresolved));
    PrintedList(Texts(p.warnings));
    PrintedList(FailuresJson(p.failures));
  }

  lemma MiddleSplit(key: string, items: seq<Value>)
    ensures ValueChars([(key, List(items))]) == ListChars(items)
  {
    PrintedList(items);
    var ms := [(key, List(items))];
    assert ms[1..] == [];
  }

  lemma BodySplit(p: Response)
    requires p.query.None?
    ensures MemberChars(BodyJson(p)) == KeyChars(BodyJson(p)) + ListsChars(p) - CoverageChars(p)
                                        + |Dump(CoverageJson(p))| + |Dump(PrivacyJson(p))|
  {
    KeysAndValues(BodyJson(p));
    var middle := [("search_snippets", List(SnippetsJson(p.snippets)))];
    ValueCharsAppend(BeforeSnippets(p) + middle, AfterSnippets(p));
    ValueCharsAppend(BeforeSnippets(p), middle);
    MiddleSplit("search_snippets", SnippetsJson(p.snippets));
    BeforeSplit(p);
    AfterSplit(p);
  }

  lemma BodyKeys(p: Response, q: Response)
    requires p.query.None? && q.query.None?
    ensures |BodyJson(p)| == |BodyJson(q)|
    ensures forall i :: 0 <= i < |BodyJson(p)| ==> BodyJson(p)[i].0 == BodyJson(q)[i].0
  {
    assert |BeforeSnippets(p)| == |BeforeSnippets(q)| == 3 && |AfterSnippets(p)| == |AfterSnippets(q)| == 5;
    forall i | 0 <= i < 3 ensures BeforeSnippets(p)[i].0 == BeforeSnippets(q)[i].0 {}
    forall i | 0 <= i < 5 ensures AfterSnippets(p)[i].0 == AfterSnippets(q)[i].0 {}
  }

  lemma SamePrivacy(p: Response, q: Response)
    requires p.frame == q.frame
    ensures PrivacyJson(p) == PrivacyJson(q)
  {
  }

  lemma BodyDifference(p: Response, q: Response)
    requires p.frame == q.frame && p.query.None? && q.query.None?
    ensures MemberChars(BodyJson(q)) - MemberChars(BodyJson(p)) == ListsChars(q) - ListsChars(p)
  {
    BodySplit(p);
    BodySplit(q);
    CoverageDifference(p, q);
    BodyKeys(p, q);
    SamePrivacy(p, q);
    SameKeys(BodyJson(p), BodyJson(q));
  }

  lemma CharsSplit(body: Members, fixed: Members, keys: CounterKeys, evidence: nat, snippets: nat, size: Option<nat>)
    ensures CharsOf(body, fixed, keys, evidence, snippets, size)
            == MemberChars(body) + |Quoted(keys.info)| + 4 + MemberChars(fixed)
              + MemberChars(WithCounters([], keys, evidence, snippets, size))
  {
    var info := WithCounters(fixed, keys, evidence, snippets, size);
    ObjectChars(body + [(keys.info, Object(info))]);
    MemberCharsAppend(body, [(keys.info, Object(info))]);
    ObjectChars(info);
    assert info == fixed + WithCounters([], keys, evidence, snippets, size);
    MemberCharsAppend(fixed, WithCounters([], keys, evidence, snippets, size));
    OneMember(keys.info, Object(info));
  }

  /** With the same frame and counters, lengths differ by the trimmed lists and the remarks. */
  lemma CharsDifference(p: Response, q: Response)
    requires p.frame == q.frame && p.query.None? && q.query.None?
    requires p.omittedEvidence == q.omittedEvidence && p.omittedSnippets == q.omittedSnippets
             && p.serializedChars == q.serializedChars
    ensures JsonChars(q) - JsonChars(p) == ListsChars(q) - ListsChars(p) + InfoChars(q) - InfoChars(p)
  {
    BodyDifference(p, q);
    CharsSplit(BodyJson(p), FixedInfo(p) + FlagInfo(p), KEYS, p.omittedEvidence, p.omittedSnippets, p.serializedChars);
    CharsSplit(BodyJson(q), FixedInfo(q) + FlagInfo(q), KEYS, q.omittedEvidence, q.omittedSnippets, q.serializedChars);
  }
}
