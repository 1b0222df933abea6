/** Search snippets with citations, and the floor under the exact query: what the exact results alone
    determine. */
module Snippets {
  import opened Wrappers
  import opened TextSpans
  import opened Clipping
  import opened ClippedWords
  import opened Merging
  import opened ResultObjects

  /** `number` is printed in the snippet's id and citation. */
  datatype Record = Record(number: nat, rank: nat, exact: bool, url: string, title: string, text: string,
                           domain: string, engines: set<string>, relevance: real)

  /** What is shown for a result: redaction of its URL, its host, and whether its text is risky. */
  datatype Display = Display(redact: string -> string, host: string -> string, risky: (string, string) -> bool)

  const QUARANTINED := "[quarantined high-risk search snippet]"

  predicate Blank(c: Result) {
    Normalise(c.snippet) == "" && Strip(c.title) == ""
  }

  /** The record of the candidate at a position, counted from 1. */
  function RecordOf(c: Result, position: nat, number: nat, exact: bool, display: Display): Record {
    var text := Normalise(c.snippet);
    var risky := display.risky(c.title, text);
    Record(number, if exact && c.rank.Some? && c.rank.value > 0 then c.rank.value else position, exact,
      display.redact(c.url),
           if risky then QUARANTINED else c.title, if risky then "" else text,
           if c.domain != "" then c.domain else display.host(c.url), c.engines, c.preliminary)
  }

  /** A record shows the redacted URL, and of a risky result neither its title nor its text. */
  lemma RiskyTextIsNotShown(c: Result, position: nat, number: nat, exact: bool, display: Display)
    ensures var r := RecordOf(c, position, number, exact, display);
            && r.url == display.redact(c.url)
            && (display.risky(c.title, Normalise(c.snippet)) ==> r.title == QUARANTINED && r.text == "")
            && (!display.risky(c.title, Normalise(c.snippet)) ==>
                  r.title == c.title && Words(r.text) == Words(c.snippet))
            && (r.rank == position || (exact && c.rank == Some(r.rank) && r.rank > 0))
  {
    NormalisingKeepsWords(c.snippet);
  }

  lemma {:induction false} NoWordsIff(s: string)
    ensures Words(s) == [] <==> forall i :: 0 <= i < |s| ==> IsSpace(s[i])
  {
    if s != "" {
      NoWordsIff(s[1..]);
      assert forall i :: 0 < i < |s| ==> s[i] == s[1..][i-1];
    }
  }

  /** A result is blank exactly when its title and its snippet are white space only. */
  lemma BlankIff(c: Result)
    ensures Blank(c) <==> (forall i :: 0 <= i < |c.snippet| ==> IsSpace(c.snippet[i]))
                          && forall i :: 0 <= i < |c.title| ==> IsSpace(c.title[i])
  {
    NormalisingKeepsWords(c.snippet);
    NormaliseIsNormal(c.snippet);
    NoWordsIff(c.snippet);
    NoWordsIff(Normalise(c.snippet));
    SkippingKeepsWords(c.title);
    TrimmingKeepsWords(SkipSpace(c.title));
    NoWordsIff(c.title);
    NoWordsIff(Strip(c.title));
  }

  type Wanted = Result -> bool

  type Show = (Result, nat, nat) -> Record

  /** Records for the wanted candidates, up to a maximum; `show` gets the position and the number. */
  function Listed(cs: seq<Result>, most: int, start: nat, wanted: Wanted, show: Show): (r: seq<Record>)
    ensures |r| <= Max(0, most)
  {
    if cs == [] then []
    else
      var n := |cs| - 1;
      var before := Listed(cs[..n], most, start, wanted, show);
      if |before| < most && wanted(cs[n]) then before + [show(cs[n], n + 1, start + |before|)] else before
  }

  /** The positions of the candidates that get a record. */
  function Chosen(cs: seq<Result>, most: int, wanted: Wanted): (ps: seq<nat>)
    ensures forall i :: 0 <= i < |ps| ==> ps[i] < |cs|
  {
    if cs == [] then []
    else
      var n := |cs| - 1;
      var before := Chosen(cs[..n], most, wanted);
      if |before| < most && wanted(cs[n]) then before + [n] else before
  }

  function Showable(excluded: set<string>): Wanted {
    (c: Result) => c.url !in excluded && !Blank(c)
  }

  function Showing(exact: bool, display: Display): Show {
    (c: Result, position: nat, number: nat) => RecordOf(c, position, number, exact, display)
  }

  function Snippets(cs: seq<Result>, limit: int, exact: bool, start: nat, excluded: set<string>,
                    display: Display): (r: seq<Record>)
    ensures |r| <= Max(0, Min(limit, 20))
  {
    Listed(cs, Min(limit, 20), start, Showable(excluded), Showing(exact, display))
  }

  lemma {:induction false} SameNumber(cs: seq<Result>, most: int, start: nat, wanted: Wanted, show: Show)
    ensures |Listed(cs, most, start, wanted, show)| == |Chosen(cs, most, wanted)|
  {
    if cs != [] { SameNumber(cs[..|cs|-1], most, start, wanted, show); }
  }

  /** Each record shows the candidate of its position, numbered from the start on; only wanted candidates
      are shown, in order. */
  lemma {:induction false} RecordsShowTheChosen(cs: seq<Result>, most: int, start: nat, wanted: Wanted, show: Show,
                                                i: nat)
    requires i < |Chosen(cs, most, wanted)| == |Listed(cs, most, start, wanted, show)|
    ensures var ps := Chosen(cs, most, wanted);
            && Listed(cs, most, start, wanted, show)[i] == show(cs[ps[i]], ps[i] + 1, start + i)
            && wanted(cs[ps[i]]) && (i > 0 ==> ps[i-1] < ps[i])
  {
    var n := |cs| - 1;
    SameNumber(cs[..n], most, start, wanted, show);
    if i < |Chosen(cs[..n], most, wanted)| { RecordsShowTheChosen(cs[..n], most, start, wanted, show, i); }
  }

  /** Unless the limit is reached, every wanted candidate gets a record. */
  lemma {:induction false} EveryCandidateIsChosen(cs: seq<Result>, most: int, wanted: Wanted, i: nat)
    requires i < |cs| && wanted(cs[i]) && |Chosen(cs, most, wanted)| < most
    ensures i in Chosen(cs, most, wanted)
  {
    if i < |cs| - 1 { EveryCandidateIsChosen(cs[..|cs|-1], most, wanted, i); }
  }

  lemma ListedNext(cs: seq<Result>, most: int, start: nat, wanted: Wanted, show: Show, i: nat)
    requires i < |cs|
    ensures var before := Listed(cs[..i], most, start, wanted, show);
            Listed(cs[..i+1], most, start, wanted, show)
            == if |before| < most && wanted(cs[i]) then before + [show(cs[i], i + 1, start + |before|)] else before
  {
    assert cs[..i+1][..i] == cs[..i];
  }

  method BuildListed(cs: seq<Result>, most: int, start: nat, wanted: Wanted, show: Show) returns (records: seq<Record>)
    ensures records == Listed(cs, most, start, wanted, show)
  {
    records := [];
    for i := 0 to |cs|
      invariant records == Listed(cs[..i], most, start, wanted, show)
    {
      ListedNext(cs, most, start, wanted, show, i);
      if |records| < most && wanted(cs[i]) { records := records + [show(cs[i], i + 1, start + |records|)]; }
    }
    assert cs[..|cs|] == cs;
  }

  method BuildSnippets(cs: seq<Result>, limit: int, exact: bool, start: nat, excluded: set<string>, display: Display)
    returns (records: seq<Record>)
    ensures records == Snippets(cs, limit, exact, start, excluded, display)
  {
    records := BuildListed(cs, Min(limit, 20), start, Showable(excluded), Showing(exact, display));
  }

  // ---------- Exact snippets, continued by expanded ones ----------

  function Urls(records: seq<Record>): set<string> {
    set r | r in records :: r.url
  }

  function ExactSnippets(exact: seq<Result>, limit: int, display: Display): seq<Record> {
    Snippets(exact, Min(10, limit), true, 1, {}, display)
  }

  function AllSnippets(exact: seq<Result>, expanded: seq<Result>, limit: int, expandedLimit: int,
                       display: Display): seq<Record>
  {
    var first := ExactSnippets(exact, limit, display);
    first + Snippets(expanded, expandedLimit, false, |first| + 1, Urls(first), display)
  }

  /** The numbers are 1 to n over both parts, and the exact part depends on the exact results alone. */
  lemma NumbersAreConsecutive(exact: seq<Result>, expanded: seq<Result>, limit: int, expandedLimit: int,
                              display: Display)
    ensures var all := AllSnippets(exact, expanded, limit, expandedLimit, display);
            var first := ExactSnippets(exact, limit, display);
            && (forall i :: 0 <= i < |all| ==> all[i].number == i + 1)
            && first <= all
            && (forall i :: 0 <= i < |all| ==> (all[i].exact <==> i < |first|))
  {
    var first := ExactSnippets(exact, limit, display);
    NumberedFrom(exact, Min(10, limit), true, 1, {}, display);
    NumberedFrom(expanded, expandedLimit, false, |first| + 1, Urls(first), display);
  }

  lemma NumberedFrom(cs: seq<Result>, limit: int, exact: bool, start: nat, excluded: set<string>, display: Display)
    ensures var r := Snippets(cs, limit, exact, start, excluded, display);
            forall i :: 0 <= i < |r| ==> r[i].number == start + i && r[i].exact == exact
  {
    var r := Snippets(cs, limit, exact, start, excluded, display);
    SameNumber(cs, Min(limit, 20), start, Showable(excluded), Showing(exact, display));
    forall i | 0 <= i < |r| ensures r[i].number == start + i && r[i].exact == exact {
      RecordsShowTheChosen(cs, Min(limit, 20), start, Showable(excluded), Showing(exact, display), i);
    }
  }

  /** A snippet chosen against excluded URLs still shows one of them exactly when redaction turned its
      own URL, which was compared unredacted, into that URL. */
  lemma SnippetsRepeatIffRedacted(cs: seq<Result>, limit: int, exact: bool, start: nat, excluded: set<string>,
                                  display: Display, i: nat)
    requires i < |Snippets(cs, limit, exact, start, excluded, display)|
    ensures var ps := Chosen(cs, Min(limit, 20), Showable(excluded));
            && i < |ps|
            && (Snippets(cs, limit, exact, start, excluded, display)[i].url in excluded
                <==> display.redact(cs[ps[i]].url) in excluded && display.redact(cs[ps[i]].url) != cs[ps[i]].url)
  {
    SameNumber(cs, Min(limit, 20), start, Showable(excluded), Showing(exact, display));
    RecordsShowTheChosen(cs, Min(limit, 20), start, Showable(excluded), Showing(exact, display), i);
  }

  lemma SnippetAlone(c: Result, limit: int, exact: bool, start: nat, excluded: set<string>, display: Display)
    requires !Blank(c) && c.url !in excluded && limit > 0
    ensures Snippets([c], limit, exact, start, excluded, display) == [RecordOf(c, 1, start, exact, display)]
  {
    var wanted, show := Showable(excluded), Showing(exact, display);
    assert [c][..0] == [] && Listed([], Min(limit, 20), start, wanted, show) == [];
  }

  lemma UrlsOfOne(r: Record)
    ensures Urls([r]) == {r.url}
  {
    forall u ensures u in Urls([r]) <==> u == r.url {
      if u == r.url { assert r in [r]; }
    }
  }

  /** A redacted URL is shown twice: once for the exact result and once for the expanded one. */
  lemma RedactedUrlIsShownTwice(c: Result, limit: int, expandedLimit: int, display: Display)
    requires !Blank(c) && display.redact(c.url) != c.url && limit > 0 && expandedLimit > 0
    ensures var all := AllSnippets([c], [c], limit, expandedLimit, display);
            |all| == 2 && all[0].url == all[1].url && |ExactSnippets([c], limit, display)| == 1
  {
    var first := RecordOf(c, 1, 1, true, display);
    SnippetAlone(c, Min(10, limit), true, 1, {}, display);
    UrlsOfOne(first);
    SnippetAlone(c, expandedLimit, false, 2, Urls([first]), display);
  }

  /** An expanded record shows a URL that an exact one shows. */
  ghost predicate ShowsTwice(exact: seq<Result>, expanded: seq<Result>, limit: int, expandedLimit: int,
                             display: Display)
  {
    Repeats(AllSnippets(exact, expanded, limit, expandedLimit, display), |ExactSnippets(exact, limit, display)|)
  }

  /** One of the first `n` records shows the URL of a later one. */
  ghost predicate Repeats(records: seq<Record>, n: nat) {
    exists i, j :: 0 <= i < n <= j < |records| && records[i].url == records[j].url
  }

  /** A record whose URL redaction leaves alone shows no excluded URL. */
  lemma UnredactedIsNotExcluded(cs: seq<Result>, limit: int, start: nat, excluded: set<string>, display: Display,
                                i: nat)
    requires forall k :: 0 <= k < |cs| ==> display.redact(cs[k].url) == cs[k].url
    requires i < |Snippets(cs, limit, false, start, excluded, display)|
    ensures Snippets(cs, limit, false, start, excluded, display)[i].url !in excluded
  {
    SnippetsRepeatIffRedacted(cs, limit, false, start, excluded, display, i);
  }

  /** If redaction leaves the URLs of the expanded results alone, none of them is shown again. */
  lemma UnredactedIsShownOnce(exact: seq<Result>, expanded: seq<Result>, limit: int, expandedLimit: int,
                              display: Display)
    requires forall i :: 0 <= i < |expanded| ==> display.redact(expanded[i].url) == expanded[i].url
    ensures !ShowsTwice(exact, expanded, limit, expandedLimit, display)
  {
    var first := ExactSnippets(exact, limit, display);
    var rest := Snippets(expanded, expandedLimit, false, |first| + 1, Urls(first), display);
    forall i | 0 <= i < |first| ensures first[i].url in Urls(first) { assert first[i] in first; }
    forall j | 0 <= j < |rest| ensures rest[j].url !in Urls(first) {
      UnredactedIsNotExcluded(expanded, expandedLimit, |first| + 1, Urls(first), display, j);
    }
    JoinedShowOnce(first, rest);
  }

  lemma JoinedShowOnce(first: seq<Record>, rest: seq<Record>)
    requires forall i :: 0 <= i < |first| ==> first[i].url in Urls(first)
    requires forall j :: 0 <= j < |rest| ==> rest[j].url !in Urls(first)
    ensures !Repeats(first + rest, |first|)
  {
    forall i, j | 0 <= i < |first| <= j < |first + rest| ensures (first + rest)[i].url != (first + rest)[j].url {
      assert (first + rest)[j] == rest[j - |first|];
    }
  }

  lemma ShowableResult(url: string) returns (c: Result)
    ensures c.url == url && !Blank(c)
  {
    c := Result(url, url, "a", "a", "", {}, 0.0, 0.0, None);
    assert TrimEnd("a") == "a" && SkipSpace("a") == "a";
  }

  /** No URL is ever shown both for an exact and for an expanded result exactly when redaction changes no
      URL at all. */
  lemma NothingIsShownTwiceIff(display: Display)
    ensures (forall exact, expanded, limit, expandedLimit ::
               !ShowsTwice(exact, expanded, limit, expandedLimit, display))
            <==> forall url: string :: display.redact(url) == url
  {
    if forall url: string :: display.redact(url) == url {
      forall exact, expanded, limit, expandedLimit ensures !ShowsTwice(exact, expanded, limit, expandedLimit, display) {
        UnredactedIsShownOnce(exact, expanded, limit, expandedLimit, display);
      }
    } else {
      var url: string :| display.redact(url) != url;
      var c := ShowableResult(url);
      RedactedUrlIsShownTwice(c, 10, 10, display);
      assert ShowsTwice([c], [c], 10, 10, display);
    }
  }

  // ---------- Discovery leaves the exact results alone ----------

  /** Everything the expansions found, in the order of the rounds. */
  function Gathered(found: seq<seq<SearchResult>>): seq<SearchResult> {
    if found == [] then [] else Gathered(found[..|found|-1]) + found[|found|-1]
  }

  /** Every round prepares the exact results again together with what has been found so far. */
  method Expand(exactRaw: seq<SearchResult>, found: seq<seq<SearchResult>>, rules: Rules)
    returns (expandedRaw: seq<SearchResult>)
    ensures expandedRaw == Gathered(found)
  {
    expandedRaw := [];
    for i := 0 to |found|
      invariant expandedRaw == Gathered(found[..i])
    {
      assert found[..i+1][..i] == found[..i];
      expandedRaw := expandedRaw + found[i];
      var normalized := PrepareResults(exactRaw + expandedRaw, rules, true);
    }
    assert found[..|found|] == found;
  }

  /** The values of the exact candidates, which are prepared first, of all candidates, and of the expanded
      ones, which are prepared from `foundRaw`, all that the expansions found. */
  method DiscoverCandidates(exactRaw: seq<SearchResult>, found: seq<seq<SearchResult>>,
                            ghost foundRaw: seq<SearchResult>,
                            official: seq<SearchResult>, rules: Rules)
    returns (exact: seq<Result>, candidates: seq<Result>, expanded: seq<Result>)
    requires foundRaw == Gathered(found)
    ensures exact == PreparedExact(old(Views(exactRaw)), rules)
    ensures candidates == PreparedByScore(old(Views(exactRaw + foundRaw + official)), rules)
    ensures expanded == PreparedByScore(old(Views(foundRaw)), rules)
  {
    var exactCandidates := PrepareResults(exactRaw, rules, false);
    ghost var prepared := Views(exactCandidates);
    ghost var all, values := exactRaw + foundRaw + official, old(Views(exactRaw + foundRaw + official));
    var expandedRaw := Expand(exactRaw, found, rules);
    assert Views(all) == values && Views(foundRaw) == old(Views(foundRaw));
    candidates, expanded := PrepareAll(exactRaw + expandedRaw + official, expandedRaw, rules);
    assert Views(exactCandidates) == prepared;
    exact := ViewsOf(exactCandidates);
  }

  method PrepareAll(all: seq<SearchResult>, some: seq<SearchResult>, rules: Rules)
    returns (candidates: seq<Result>, expanded: seq<Result>)
    ensures candidates == PreparedByScore(old(Views(all)), rules)
    ensures expanded == PreparedByScore(old(Views(some)), rules)
  {
    ghost var values := Views(some);
    candidates := PreparedValues(all, rules);
    assert Views(some) == values;
    expanded := PreparedValues(some, rules);
  }

  method PreparedValues(rs: seq<SearchResult>, rules: Rules) returns (values: seq<Result>)
    ensures values == PreparedByScore(Views(rs), rules)
  {
    var prepared := PrepareResults(rs, rules, true);
    values := ViewsOf(prepared);
  }

  /** Nothing that existed before changes, and the exact snippets are those of the exact results alone,
      whatever the expansions found. */
  method Discover(exactRaw: seq<SearchResult>, found: seq<seq<SearchResult>>, ghost foundRaw: seq<SearchResult>,
                  official: seq<SearchResult>, rules: Rules, display: Display, limit: int, expandedLimit: int)
    returns (candidates: seq<Result>, snippets: seq<Record>)
    requires foundRaw == Gathered(found)
    ensures Views(exactRaw) == old(Views(exactRaw))
    ensures candidates == PreparedByScore(old(Views(exactRaw + foundRaw + official)), rules)
    ensures snippets == AllSnippets(PreparedExact(old(Views(exactRaw)), rules),
            PreparedByScore(old(Views(foundRaw)), rules),
                                    limit, expandedLimit, display)
    ensures ExactSnippets(PreparedExact(old(Views(exactRaw)), rules), limit, display) <= snippets
    ensures forall i :: 0 <= i < |snippets| ==> snippets[i].number == i + 1
  {
    var exact, all, expanded := DiscoverCandidates(exactRaw, found, foundRaw, official, rules);
    candidates := all;
    snippets := BuildAll(exact, expanded, limit, expandedLimit, display);
  }

  method BuildAll(exact: seq<Result>, expanded: seq<Result>, limit: int, expandedLimit: int, display: Display)
    returns (snippets: seq<Record>)
    ensures snippets == AllSnippets(exact, expanded, limit, expandedLimit, display)
    ensures var first := ExactSnippets(exact, limit, display);
            && first <= snippets
            && (forall i :: 0 <= i < |snippets| ==> snippets[i].number == i + 1 && (snippets[i].exact <==> i < |first|))
  {
    var first := BuildSnippets(exact, Min(10, limit), true, 1, {}, display);
    var rest := BuildSnippets(expanded, expandedLimit, false, |first| + 1, Urls(first), display);
    NumbersAreConsecutive(exact, expanded, limit, expandedLimit, display);
    snippets := first + rest;
  }

  method ViewsOf(rs: seq<SearchResult>) returns (vs: seq<Result>)
    ensures vs == Views(rs)
  {
    vs := [];
    for i := 0 to |rs|
      invariant vs == Views(rs)[..i]
    {
      vs := vs + [rs[i].View()];
    }
  }
}
