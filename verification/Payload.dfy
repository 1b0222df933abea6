/** The compact research response as data, and the small list functions its trimming needs. */
module Payload {
  import opened Wrappers
  import opened Clipping

  datatype Evidence = Evidence(citation: string, sourceId: string, text: string, heading: Option<string>)

  datatype Snippet = Snippet(citation: string, exact: bool, title: string, url: string, text: Option<string>)

  datatype Source = Source(sourceId: string, title: string, url: string, publishedAt: Option<string>,
    sourceType: Option<string>)

  datatype Contradiction = Contradiction(topic: string, evidenceIds: seq<string>, description: string, severity: string)

  datatype Failure = Failure(stage: string, error: string, count: nat)

  /** The parts of the response that trimming never touches. */
  datatype Frame = Frame(score: string, status: string, primarySource: bool, independentSources: nat,
                         privacy: seq<(string, string)>, contextBudget: nat)

  datatype Response = Response(
    frame: Frame,
    covered: seq<string>,
    missing: seq<string>,
    sources: seq<Source>,
    evidence: seq<Evidence>,
    snippets: seq<Snippet>,
    contradictions: seq<Contradiction>,
    unresolved: seq<string>,
    warnings: seq<string>,
    failures: seq<Failure>,
    query: Option<string>,
    omittedEvidence: nat,
    omittedSnippets: nat,
    textCompacted: bool,
    budgetExceeded: bool,
    serializedChars: Option<nat>)

  /** A source as the pipeline retrieved it. */
  datatype SourceRecord = SourceRecord(sourceId: string, title: string, url: string, publishedAt: Option<string>,
    sourceType: string)

  type Catalogue = map<string, SourceRecord>

  function OrEmpty(s: Option<string>): string {
    if s.Some? then s.value else ""
  }

  // ---------- Sources follow the evidence ----------

  /** Each id once, in the order of first use. */
  function FirstUse(ids: seq<string>): (r: seq<string>)
    ensures forall x :: x in r <==> x in ids
  {
    if ids == [] then []
    else
      var before := FirstUse(ids[..|ids|-1]);
      var last := ids[|ids|-1];
      assert ids == ids[..|ids|-1] + [last];
      if last in before then before else before + [last]
  }

  /** No id is listed twice. */
  lemma {:induction false} FirstUseRepeatsNothing(ids: seq<string>, i: nat, j: nat)
    requires i < |FirstUse(ids)| && j < |FirstUse(ids)| && FirstUse(ids)[i] == FirstUse(ids)[j]
    ensures i == j
  {
    if ids != [] && i < |FirstUse(ids[..|ids|-1])| && j < |FirstUse(ids[..|ids|-1])| {
      FirstUseRepeatsNothing(ids[..|ids|-1], i, j);
    }
  }

  function SourceIds(evidence: seq<Evidence>): seq<string> {
    seq(|evidence|, i requires 0 <= i < |evidence| => evidence[i].sourceId)
  }

  function CompactSource(s: SourceRecord): Source {
    Source(s.sourceId, ClipText(s.title, 180), s.url, s.publishedAt,
           if s.sourceType == "" then None else Some(s.sourceType))
  }

  function CompactKnown(catalogue: Catalogue, ids: seq<string>): seq<Source> {
    if ids == [] then []
    else
      (if ids[0] in catalogue then [CompactSource(catalogue[ids[0]])] else []) + CompactKnown(catalogue, ids[1..])
  }

  function CompactSources(catalogue: Catalogue, evidence: seq<Evidence>): seq<Source> {
    CompactKnown(catalogue, FirstUse(SourceIds(evidence)))
  }

  // ---------- Sums and longest items ----------

  function Sum(xs: seq<nat>): nat {
    if xs == [] then 0 else xs[0] + Sum(xs[1..])
  }

  lemma {:induction false} SumOfUpdate(xs: seq<nat>, i: nat, x: nat)
    requires i < |xs|
    ensures Sum(xs[i := x]) == Sum(xs) - xs[i] + x
  {
    if i > 0 {
      SumOfUpdate(xs[1..], i - 1, x);
      assert xs[i := x][1..] == xs[1..][i - 1 := x];
    } else {
      assert xs[0 := x][1..] == xs[1..];
    }
  }

  function Without<T>(xs: seq<T>, i: nat): seq<T>
    requires i < |xs|
  {
    xs[..i] + xs[i+1..]
  }

  lemma {:induction false} SumWithout(xs: seq<nat>, i: nat)
    requires i < |xs|
    ensures Sum(Without(xs, i)) == Sum(xs) - xs[i]
  {
    if i > 0 {
      SumWithout(xs[1..], i - 1);
      assert Without(xs, i)[1..] == Without(xs[1..], i - 1);
    } else {
      assert Without(xs, 0) == xs[1..];
    }
  }

  /** The first of the longest items, if it is longer than the floor. */
  function Longest(lengths: seq<nat>, floor: nat): (r: Option<nat>)
    ensures r.None? <==> forall j :: 0 <= j < |lengths| ==> lengths[j] <= floor
    ensures r.Some? ==>
              && r.value < |lengths| && lengths[r.value] > floor
              && (forall j :: 0 <= j < |lengths| ==> lengths[j] <= lengths[r.value])
              && (forall j :: 0 <= j < r.value ==> lengths[j] < lengths[r.value])
  {
    if lengths == [] then None
    else
      var n := |lengths| - 1;
      match Longest(lengths[..n], floor)
      case None => if lengths[n] > floor then Some(n) else None
      case Some(i) => if lengths[n] > lengths[i] then Some(n) else Some(i)
  }
}
