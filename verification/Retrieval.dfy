/** Fetching pages under an attempt cap: batches of candidates, their outcomes, and when to stop.

    What each attempt yields, whether the deadline has passed after an attempt, and how well a candidate
    matches a facet are given; every statement holds for all of them. */
module Retrieval {
  import opened Wrappers
  import opened Clipping
  import opened Maxima
  import opened TermCoverage
  import opened Candidates

  datatype Passage = Passage(meaningful: set<string>, risky: bool)

  datatype Page = Page(hash: string, relevance: real, passages: seq<Passage>)

  /** A retained source, numbered by the attempt that found it. */
  datatype Source = Source(index: nat, page: Page)

  datatype Outcome = Late | Raised(error: string) | Fetched(page: Page)

  datatype Failure = Failure(stage: string, url: string, error: string)

  datatype World = World(outcome: nat -> Outcome, late: nat -> bool, score: (Facet, Candidate) -> real)

  /** `order` lists the keys attempted so far; `attempts` is their number and `attempted` their set. */
  datatype State = State(attempts: nat, attempted: set<string>, order: seq<string>,
                         retained: seq<Source>, hashes: set<string>, failures: seq<Failure>)

  function Start(failures: seq<Failure>): State {
    State(0, {}, [], [], {}, failures)
  }

  // ---------- One batch ----------

  function Absorb(s: State, c: Candidate, index: nat, outcome: Outcome): State {
    match outcome
    case Late => s.(failures := s.failures + [Failure("fetch_or_extract", c.url, "ResearchDeadlineExceeded")])
    case Raised(error) => s.(failures := s.failures + [Failure("fetch_or_extract", c.url, error)])
    case Fetched(page) =>
      if page.hash in s.hashes then s.(failures := s.failures + [Failure("deduplication", c.url, "duplicate_content")])
      else s.(hashes := s.hashes + {page.hash}, retained := s.retained + [Source(index, page)])
  }

  function AbsorbAll(s: State, batch: seq<Candidate>, first: nat, world: World): State {
    if batch == [] then s
    else
      var n := |batch| - 1;
      Absorb(AbsorbAll(s, batch[..n], first, world), batch[n], first + n, world.outcome(first + n))
  }

  function Launch(s: State, batch: seq<Candidate>): State {
    s.(attempts := s.attempts + |batch|, attempted := s.attempted + KeySet(batch), order := s.order + Keys(batch))
  }

  function RunBatch(s: State, batch: seq<Candidate>, world: World): State {
    AbsorbAll(Launch(s, batch), batch, s.attempts + 1, world)
  }

  function Unattempted(cs: seq<Candidate>, attempted: set<string>): (r: seq<Candidate>)
    ensures forall c :: c in r <==> c in cs && c.key !in attempted
  {
    if cs == [] then []
    else (if cs[0].key in attempted then [] else [cs[0]]) + Unattempted(cs[1..], attempted)
  }

  /** The next candidates: as many as wanted, at least one, at most as many as there are slots. */
  function NextBatch(cs: seq<Candidate>, attempted: set<string>, slots: int, wanted: int): seq<Candidate> {
    TakeUpTo(Unattempted(cs, attempted), Min(slots, Max(1, wanted)))
  }

  lemma {:induction false} AbsorbingKeepsAttempts(s: State, batch: seq<Candidate>, first: nat, world: World)
    ensures var t := AbsorbAll(s, batch, first, world);
            t.attempts == s.attempts && t.attempted == s.attempted && t.order == s.order
  {
    if batch != [] { AbsorbingKeepsAttempts(s, batch[..|batch|-1], first, world); }
  }

  lemma RunningCountsAttempts(s: State, batch: seq<Candidate>, world: World)
    ensures var t := RunBatch(s, batch, world);
            && t.attempts == s.attempts + |batch|
            && t.attempted == s.attempted + KeySet(batch)
            && t.order == s.order + Keys(batch)
  {
    AbsorbingKeepsAttempts(Launch(s, batch), batch, s.attempts + 1, world);
  }

  // ---------- One query: fetch until enough sources are useful ----------

  const USEFUL := 0.18

  function Useful(retained: seq<Source>): (r: nat)
    ensures r <= |retained|
  {
    if retained == [] then 0
    else
      var last := retained[|retained|-1].page;
      Useful(retained[..|retained|-1]) + if last.passages != [] && last.relevance >= USEFUL then 1 else 0
  }

  function Target(hard: nat): nat {
    Min(hard, Max(3, Min(8, (hard * 3 + 4) / 5)))
  }

  function OrdinaryBatch(s: State, cs: seq<Candidate>, hard: nat): seq<Candidate> {
    NextBatch(cs, s.attempted, hard - s.attempts, Target(hard) - Useful(s.retained))
  }

  function Ordinary(s: State, cs: seq<Candidate>, hard: nat, world: World): State
    decreases hard - s.attempts
  {
    var batch := OrdinaryBatch(s, cs, hard);
    if s.attempts >= hard || Useful(s.retained) >= Target(hard) || batch == [] then s
    else
      var t := RunBatch(s, batch, world);
      RunningCountsAttempts(s, batch, world);
      if world.late(t.attempts) then t else Ordinary(t, cs, hard, world)
  }

  // ---------- Several facets: fetch for the missing ones first ----------

  predicate Answers(p: Passage, f: Facet) {
    !p.risky && Mentioned(f.terms, p.meaningful) >= Required(f.terms)
  }

  predicate Answered(f: Facet, retained: seq<Source>) {
    exists i, j :: 0 <= i < |retained| && 0 <= j < |retained[i].page.passages|
      && Answers(retained[i].page.passages[j], f)
  }

  function Missing(facets: seq<Facet>, retained: seq<Source>): (r: seq<Facet>)
    ensures forall f :: f in r <==> f in facets && !Answered(f, retained)
  {
    if facets == [] then []
    else (if Answered(facets[0], retained) then [] else [facets[0]]) + Missing(facets[1..], retained)
  }

  function FacetKeys(cs: seq<Candidate>, f: Facet, taken: set<string>, overlap: nat,
                     world: World): (r: seq<Option<Key>>)
    ensures |r| == |cs|
  {
    seq(|cs|, i requires 0 <= i < |cs| =>
      if cs[i].key !in taken && |f.terms * cs[i].terms| >= overlap
      then Some((world.score(f, cs[i]), cs[i].preliminary)) else None)
  }

  /** The preferred candidate, or the best that shares two of the facet's terms, or else one. */
  function NextFor(cs: seq<Candidate>, f: Facet, taken: set<string>, preferred: map<string, Candidate>, world: World)
    : (r: Option<Candidate>)
    ensures r.Some? ==> r.value.key !in taken
  {
    if f.query in preferred && preferred[f.query].key !in taken then Some(preferred[f.query])
    else
      var two := ArgMax(FacetKeys(cs, f, taken, Min(2, |f.terms|), world));
      if two.Some? then Some(cs[two.value])
      else
        var one := ArgMax(FacetKeys(cs, f, taken, 1, world));
        if one.Some? then Some(cs[one.value]) else None
  }

  function FacetBatch(s: State, cs: seq<Candidate>, missing: seq<Facet>, slots: nat,
                      preferred: map<string, Candidate>, world: World)
    : (r: seq<Candidate>)
    ensures |r| <= slots
  {
    if missing == [] then []
    else
      var batch := FacetBatch(s, cs, missing[..|missing|-1], slots, preferred, world);
      if |batch| >= slots then batch
      else
        var next := NextFor(cs, missing[|missing|-1], s.attempted + KeySet(batch), preferred, world);
        if next.Some? then batch + [next.value] else batch
  }

  /** Candidates for the missing facets, or any when none is missing. */
  function Planned(s: State, cs: seq<Candidate>, missing: seq<Facet>, slots: nat, preferred: map<string, Candidate>,
                   world: World)
    : (r: seq<Candidate>)
    ensures |r| <= slots
  {
    if missing != [] then FacetBatch(s, cs, missing, slots, preferred, world)
    else TakeUpTo(Unattempted(cs, s.attempted), slots)
  }

  function CompoundBatch(s: State, cs: seq<Candidate>, facets: seq<Facet>, hard: nat,
                         preferred: map<string, Candidate>, world: World)
    : (r: seq<Candidate>)
    requires s.attempts <= hard
    ensures |r| <= hard - s.attempts
  {
    var missing, slots := Missing(facets, s.retained), hard - s.attempts;
    var batch := Planned(s, cs, missing, slots, preferred, world);
    if batch != [] then batch else NextBatch(cs, s.attempted, slots, |missing|)
  }

  function Compound(s: State, cs: seq<Candidate>, facets: seq<Facet>, hard: nat, preferred: map<string, Candidate>,
                    world: World): State
    decreases hard - s.attempts
  {
    if s.attempts >= hard then s
    else
      var batch := CompoundBatch(s, cs, facets, hard, preferred, world);
      if batch == [] then s
      else
        var t := RunBatch(s, batch, world);
        RunningCountsAttempts(s, batch, world);
        if world.late(t.attempts) then t else Compound(t, cs, facets, hard, preferred, world)
  }

  // ---------- The whole retrieval ----------

  function HardLimit(cs: seq<Candidate>, limit: Option<int>): nat {
    Max(0, Min(|cs|, if limit.Some? then limit.value else |cs|))
  }

  function Retrieved(cs: seq<Candidate>, facets: seq<Facet>, limit: Option<int>, preferred: map<string, Candidate>,
                     failures: seq<Failure>, world: World): State
  {
    var hard := HardLimit(cs, limit);
    if hard == 0 then Start(failures)
    else if |facets| <= 1 then Ordinary(Start(failures), cs, hard, world)
    else Compound(Start(failures), cs, facets, hard, preferred, world)
  }
}
