/** How many searches one research request may issue: exact queries, expansion rounds and the shared
    fallback, all under one limit.

    What the searches find, and case folding, are given. */
module SearchBudget {
  import opened Wrappers
  import opened Clipping

  datatype Mode = Quick | Standard | Deep

  /** `detected` are the questions found in the query; with more than one the request is compound.
      `planned(n)` are the planned queries for a limit of `n`, `gaps(r)` those added for round `r`.
      With `cachedExact` the exact results are supplied by the caller. */
  datatype Request = Request(mode: Mode, query: string, detected: seq<string>, planned: int -> seq<string>,
                             gaps: nat -> seq<string>, maxSources: int, roundsOverride: Option<int>, cachedExact: bool,
                             budgetQueries: nat, budgetRounds: int)

  /** `empty(r, i)`: search `i` of round `r` found nothing. `useful`, `weak` and `strong` judge a round. */
  datatype World = World(fold: string -> string, fallback: string -> string, empty: (nat, nat) -> bool,
                         useful: nat -> bool, weak: nat -> bool, strong: nat -> bool)

  datatype Search = Exact(query: string) | Expansion(query: string) | Fallback(query: string)

  // ---------- Planning ----------

  function ModeLimit(q: Request): int {
    if q.mode.Deep? then Min(q.budgetQueries, Max(3, q.maxSources * 2)) else q.budgetQueries
  }

  predicate Compound(q: Request) {
    |q.detected| > 1
  }

  function Focused(q: Request): seq<string> {
    q.detected[..Min(|q.detected|, Max(0, Min(6, ModeLimit(q))))]
  }

  function QueryLimit(q: Request): int {
    if Compound(q) then Min(ModeLimit(q), Max(|Focused(q)|, |Focused(q)| * 2)) else ModeLimit(q)
  }

  function ExactQueries(q: Request): seq<string> {
    if Compound(q) then Focused(q) else [q.query]
  }

  function RoundLimit(q: Request): int {
    if Compound(q) then 1
    else
      var overridden := q.roundsOverride.Some? && q.roundsOverride.value != 0;
      var wanted := if overridden then q.roundsOverride.value else q.budgetRounds;
      Min(q.budgetRounds, Min(wanted, Max(1, (QueryLimit(q) + 1) / 2)))
  }

  function Reserved(q: Request): nat {
    if QueryLimit(q) > |ExactQueries(q)| + 1 then 1 else 0
  }

  /** White space compacted; empty queries and repetitions up to case dropped. */
  function UniqueQueries(queries: seq<string>, fold: string -> string): (r: seq<string>)
    ensures forall i, j :: 0 <= i < j < |r| ==> fold(r[i]) != fold(r[j])
    ensures forall i :: 0 <= i < |r| ==> r[i] != ""
  {
    if queries == [] then []
    else
      var before := UniqueQueries(queries[..|queries|-1], fold);
      var compact := Normalise(queries[|queries|-1]);
      if compact == "" || (exists i :: 0 <= i < |before| && fold(before[i]) == fold(compact)) then before
      else before + [compact]
  }

  /** The queries kept are compacted queries of the list, in its order. */
  lemma {:induction false} UniqueQueriesComeInOrder(queries: seq<string>, fold: string -> string) returns (ps: seq<nat>)
    ensures |ps| == |UniqueQueries(queries, fold)|
    ensures forall i :: 0 <= i < |ps| ==>
              ps[i] < |queries| && UniqueQueries(queries, fold)[i] == Normalise(queries[ps[i]])
    ensures forall i, j :: 0 <= i < j < |ps| ==> ps[i] < ps[j]
  {
    if queries == [] {
      ps := [];
    } else {
      var n := |queries| - 1;
      ps := UniqueQueriesComeInOrder(queries[..n], fold);
      if |UniqueQueries(queries, fold)| > |ps| { ps := ps + [n]; }
    }
  }

  /** A query is dropped only when it is empty or, up to case, like one that is kept. */
  lemma {:induction false} EveryQueryIsKept(queries: seq<string>, fold: string -> string, k: nat)
    requires k < |queries| && Normalise(queries[k]) != ""
    ensures IsKept(queries[k], UniqueQueries(queries, fold), fold)
  {
    var n := |queries| - 1;
    var before, all := UniqueQueries(queries[..n], fold), UniqueQueries(queries, fold);
    assert before <= all;
    if k < n {
      EveryQueryIsKept(queries[..n], fold, k);
      var i :| 0 <= i < |before| && fold(before[i]) == fold(Normalise(queries[k]));
      assert all[i] == before[i];
    } else if all != before {
      assert all[|before|] == Normalise(queries[n]);
    }
  }

  /** Up to case, the query is among these. */
  ghost predicate IsKept(query: string, kept: seq<string>, fold: string -> string) {
    exists i :: 0 <= i < |kept| && fold(kept[i]) == fold(Normalise(query))
  }

  function NotExact(queries: seq<string>, exact: seq<string>, fold: string -> string): seq<string> {
    if queries == [] then []
    else
      (if exists i :: 0 <= i < |exact| && fold(exact[i]) == fold(queries[0]) then [] else [queries[0]])
      + NotExact(queries[1..], exact, fold)
  }

  /** The gap queries of rounds 1 up to `rounds`, exclusively. */
  function Gaps(q: Request, rounds: int): seq<string> {
    if rounds <= 1 then [] else Gaps(q, rounds - 1) + q.gaps(rounds - 1)
  }

  function Expansions(q: Request, world: World): (r: seq<string>)
    ensures |r| <= Max(0, QueryLimit(q) - |ExactQueries(q)| - Reserved(q))
    ensures forall i, j :: 0 <= i < j < |r| ==> world.fold(r[i]) != world.fold(r[j])
  {
    var planned := NotExact(q.planned(QueryLimit(q)), ExactQueries(q), world.fold);
    var unique := UniqueQueries(planned + Gaps(q, RoundLimit(q)), world.fold);
    unique[..Min(|unique|, Max(0, QueryLimit(q) - |ExactQueries(q)| - Reserved(q)))]
  }

  /** The expansions are queries of the plan, then of the gaps, in order. */
  lemma ExpansionsComeInOrder(q: Request, world: World) returns (ps: seq<nat>)
    ensures var sources := NotExact(q.planned(QueryLimit(q)), ExactQueries(q), world.fold) + Gaps(q, RoundLimit(q));
            && |ps| == |Expansions(q, world)|
            && (forall i :: 0 <= i < |ps| ==> ps[i] < |sources| && Expansions(q, world)[i] == Normalise(sources[ps[i]]))
            && (forall i, j :: 0 <= i < j < |ps| ==> ps[i] < ps[j])
  {
    var sources := NotExact(q.planned(QueryLimit(q)), ExactQueries(q), world.fold) + Gaps(q, RoundLimit(q));
    ps := UniqueQueriesComeInOrder(sources, world.fold);
    ps := ps[..|Expansions(q, world)|];
  }

  /** What is decided before the first round. */
  datatype Plan = Plan(mode: Mode, exact: seq<string>, cachedExact: bool, limit: int, reserved: nat,
                       expansions: seq<string>, perRound: nat, rounds: int)

  function PlanOf(q: Request, world: World): Plan {
    var expansions := Expansions(q, world);
    Plan(q.mode, ExactQueries(q), q.cachedExact, QueryLimit(q), Reserved(q), expansions,
         if Compound(q) then |expansions| else Min(2, |expansions|), RoundLimit(q))
  }

  function Slice(p: Plan, round: nat): (r: seq<string>)
    ensures |r| <= p.perRound
  {
    var start := round * p.perRound;
    if start >= |p.expansions| then [] else p.expansions[start..Min(|p.expansions|, start + p.perRound)]
  }

  // ---------- Running ----------

  /** `issued` lists the searches; `used` counts exact and expansion queries, `spent` the fallbacks. */
  datatype State = State(issued: seq<Search>, used: nat, remaining: nat, spent: nat, weakRounds: nat)

  function AsExpansions(queries: seq<string>): (r: seq<Search>)
    ensures |r| == |queries| && forall i :: 0 <= i < |r| ==> r[i] == Expansion(queries[i])
  {
    seq(|queries|, i requires 0 <= i < |queries| => Expansion(queries[i]))
  }

  function AsExact(queries: seq<string>): (r: seq<Search>)
    ensures |r| == |queries| && forall i :: 0 <= i < |r| ==> r[i] == Exact(queries[i])
  {
    seq(|queries|, i requires 0 <= i < |queries| => Exact(queries[i]))
  }

  function Start(p: Plan): State {
    State(if p.cachedExact then [] else AsExact(p.exact), |p.exact|, p.reserved, 0, 0)
  }

  /** The first empty search from position `i` on whose fallback differs from it. */
  function FallbackFor(queries: seq<string>, round: nat, i: nat, world: World): (r: Option<string>)
    decreases |queries| - i
  {
    if i >= |queries| then None
    else if world.empty(round, i) && world.fold(world.fallback(queries[i])) != world.fold(queries[i])
    then Some(world.fallback(queries[i]))
    else FallbackFor(queries, round, i + 1, world)
  }

  /** One claim at most, and only while the reserve lasts. */
  function Claimed(s: State, fallback: Option<string>): State {
    if fallback.Some? && s.remaining > 0
    then s.(issued := s.issued + [Fallback(fallback.value)], remaining := s.remaining - 1, spent := s.spent + 1)
    else s
  }

  function Searched(s: State, queries: seq<string>, round: nat, world: World): State {
    var issued := s.(issued := s.issued + AsExpansions(queries), used := s.used + |queries|);
    var claimed := Claimed(issued, FallbackFor(queries, round, 0, world));
    claimed.(weakRounds := if world.useful(round) then 0 else s.weakRounds + 1)
  }

  /** Whether another round follows this one. */
  predicate Continues(p: Plan, s: State, round: nat, world: World) {
    var more := round + 1 < p.rounds && s.used + s.spent < p.limit;
    s.weakRounds < 2 && more && ((p.mode.Deep? && (round == 0 || !world.strong(round))) || world.weak(round))
  }

  function Rounds(p: Plan, s: State, round: nat, world: World): State
    decreases p.rounds - round
  {
    var queries := Slice(p, round);
    if round >= p.rounds || queries == [] then s
    else
      var t := Searched(s, queries, round, world);
      if Continues(p, t, round, world) then Rounds(p, t, round + 1, world) else t
  }

  function Run(q: Request, world: World): State {
    var p := PlanOf(q, world);
    Rounds(p, Start(p), 0, world)
  }

  /** What the research log records as the number of queries. */
  function Recorded(s: State): nat {
    s.used + s.spent
  }

  // ---------- The limit holds ----------

  function CountFallbacks(issued: seq<Search>): nat {
    if issued == [] then 0 else CountFallbacks(issued[..|issued|-1]) + if issued[|issued|-1].Fallback? then 1 else 0
  }

  function Issued(issued: seq<Search>): seq<string> {
    if issued == [] then []
    else Issued(issued[..|issued|-1]) + if issued[|issued|-1].Expansion? then [issued[|issued|-1].query] else []
  }

  lemma {:induction false} IssuingExpansions(issued: seq<Search>, queries: seq<string>)
    ensures Issued(issued + AsExpansions(queries)) == Issued(issued) + queries
    ensures CountFallbacks(issued + AsExpansions(queries)) == CountFallbacks(issued)
  {
    if queries == [] {
      assert issued + AsExpansions(queries) == issued;
    } else {
      var n := |queries| - 1;
      IssuingExpansions(issued, queries[..n]);
      var all := issued + AsExpansions(queries);
      assert all[..|all|-1] == issued + AsExpansions(queries[..n]);
      assert queries == queries[..n] + [queries[n]];
    }
  }

  lemma {:induction false} ExactIssuesNoExpansion(queries: seq<string>)
    ensures Issued(AsExact(queries)) == [] && CountFallbacks(AsExact(queries)) == 0
  {
    if queries != [] {
      ExactIssuesNoExpansion(queries[..|queries|-1]);
      assert AsExact(queries)[..|queries|-1] == AsExact(queries[..|queries|-1]);
    }
  }

  /** With `done` expansions issued: each once and in order; fallbacks spent and left make up the
      reserve; and the counters add up to the searches. */
  ghost predicate Inv(p: Plan, s: State, done: nat) {
    && done <= |p.expansions| && Issued(s.issued) == p.expansions[..done]
    && CountFallbacks(s.issued) == s.spent && s.spent + s.remaining == p.reserved
    && s.used == |p.exact| + done
    && |s.issued| + (if p.cachedExact then |p.exact| else 0) == s.used + s.spent
  }

  lemma ClaimingKeepsInv(p: Plan, s: State, done: nat, fallback: Option<string>)
    requires Inv(p, s, done)
    ensures Inv(p, Claimed(s, fallback), done)
  {
  }

  lemma SearchingKeepsInv(p: Plan, s: State, done: nat, queries: seq<string>, round: nat, world: World)
    requires Inv(p, s, done) && queries <= p.expansions[done..]
    ensures Inv(p, Searched(s, queries, round, world), done + |queries|)
  {
    IssuingExpansions(s.issued, queries);
    assert p.expansions[..done] + queries == p.expansions[..done + |queries|];
    var issued := s.(issued := s.issued + AsExpansions(queries), used := s.used + |queries|);
    ClaimingKeepsInv(p, issued, done + |queries|, FallbackFor(queries, round, 0, world));
  }

  /** The slices of successive rounds follow each other. */
  lemma SlicesFollow(p: Plan, round: nat)
    requires Slice(p, round) != []
    ensures round * p.perRound <= |p.expansions| && Slice(p, round) <= p.expansions[round * p.perRound..]
    ensures Slice(p, round + 1) != [] ==> round * p.perRound + |Slice(p, round)| == (round + 1) * p.perRound
  {
    assert (round + 1) * p.perRound == round * p.perRound + p.perRound;
  }

  lemma {:induction false} RoundsKeepInv(p: Plan, s: State, round: nat, done: nat, world: World) returns (last: nat)
    requires Inv(p, s, done) && (Slice(p, round) != [] ==> done == round * p.perRound)
    ensures Inv(p, Rounds(p, s, round, world), last)
    decreases p.rounds - round
  {
    last := done;
    var queries := Slice(p, round);
    if round < p.rounds && queries != [] {
      SlicesFollow(p, round);
      SearchingKeepsInv(p, s, done, queries, round, world);
      last := done + |queries|;
      var t := Searched(s, queries, round, world);
      if Continues(p, t, round, world) { last := RoundsKeepInv(p, t, round + 1, last, world); }
    }
  }

  /** In every mode, whatever the searches find: at most `QueryLimit` searches are issued, the log
      records at least as many and exactly as many unless the exact results were supplied; the expansions
      issued are a beginning of the planned ones; and there are at most as many fallbacks as reserved. */
  lemma SearchesStayWithinTheLimit(q: Request, world: World)
    requires q.budgetQueries >= 1
    ensures var s := Run(q, world);
            && |s.issued| <= Recorded(s) <= QueryLimit(q) <= q.budgetQueries
            && (!q.cachedExact ==> |s.issued| == Recorded(s))
            && CountFallbacks(s.issued) <= Reserved(q)
            && Issued(s.issued) <= Expansions(q, world)
  {
    var p := PlanOf(q, world);
    ExactIssuesNoExpansion(p.exact);
    assert p.expansions[..0] == [];
    var last := RoundsKeepInv(p, Start(p), 0, 0, world);
    ExactFits(q);
  }

  lemma ExactFits(q: Request)
    requires q.budgetQueries >= 1
    ensures |ExactQueries(q)| <= QueryLimit(q) <= q.budgetQueries
  {
  }
}
