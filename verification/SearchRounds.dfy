/** Which rounds of searches a request makes, and which search gets the fallback. */
module SearchRounds {
  import opened Wrappers
  import opened SearchBudget

  // ---------- The limits ----------

  /** A number of searches is within the limit when the budget allows it, when in the deep mode it is at most three or
      two per source wanted, and when for several questions it is at most two per question. */
  lemma QueryLimitIff(q: Request, n: int)
    ensures n <= QueryLimit(q) <==>
              && n <= q.budgetQueries
              && (q.mode.Deep? ==> n <= 3 || n <= 2 * q.maxSources)
              && (Compound(q) ==> n <= 2 * |Focused(q)|)
  {
  }

  predicate NamesRounds(q: Request) {
    q.roundsOverride.Some? && q.roundsOverride.value != 0
  }

  /** Several questions are searched in one round. Otherwise the rounds are those of the budget and of the caller, if he
      names a number, and after the first round there is one per two searches. */
  lemma RoundLimitIff(q: Request, n: int)
    ensures Compound(q) ==> RoundLimit(q) == 1
    ensures !Compound(q) ==> (n <= RoundLimit(q) <==>
                                && n <= q.budgetRounds && (n <= 1 || 2 * n <= QueryLimit(q) + 1)
                                && (NamesRounds(q) ==> n <= q.roundsOverride.value))
  {
  }

  /** A fallback is reserved exactly when two more searches fit than the exact ones. */
  lemma ReservedIff(q: Request)
    ensures Reserved(q) == 1 <==> |ExactQueries(q)| + 2 <= QueryLimit(q)
    ensures Reserved(q) <= 1
  {
  }

  /** Planned queries that are exact queries up to case are left out, and only those. */
  lemma {:induction false} NotExactIff(queries: seq<string>, exact: seq<string>, fold: string -> string, query: string)
    ensures query in NotExact(queries, exact, fold)
            <==> query in queries && forall i :: 0 <= i < |exact| ==> fold(exact[i]) != fold(query)
  {
    if queries != [] {
      NotExactIff(queries[1..], exact, fold, query);
      assert query in queries <==> query == queries[0] || query in queries[1..];
    }
  }

  /** The questions searched exactly are the first ones found: at most six, and no more than the limit of the mode. */
  lemma FocusedAreTheFirst(q: Request, n: nat)
    ensures Focused(q) <= q.detected
    ensures n <= |Focused(q)| <==> n <= |q.detected| && (n == 0 || (n <= 6 && n <= ModeLimit(q)))
  {
  }

  /** The expansions are the unique queries of the plan and the gaps, as many as there is room for besides the exact
      queries and the reserved fallback. */
  lemma ExpansionsFillTheRoom(q: Request, world: World)
    ensures var planned := NotExact(q.planned(QueryLimit(q)), ExactQueries(q), world.fold);
            var unique := UniqueQueries(planned + Gaps(q, RoundLimit(q)), world.fold);
            var room := QueryLimit(q) - |ExactQueries(q)| - Reserved(q);
            && Expansions(q, world) <= unique
            && (Expansions(q, world) == unique || |Expansions(q, world)| == if room < 0 then 0 else room)
  {
  }

  /** The gap queries of each round from 1 on follow those of the rounds before it. */
  lemma {:induction false} GapsFollow(q: Request, rounds: int, round: int)
    requires 1 <= round < rounds
    ensures |Gaps(q, round)| + |q.gaps(round)| <= |Gaps(q, rounds)|
    ensures Gaps(q, round) + q.gaps(round) <= Gaps(q, rounds)
    decreases rounds
  {
    if round < rounds - 1 { GapsFollow(q, rounds - 1, round); }
  }

  /** Several questions take all expansions at once; otherwise a round takes two, or what is left. */
  lemma RoundsTakeTwo(q: Request, world: World, round: nat)
    ensures var p := PlanOf(q, world);
            if Compound(q) then Slice(p, 0) == p.expansions
            else if 2 * round + 2 <= |p.expansions| then Slice(p, round) == p.expansions[2 * round..2 * round + 2]
            else if 2 * round < |p.expansions| then Slice(p, round) == p.expansions[2 * round..]
            else Slice(p, round) == []
  {
    var p := PlanOf(q, world);
    if !Compound(q) {
      if |p.expansions| >= 2 {
        assert p.perRound == 2 && round * p.perRound == 2 * round;
      } else {
        SliceOfOne(p, round);
      }
    }
  }

  lemma SliceOfOne(p: Plan, round: nat)
    requires p.perRound == |p.expansions| <= 1
    ensures Slice(p, round) == if round == 0 then p.expansions else []
  {
    assert round * p.perRound == if p.perRound == 0 then 0 else round;
  }

  // ---------- The fallback ----------

  /** A search that found nothing and whose fallback asks something else. */
  predicate WantsFallback(queries: seq<string>, round: nat, i: nat, world: World)
    requires i < |queries|
  {
    world.empty(round, i) && world.fold(world.fallback(queries[i])) != world.fold(queries[i])
  }

  /** The fallback is that of the first search that wants one. */
  lemma {:induction false} FallbackIsForTheFirst(queries: seq<string>, round: nat, i: nat, world: World)
    returns (k: nat)
    requires i <= |queries|
    ensures i <= k <= |queries| && forall j :: i <= j < k ==> !WantsFallback(queries, round, j, world)
    ensures if k < |queries|
            then WantsFallback(queries, round, k, world)
                 && FallbackFor(queries, round, i, world) == Some(world.fallback(queries[k]))
            else FallbackFor(queries, round, i, world) == None
    decreases |queries| - i
  {
    if i == |queries| || WantsFallback(queries, round, i, world) {
      k := i;
    } else {
      k := FallbackIsForTheFirst(queries, round, i + 1, world);
    }
  }

  // ---------- The rounds ----------

  /** The state after `n` rounds. */
  function After(p: Plan, world: World, n: nat): State {
    if n == 0 then Start(p) else Searched(After(p, world, n - 1), Slice(p, n - 1), n - 1, world)
  }

  /** A round issues its queries and at most one fallback, while one is reserved. */
  lemma RoundIssues(p: Plan, world: World, n: nat) returns (k: nat)
    ensures var s, t, queries := After(p, world, n), After(p, world, n + 1), Slice(p, n);
            && k <= |queries| && (forall j :: 0 <= j < k ==> !WantsFallback(queries, n, j, world))
            && (k < |queries| ==> WantsFallback(queries, n, k, world))
            && if k < |queries| && s.remaining > 0
               then t.issued == s.issued + AsExpansions(queries) + [Fallback(world.fallback(queries[k]))]
                    && t.remaining == s.remaining - 1
               else t.issued == s.issued + AsExpansions(queries) && t.remaining == s.remaining
  {
    k := FallbackIsForTheFirst(Slice(p, n), n, 0, world);
  }

  /** Two rounds in a row, up to round `j`, found nothing useful. */
  predicate TwoUseless(world: World, j: nat) {
    j > 0 && !world.useful(j - 1) && !world.useful(j)
  }

  lemma {:induction false} WeakRoundsAreTheLast(p: Plan, world: World, n: nat)
    ensures n > 0 ==> (After(p, world, n).weakRounds == 0 <==> world.useful(n - 1))
    ensures n > 0 ==> (After(p, world, n).weakRounds >= 2 <==> TwoUseless(world, n - 1))
  {
    if n > 0 { WeakRoundsAreTheLast(p, world, n - 1); }
  }

  /** After round `j` another is due: rounds and searches are left, the last two rounds were not both useless, and
      the results are weak, or in the deep mode not yet strong or only from the first round. */
  predicate GoesOn(p: Plan, world: World, j: nat) {
    && j + 1 < p.rounds && Recorded(After(p, world, j + 1)) < p.limit && !TwoUseless(world, j)
    && (world.weak(j) || (p.mode.Deep? && (j == 0 || !world.strong(j))))
  }

  lemma ContinuesIff(p: Plan, world: World, j: nat)
    ensures Continues(p, After(p, world, j + 1), j, world) <==> GoesOn(p, world, j)
  {
    WeakRoundsAreTheLast(p, world, j + 1);
  }

  /** A round is made when there is a query for it and, unless it is the first, it was due after the one before. */
  predicate IsMade(p: Plan, world: World, i: nat) {
    i < p.rounds && Slice(p, i) != [] && (i > 0 ==> GoesOn(p, world, i - 1))
  }

  lemma OneRound(p: Plan, world: World, j: nat)
    requires j < p.rounds && Slice(p, j) != []
    ensures Rounds(p, After(p, world, j), j, world)
            == if GoesOn(p, world, j) then Rounds(p, After(p, world, j + 1), j + 1, world) else After(p, world, j + 1)
  {
    ContinuesIff(p, world, j);
  }

  lemma NoRound(p: Plan, world: World, j: nat)
    requires j >= p.rounds || Slice(p, j) == []
    ensures Rounds(p, After(p, world, j), j, world) == After(p, world, j)
  {
  }

  ghost predicate AreMade(p: Plan, world: World, j: nat, n: nat) {
    forall i :: j <= i < n ==> IsMade(p, world, i)
  }

  lemma OneMoreIsMade(p: Plan, world: World, j: nat, n: nat)
    requires IsMade(p, world, j) && AreMade(p, world, j + 1, n)
    ensures AreMade(p, world, j, n)
  {
    forall i | j <= i < n ensures IsMade(p, world, i) {
      if i > j { assert j + 1 <= i; }
    }
  }

  lemma {:induction false} RoundsFrom(p: Plan, world: World, j: nat, end: State) returns (n: nat)
    requires j > 0 ==> GoesOn(p, world, j - 1)
    requires end == Rounds(p, After(p, world, j), j, world)
    ensures n >= j && end == After(p, world, n) && AreMade(p, world, j, n) && !IsMade(p, world, n)
    decreases p.rounds - j
  {
    n := j;
    if IsMade(p, world, j) {
      OneRound(p, world, j);
      n := j + 1;
      if GoesOn(p, world, j) { n := RoundsFrom(p, world, j + 1, end); }
      OneMoreIsMade(p, world, j, n);
    } else {
      NoRound(p, world, j);
    }
  }

  /** A request makes its rounds one after the other, up to the first that has no query or is not due. */
  lemma RunMakesTheDueRounds(q: Request, world: World) returns (n: nat)
    ensures var p := PlanOf(q, world);
            Run(q, world) == After(p, world, n) && AreMade(p, world, 0, n) && !IsMade(p, world, n)
  {
    n := RoundsFrom(PlanOf(q, world), world, 0, Run(q, world));
  }
}
