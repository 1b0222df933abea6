/** The search rounds as they run, sharing one fallback budget object. */
module SearchLoop {
  import opened SearchBudget

  class FallbackBudget {
    var remaining: nat
    var used: nat

    constructor (remaining: nat)
      ensures this.remaining == remaining && used == 0
    {
      this.remaining, used := remaining, 0;
    }

    method Claim() returns (granted: bool)
      modifies this
      ensures granted == (old(remaining) > 0)
      ensures remaining == old(remaining) - (if granted then 1 else 0) && used == old(used) + (if granted then 1 else 0)
    {
      if remaining == 0 { return false; }
      remaining, used := remaining - 1, used + 1;
      granted := true;
    }
  }

  class SearchRun {
    const world: World
    const budget: FallbackBudget
    var queriesUsed: nat
    var weakRounds: nat
    ghost var issued: seq<Search>

    constructor (p: Plan, world: World)
      ensures View() == Start(p) && this.world == world && fresh(budget)
    {
      this.world := world;
      budget := new FallbackBudget(p.reserved);
      queriesUsed, weakRounds := |p.exact|, 0;
      issued := if p.cachedExact then [] else AsExact(p.exact);
    }

    ghost function View(): State
      reads this, budget
    {
      State(issued, queriesUsed, budget.remaining, budget.used, weakRounds)
    }

    /** After the searches of a round: the first empty one that has a different fallback may claim it. */
    method TryFallback(queries: seq<string>, round: nat)
      modifies this`issued, budget
      ensures View() == Claimed(old(View()), FallbackFor(queries, round, 0, world))
    {
      var i := 0;
      while i < |queries|
        invariant 0 <= i <= |queries|
        invariant FallbackFor(queries, round, i, world) == FallbackFor(queries, round, 0, world)
        invariant View() == old(View())
      {
        var fallback := world.fallback(queries[i]);
        if world.empty(round, i) && world.fold(fallback) != world.fold(queries[i]) {
          var granted := budget.Claim();
          if granted { issued := issued + [Fallback(fallback)]; }
          return;
        }
        i := i + 1;
      }
    }

    method SearchRound(queries: seq<string>, round: nat)
      modifies this, budget
      ensures View() == Searched(old(View()), queries, round, world)
    {
      queriesUsed := queriesUsed + |queries|;
      issued := issued + AsExpansions(queries);
      TryFallback(queries, round);
      weakRounds := if world.useful(round) then 0 else weakRounds + 1;
    }

    method Expand(p: Plan)
      modifies this, budget
      ensures View() == Rounds(p, old(View()), 0, world)
    {
      var round := 0;
      while round < p.rounds
        invariant Rounds(p, View(), round, world) == Rounds(p, old(View()), 0, world)
        decreases p.rounds - round
      {
        var queries := Slice(p, round);
        if queries == [] { return; }
        SearchRound(queries, round);
        var more := round + 1 < p.rounds && queriesUsed + budget.used < p.limit;
        if weakRounds >= 2 { return; }
        if p.mode.Deep? && more && (round == 0 || !world.strong(round)) {
          round := round + 1;
          continue;
        }
        if p.mode.Standard? && world.weak(round) && more {
          round := round + 1;
          continue;
        }
        if !more || !world.weak(round) { return; }
        round := round + 1;
      }
    }
  }

  /** A whole request. The number returned is the one recorded in the research log. */
  method SearchWeb(q: Request, world: World) returns (recorded: nat, ghost issued: seq<Search>)
    requires q.budgetQueries >= 1
    ensures recorded == Recorded(Run(q, world)) && issued == Run(q, world).issued
    ensures |issued| <= recorded <= q.budgetQueries
  {
    var p := PlanOf(q, world);
    var run := new SearchRun(p, world);
    run.Expand(p);
    SearchesStayWithinTheLimit(q, world);
    recorded, issued := run.queriesUsed + run.budget.used, run.issued;
  }
}
