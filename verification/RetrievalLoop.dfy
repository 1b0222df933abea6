/** The retrieval as it runs: counters, sets and lists updated batch by batch. */
module RetrievalLoop {
  import opened Wrappers
  import opened Candidates
  import opened Retrieval

  class Retriever {
    const world: World
    var attempts: nat
    var attempted: set<string>
    var retained: seq<Source>
    var seenHashes: set<string>
    var failures: seq<Failure>
    ghost var order: seq<string>

    constructor (failures: seq<Failure>, world: World)
      ensures View() == Start(failures) && this.world == world
    {
      this.world, this.failures := world, failures;
      attempts, attempted, retained, seenHashes, order := 0, {}, [], {}, [];
    }

    ghost function View(): State
      reads this
    {
      State(attempts, attempted, order, retained, seenHashes, failures)
    }

    method LaunchAll(batch: seq<Candidate>)
      modifies this
      ensures View() == Launch(old(View()), batch)
    {
      ghost var start := attempted;
      for i := 0 to |batch|
        invariant attempted == start + KeySet(batch[..i])
        invariant View() == old(View()).(attempted := attempted)
      {
        assert KeySet(batch[..i+1]) == KeySet(batch[..i]) + {batch[i].key};
        attempted := attempted + {batch[i].key};
      }
      assert batch[..|batch|] == batch;
      attempts := attempts + |batch|;
      order := order + Keys(batch);
    }

    method SettleAll(batch: seq<Candidate>, first: nat)
      modifies this
      ensures View() == AbsorbAll(old(View()), batch, first, world)
    {
      for i := 0 to |batch|
        invariant View() == AbsorbAll(old(View()), batch[..i], first, world)
      {
        assert batch[..i+1][..i] == batch[..i];
        Settle(batch[i], first + i);
      }
      assert batch[..|batch|] == batch;
    }

    /** Starts all fetches of the batch at once, then settles their outcomes in batch order. */
    method RetrieveBatch(batch: seq<Candidate>)
      modifies this
      ensures View() == RunBatch(old(View()), batch, world)
    {
      var first := attempts + 1;
      LaunchAll(batch);
      SettleAll(batch, first);
    }

    method Settle(c: Candidate, index: nat)
      modifies this
      ensures View() == Absorb(old(View()), c, index, world.outcome(index))
    {
      match world.outcome(index)
      case Late => failures := failures + [Failure("fetch_or_extract", c.url, "ResearchDeadlineExceeded")];
      case Raised(error) => failures := failures + [Failure("fetch_or_extract", c.url, error)];
      case Fetched(page) =>
        if page.hash in seenHashes {
          failures := failures + [Failure("deduplication", c.url, "duplicate_content")];
          return;
        }
        seenHashes := seenHashes + {page.hash};
        retained := retained + [Source(index, page)];
    }

    method RetrieveOrdinary(cs: seq<Candidate>, hard: nat)
      modifies this
      ensures View() == Ordinary(old(View()), cs, hard, world)
    {
      var target := Target(hard);
      while attempts < hard
        invariant Ordinary(View(), cs, hard, world) == Ordinary(old(View()), cs, hard, world)
        decreases hard - attempts
      {
        ghost var s := View();
        var useful := Useful(retained);
        if useful >= target { return; }
        var batch := NextBatch(cs, attempted, hard - attempts, target - useful);
        assert batch == OrdinaryBatch(s, cs, hard);
        if batch == [] { return; }
        RunningCountsAttempts(s, batch, world);
        RetrieveBatch(batch);
        if world.late(attempts) { return; }
      }
    }

    method PlanFacets(cs: seq<Candidate>, missing: seq<Facet>, slots: nat, preferred: map<string, Candidate>)
      returns (batch: seq<Candidate>)
      ensures batch == FacetBatch(View(), cs, missing, slots, preferred, world)
    {
      batch := [];
      var i := 0;
      while i < |missing| && |batch| < slots
        invariant 0 <= i <= |missing|
        invariant batch == FacetBatch(View(), cs, missing[..i], slots, preferred, world)
      {
        assert missing[..i+1][..i] == missing[..i];
        var next := NextFor(cs, missing[i], attempted + KeySet(batch), preferred, world);
        if next.Some? { batch := batch + [next.value]; }
        i := i + 1;
      }
      if i < |missing| {
        FullBatchStays(View(), cs, missing, slots, preferred, world, i);
      } else {
        assert missing[..i] == missing;
      }
    }

    /** Candidates for the missing facets, or any when none is missing; or else as many as are missing. */
    method PlanBatch(cs: seq<Candidate>, facets: seq<Facet>, hard: nat, preferred: map<string, Candidate>)
      returns (batch: seq<Candidate>)
      requires attempts <= hard
      ensures batch == CompoundBatch(View(), cs, facets, hard, preferred, world)
    {
      var missing, slots := Missing(facets, retained), hard - attempts;
      batch := PlanFirst(cs, missing, slots, preferred);
      if batch == [] { batch := NextBatch(cs, attempted, slots, |missing|); }
    }

    method PlanFirst(cs: seq<Candidate>, missing: seq<Facet>, slots: nat, preferred: map<string, Candidate>)
      returns (batch: seq<Candidate>)
      ensures batch == Planned(View(), cs, missing, slots, preferred, world)
    {
      if missing != [] {
        batch := PlanFacets(cs, missing, slots, preferred);
      } else {
        batch := TakeUpTo(Unattempted(cs, attempted), slots);
      }
    }

    method RetrieveCompound(cs: seq<Candidate>, facets: seq<Facet>, hard: nat, preferred: map<string, Candidate>)
      modifies this
      ensures View() == Compound(old(View()), cs, facets, hard, preferred, world)
    {
      while attempts < hard
        invariant Compound(View(), cs, facets, hard, preferred, world)
                  == Compound(old(View()), cs, facets, hard, preferred, world)
        decreases hard - attempts
      {
        ghost var s := View();
        var batch := PlanBatch(cs, facets, hard, preferred);
        if batch == [] { return; }
        RunningCountsAttempts(s, batch, world);
        RetrieveBatch(batch);
        if world.late(attempts) { return; }
      }
    }
  }

  lemma {:induction false} FullBatchStays(s: State, cs: seq<Candidate>, missing: seq<Facet>, slots: nat,
                                          preferred: map<string, Candidate>, world: World, k: nat)
    requires k <= |missing| && |FacetBatch(s, cs, missing[..k], slots, preferred, world)| >= slots
    ensures FacetBatch(s, cs, missing, slots, preferred, world)
            == FacetBatch(s, cs, missing[..k], slots, preferred, world)
  {
    if k == |missing| {
      assert missing[..k] == missing;
    } else {
      assert missing[..|missing|-1][..k] == missing[..k];
      FullBatchStays(s, cs, missing[..|missing|-1], slots, preferred, world, k);
    }
  }

  method Retrieve(cs: seq<Candidate>, facets: seq<Facet>, limit: Option<int>, preferred: map<string, Candidate>,
                  failures: seq<Failure>, world: World)
    returns (retained: seq<Source>, attempts: nat, allFailures: seq<Failure>)
    ensures var t := Retrieved(cs, facets, limit, preferred, failures, world);
            retained == t.retained && attempts == t.attempts && allFailures == t.failures
  {
    var retriever := new Retriever(failures, world);
    var hard := HardLimit(cs, limit);
    if hard > 0 {
      if |facets| <= 1 {
        retriever.RetrieveOrdinary(cs, hard);
      } else {
        retriever.RetrieveCompound(cs, facets, hard, preferred);
      }
    }
    retained, attempts, allFailures := retriever.retained, retriever.attempts, retriever.failures;
  }
}
