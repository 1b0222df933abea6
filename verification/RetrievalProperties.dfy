/** What every retrieval keeps, whatever its attempts yield, and when it may stop. */
module RetrievalProperties {
  import opened Wrappers
  import opened Clipping
  import opened Maxima
  import opened Candidates
  import opened Retrieval

  // ---------- Conservation, numbering and distinct contents ----------

  ghost predicate Numbered(retained: seq<Source>, attempts: nat) {
    && (forall i :: 0 <= i < |retained| ==> 1 <= retained[i].index <= attempts)
    && (forall i, j :: 0 <= i < j < |retained| ==> retained[i].index < retained[j].index)
  }

  ghost predicate DistinctContents(s: State) {
    && (forall i :: 0 <= i < |s.retained| ==> s.retained[i].page.hash in s.hashes)
    && (forall i, j :: 0 <= i < j < |s.retained| ==> s.retained[i].page.hash != s.retained[j].page.hash)
  }

  /** After `done` of the attempts have been settled, each is a retained source or a recorded failure. */
  ghost predicate Settled(s: State, before: nat, done: nat) {
    |s.retained| + |s.failures| == before + done && Numbered(s.retained, done) && DistinctContents(s)
  }

  ghost predicate Inv(s: State, before: nat, hard: nat) {
    && s.attempts == |s.order| <= hard
    && (forall k :: k in s.attempted <==> k in s.order)
    && Settled(s, before, s.attempts)
  }

  lemma {:induction false} AbsorbingAllSettles(s: State, batch: seq<Candidate>, before: nat, done: nat, world: World)
    requires Settled(s, before, done)
    ensures Settled(AbsorbAll(s, batch, done + 1, world), before, done + |batch|)
  {
    if batch != [] {
      AbsorbingAllSettles(s, batch[..|batch|-1], before, done, world);
    }
  }

  lemma RunningKeepsInv(s: State, batch: seq<Candidate>, before: nat, hard: nat, world: World)
    requires Inv(s, before, hard) && s.attempts + |batch| <= hard
    ensures Inv(RunBatch(s, batch, world), before, hard)
  {
    RunningCountsAttempts(s, batch, world);
    AbsorbingAllSettles(Launch(s, batch), batch, before, s.attempts, world);
    forall k ensures k in s.attempted + KeySet(batch) <==> k in s.order + Keys(batch) {
      KeysAreTheKeySet(batch, k);
    }
  }

  lemma {:induction false} OrdinaryKeepsInv(s: State, cs: seq<Candidate>, hard: nat, world: World, before: nat)
    requires Inv(s, before, hard)
    ensures Inv(Ordinary(s, cs, hard, world), before, hard)
    decreases hard - s.attempts
  {
    var batch := OrdinaryBatch(s, cs, hard);
    if s.attempts < hard && Useful(s.retained) < Target(hard) && batch != [] {
      RunningKeepsInv(s, batch, before, hard, world);
      RunningCountsAttempts(s, batch, world);
      var t := RunBatch(s, batch, world);
      if !world.late(t.attempts) { OrdinaryKeepsInv(t, cs, hard, world, before); }
    }
  }

  lemma {:induction false} CompoundKeepsInv(s: State, cs: seq<Candidate>, facets: seq<Facet>, hard: nat,
                                            preferred: map<string, Candidate>, world: World, before: nat)
    requires Inv(s, before, hard)
    ensures Inv(Compound(s, cs, facets, hard, preferred, world), before, hard)
    decreases hard - s.attempts
  {
    if s.attempts < hard {
      var batch := CompoundBatch(s, cs, facets, hard, preferred, world);
      if batch != [] {
        RunningKeepsInv(s, batch, before, hard, world);
        RunningCountsAttempts(s, batch, world);
        var t := RunBatch(s, batch, world);
        if !world.late(t.attempts) { CompoundKeepsInv(t, cs, facets, hard, preferred, world, before); }
      }
    }
  }

  /** In every retrieval: attempts stay within the cap, each one ends as a retained source or as a
      recorded failure, sources carry distinct increasing attempt numbers and distinct contents. */
  lemma RetrievalKeepsInv(cs: seq<Candidate>, facets: seq<Facet>, limit: Option<int>, preferred: map<string, Candidate>,
                          failures: seq<Failure>, world: World)
    ensures Inv(Retrieved(cs, facets, limit, preferred, failures, world), |failures|, HardLimit(cs, limit))
  {
    var hard := HardLimit(cs, limit);
    if hard > 0 {
      if |facets| <= 1 {
        OrdinaryKeepsInv(Start(failures), cs, hard, world, |failures|);
      } else {
        CompoundKeepsInv(Start(failures), cs, facets, hard, preferred, world, |failures|);
      }
    }
  }

  // ---------- Which candidate a facet gets ----------

  predicate Eligible(c: Candidate, f: Facet, taken: set<string>, overlap: nat) {
    c.key !in taken && |f.terms * c.terms| >= overlap
  }

  /** A facet gets its preferred candidate unless that was attempted. Otherwise some candidate that shares a
      term with the facet is next, if there is one; if any shares two, or the only term, the next one does;
      and none that shares as many as asked for has a greater score. */
  lemma NextForIsBest(cs: seq<Candidate>, f: Facet, taken: set<string>, preferred: map<string, Candidate>,
                      world: World, i: nat)
    requires i < |cs|
    ensures var next, n := NextFor(cs, f, taken, preferred, world), Min(2, |f.terms|);
            if f.query in preferred && preferred[f.query].key !in taken then next == Some(preferred[f.query])
            else
              && (Eligible(cs[i], f, taken, Min(1, n)) ==> next.Some?)
              && (next.Some? ==> next.value in cs && Eligible(next.value, f, taken, Min(1, n)))
              && (Eligible(cs[i], f, taken, n) ==> Eligible(next.value, f, taken, n))
              && (Eligible(cs[i], f, taken, n)
                  || (Eligible(cs[i], f, taken, 1) && !Eligible(next.value, f, taken, n)) ==>
                    !Less((world.score(f, next.value), next.value.preliminary),
                      (world.score(f, cs[i]), cs[i].preliminary)))
  {
    var n := Min(2, |f.terms|);
    var most, one := FacetKeys(cs, f, taken, n, world), FacetKeys(cs, f, taken, 1, world);
    assert most[i].Some? <==> Eligible(cs[i], f, taken, n);
    assert one[i].Some? <==> Eligible(cs[i], f, taken, 1);
  }

  // ---------- What a batch does for the missing facets ----------

  /** The facet's preferred candidate, or one that shares a term with it. */
  ghost predicate Serves(c: Candidate, f: Facet, cs: seq<Candidate>, preferred: map<string, Candidate>) {
    (f.query in preferred && preferred[f.query] == c) || (c in cs && f.terms * c.terms != {})
  }

  /** Every candidate that shares a term with the facet is taken. */
  ghost predicate Exhausted(cs: seq<Candidate>, f: Facet, taken: set<string>) {
    forall c :: c in cs && f.terms * c.terms != {} ==> c.key in taken
  }

  lemma NextForServes(cs: seq<Candidate>, f: Facet, taken: set<string>, preferred: map<string, Candidate>, world: World)
    ensures var next := NextFor(cs, f, taken, preferred, world);
            (next.Some? && Serves(next.value, f, cs, preferred)) || Exhausted(cs, f, taken)
  {
    var next, n := NextFor(cs, f, taken, preferred, world), Min(1, Min(2, |f.terms|));
    forall c | c in cs && f.terms * c.terms != {} && c.key !in taken
      ensures next.Some? && Serves(next.value, f, cs, preferred)
    {
      var i :| 0 <= i < |cs| && cs[i] == c;
      assert f.terms != {};
      NextForIsBest(cs, f, taken, preferred, world, i);
      assert Eligible(c, f, taken, n);
    }
  }

  /** The batch has a candidate for the facet, or every candidate that shares a term with it is taken by then. */
  ghost predicate IsServed(f: Facet, batch: seq<Candidate>, attempted: set<string>, cs: seq<Candidate>,
                           preferred: map<string, Candidate>) {
    (exists c :: c in batch && Serves(c, f, cs, preferred)) || Exhausted(cs, f, attempted + KeySet(batch))
  }

  lemma LaterBatchServesToo(f: Facet, before: seq<Candidate>, batch: seq<Candidate>, attempted: set<string>,
                            cs: seq<Candidate>, preferred: map<string, Candidate>)
    requires before <= batch && IsServed(f, before, attempted, cs, preferred)
    ensures IsServed(f, batch, attempted, cs, preferred)
  {
    assert KeySet(before) <= KeySet(batch);
  }

  lemma LastFacetIsServed(s: State, cs: seq<Candidate>, missing: seq<Facet>, slots: nat,
                          preferred: map<string, Candidate>, world: World, f: Facet)
    requires missing != [] && missing[|missing|-1] == f
    requires |FacetBatch(s, cs, missing, slots, preferred, world)| < slots
    ensures IsServed(f, FacetBatch(s, cs, missing, slots, preferred, world), s.attempted, cs, preferred)
  {
    var before := FacetBatch(s, cs, missing[..|missing|-1], slots, preferred, world);
    var next := NextFor(cs, f, s.attempted + KeySet(before), preferred, world);
    NextForServes(cs, f, s.attempted + KeySet(before), preferred, world);
    if next.Some? { assert next.value in before + [next.value]; }
  }

  lemma BatchesGrow(s: State, cs: seq<Candidate>, missing: seq<Facet>, slots: nat, preferred: map<string, Candidate>,
                    world: World)
    requires missing != []
    ensures FacetBatch(s, cs, missing[..|missing|-1], slots, preferred, world)
            <= FacetBatch(s, cs, missing, slots, preferred, world)
  {
  }

  /** When slots are left over, each missing facet has a candidate in the batch, unless every candidate that
      shares a term with it was attempted before or is in the batch. */
  lemma {:induction false} EveryMissingFacetIsServed(s: State, cs: seq<Candidate>, missing: seq<Facet>, slots: nat,
                                                     preferred: map<string, Candidate>, world: World,
                                                     batch: seq<Candidate>, f: Facet)
    requires batch == FacetBatch(s, cs, missing, slots, preferred, world) && |batch| < slots && f in missing
    ensures IsServed(f, batch, s.attempted, cs, preferred)
  {
    var last, rest := missing[|missing|-1], missing[..|missing|-1];
    if f == last {
      LastFacetIsServed(s, cs, missing, slots, preferred, world, f);
    } else {
      var before := FacetBatch(s, cs, rest, slots, preferred, world);
      BatchesGrow(s, cs, missing, slots, preferred, world);
      EveryMissingFacetIsServed(s, cs, rest, slots, preferred, world, before, f);
      LaterBatchServesToo(f, before, batch, s.attempted, cs, preferred);
    }
  }

  // ---------- No key is attempted twice ----------

  ghost predicate Fresh(cs: seq<Candidate>, attempted: set<string>) {
    DistinctKeys(cs) && forall c :: c in cs ==> c.key !in attempted
  }

  lemma {:induction false} UnattemptedIsFresh(cs: seq<Candidate>, attempted: set<string>)
    requires DistinctKeys(cs)
    ensures Fresh(Unattempted(cs, attempted), attempted)
  {
    if cs != [] {
      var rest := Unattempted(cs[1..], attempted);
      UnattemptedIsFresh(cs[1..], attempted);
      forall i | 0 <= i < |rest| ensures rest[i].key != cs[0].key {
        assert rest[i] in cs[1..];
      }
    }
  }

  lemma {:induction false} FacetBatchIsFresh(s: State, cs: seq<Candidate>, missing: seq<Facet>, slots: nat,
                                             preferred: map<string, Candidate>, world: World)
    ensures Fresh(FacetBatch(s, cs, missing, slots, preferred, world), s.attempted)
  {
    if missing != [] {
      FacetBatchIsFresh(s, cs, missing[..|missing|-1], slots, preferred, world);
    }
  }

  lemma RunningAttemptsFreshKeys(s: State, batch: seq<Candidate>, before: nat, hard: nat, world: World)
    requires Inv(s, before, hard) && Distinct(s.order) && Fresh(batch, s.attempted)
    ensures Distinct(RunBatch(s, batch, world).order)
  {
    RunningCountsAttempts(s, batch, world);
    var order := s.order + Keys(batch);
    forall i, j | 0 <= i < j < |order| ensures order[i] != order[j] {
      if i < |s.order| <= j { assert s.order[i] in s.attempted && batch[j - |s.order|] in batch; }
    }
  }

  lemma {:induction false} OrdinaryAttemptsOnce(s: State, cs: seq<Candidate>, hard: nat, world: World, before: nat)
    requires DistinctKeys(cs) && Inv(s, before, hard) && Distinct(s.order)
    ensures Distinct(Ordinary(s, cs, hard, world).order)
    decreases hard - s.attempts
  {
    var batch := OrdinaryBatch(s, cs, hard);
    if s.attempts < hard && Useful(s.retained) < Target(hard) && batch != [] {
      NextBatchIsFresh(cs, s.attempted, hard - s.attempts, Target(hard) - Useful(s.retained));
      RunningKeepsInv(s, batch, before, hard, world);
      RunningAttemptsFreshKeys(s, batch, before, hard, world);
      RunningCountsAttempts(s, batch, world);
      var t := RunBatch(s, batch, world);
      if !world.late(t.attempts) { OrdinaryAttemptsOnce(t, cs, hard, world, before); }
    }
  }

  lemma PlannedIsFresh(s: State, cs: seq<Candidate>, missing: seq<Facet>, slots: nat,
                       preferred: map<string, Candidate>, world: World)
    requires DistinctKeys(cs)
    ensures Fresh(Planned(s, cs, missing, slots, preferred, world), s.attempted)
  {
    if missing != [] {
      FacetBatchIsFresh(s, cs, missing, slots, preferred, world);
    } else {
      RestIsFresh(cs, s.attempted, slots);
    }
  }

  lemma NextBatchIsFresh(cs: seq<Candidate>, attempted: set<string>, slots: int, wanted: int)
    requires DistinctKeys(cs)
    ensures Fresh(NextBatch(cs, attempted, slots, wanted), attempted)
  {
    RestIsFresh(cs, attempted, Min(slots, Max(1, wanted)));
  }

  lemma CompoundBatchIsFresh(s: State, cs: seq<Candidate>, facets: seq<Facet>, hard: nat,
                             preferred: map<string, Candidate>, world: World)
    requires DistinctKeys(cs) && s.attempts <= hard
    ensures Fresh(CompoundBatch(s, cs, facets, hard, preferred, world), s.attempted)
  {
    var missing, slots := Missing(facets, s.retained), hard - s.attempts;
    PlannedIsFresh(s, cs, missing, slots, preferred, world);
    NextBatchIsFresh(cs, s.attempted, slots, |missing|);
  }

  lemma RestIsFresh(cs: seq<Candidate>, attempted: set<string>, n: int)
    requires DistinctKeys(cs)
    ensures Fresh(TakeUpTo(Unattempted(cs, attempted), n), attempted)
  {
    UnattemptedIsFresh(cs, attempted);
  }

  lemma {:induction false} CompoundAttemptsOnce(s: State, cs: seq<Candidate>, facets: seq<Facet>, hard: nat,
                                                preferred: map<string, Candidate>, world: World, before: nat)
    requires DistinctKeys(cs) && Inv(s, before, hard) && Distinct(s.order)
    ensures Distinct(Compound(s, cs, facets, hard, preferred, world).order)
    decreases hard - s.attempts
  {
    if s.attempts < hard {
      var batch := CompoundBatch(s, cs, facets, hard, preferred, world);
      if batch != [] {
        CompoundBatchIsFresh(s, cs, facets, hard, preferred, world);
        RunningKeepsInv(s, batch, before, hard, world);
        RunningAttemptsFreshKeys(s, batch, before, hard, world);
        RunningCountsAttempts(s, batch, world);
        var t := RunBatch(s, batch, world);
        if !world.late(t.attempts) { CompoundAttemptsOnce(t, cs, facets, hard, preferred, world, before); }
      }
    }
  }

  /** Candidates of distinct keys, as the selection of candidates supplies, are attempted at most once. */
  lemma NoKeyIsAttemptedTwice(cs: seq<Candidate>, facets: seq<Facet>, limit: Option<int>,
                              preferred: map<string, Candidate>,
                              failures: seq<Failure>, world: World)
    requires DistinctKeys(cs)
    ensures Distinct(Retrieved(cs, facets, limit, preferred, failures, world).order)
  {
    var hard := HardLimit(cs, limit);
    if hard > 0 {
      if |facets| <= 1 {
        OrdinaryAttemptsOnce(Start(failures), cs, hard, world, |failures|);
      } else {
        CompoundAttemptsOnce(Start(failures), cs, facets, hard, preferred, world, |failures|);
      }
    }
  }

  /** For any candidates: a batch of unattempted candidates repeats a key exactly when it holds two
      candidates of one key. */
  lemma BatchRepeatsIffItHoldsAKeyTwice(s: State, batch: seq<Candidate>, before: nat, hard: nat, world: World)
    requires Inv(s, before, hard) && Distinct(s.order) && forall c :: c in batch ==> c.key !in s.attempted
    ensures Distinct(RunBatch(s, batch, world).order) <==> DistinctKeys(batch)
  {
    RunningCountsAttempts(s, batch, world);
    var order, n := RunBatch(s, batch, world).order, |s.order|;
    if DistinctKeys(batch) {
      RunningAttemptsFreshKeys(s, batch, before, hard, world);
    } else {
      var i, j :| 0 <= i < j < |batch| && batch[i].key == batch[j].key;
      assert order[n + i] == order[n + j];
    }
  }

  lemma {:induction false} NothingIsAttempted(cs: seq<Candidate>)
    ensures Unattempted(cs, {}) == cs
  {
    if cs != [] { NothingIsAttempted(cs[1..]); }
  }

  /** Without that, two candidates of one key in the same batch are both attempted, whatever happens. */
  lemma DuplicatesAreAttemptedTwice(c: Candidate, world: World)
    ensures Retrieved([c, c], [], None, map[], [], world).order == [c.key, c.key]
  {
    var cs, s := [c, c], Start([]);
    NothingIsAttempted(cs);
    assert HardLimit(cs, None) == 2 && OrdinaryBatch(s, cs, 2) == cs;
    RunningCountsAttempts(s, cs, world);
    assert Keys(cs) == [c.key, c.key];
  }
}
