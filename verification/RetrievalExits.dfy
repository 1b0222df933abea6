/** When a retrieval stops, and in which order it goes through its candidates.

    A retrieval ends only because the cap is reached, the deadline has passed or, with one query,
    enough sources are useful; with one query the attempts are the best-ranked candidates, in order. */
module RetrievalExits {
  import opened Wrappers
  import opened Candidates
  import opened Retrieval
  import opened RetrievalProperties

  // ---------- What is enough ----------

  /** The positions of sources that have passages and a relevance of at least 0.18. */
  ghost function UsefulOnes(retained: seq<Source>): set<nat> {
    set i: nat | i < |retained| && retained[i].page.passages != [] && retained[i].page.relevance >= 0.18
  }

  lemma {:induction false} UsefulIsTheirNumber(retained: seq<Source>)
    ensures Useful(retained) == |UsefulOnes(retained)|
  {
    if retained == [] {
      assert UsefulOnes(retained) == {};
    } else {
      var n := |retained| - 1;
      UsefulIsTheirNumber(retained[..n]);
      var last := retained[n].page;
      assert UsefulOnes(retained)
             == UsefulOnes(retained[..n]) + if last.passages != [] && last.relevance >= 0.18 then {n} else {};
    }
  }

  /** Enough are three fifths of the attempts allowed, rounded up: at least three, at most eight, and no more than the
      attempts. */
  lemma TargetIff(hard: nat, n: nat)
    ensures n <= Target(hard) <==> n <= hard && (n <= 3 || (n <= 8 && 5 * (n - 1) < 3 * hard))
  {
  }

  /** A batch for one query are the next candidates, as many as useful sources are wanting, or fewer when the attempts
      or the candidates run out. */
  lemma OrdinaryBatchFillsTheGap(s: State, cs: seq<Candidate>, hard: nat)
    requires s.attempts < hard && Useful(s.retained) < Target(hard)
    ensures var batch, gap := OrdinaryBatch(s, cs, hard), Target(hard) - Useful(s.retained);
            && batch <= Unattempted(cs, s.attempted) && |batch| <= gap && |batch| <= hard - s.attempts
            && (|batch| == gap || |batch| == hard - s.attempts || batch == Unattempted(cs, s.attempted))
  {
  }

  // ---------- Somebody is left while the cap is not reached ----------

  lemma SomeoneIsLeft(s: State, cs: seq<Candidate>, before: nat, hard: nat)
    requires Inv(s, before, hard) && DistinctKeys(cs) && s.attempts < |cs|
    ensures Unattempted(cs, s.attempted) != []
  {
    if Unattempted(cs, s.attempted) == [] {
      forall k | k in Elements(Keys(cs)) ensures k in s.attempted {
        var i :| 0 <= i < |cs| && Keys(cs)[i] == k;
        assert cs[i] !in Unattempted(cs, s.attempted);
      }
      DistinctElements(Keys(cs));
      DistinctElements(s.order);
      assert s.attempted == Elements(s.order);
      SubsetIsNoLarger(Elements(Keys(cs)), s.attempted);
    }
  }

  // ---------- Exits ----------

  lemma {:induction false} OrdinaryExit(s: State, cs: seq<Candidate>, hard: nat, world: World, before: nat)
    requires Inv(s, before, hard) && DistinctKeys(cs) && hard <= |cs|
    ensures var t := Ordinary(s, cs, hard, world);
            t.attempts == hard || Useful(t.retained) >= Target(hard)
              || (t.attempts > s.attempts && world.late(t.attempts))
    decreases hard - s.attempts
  {
    if s.attempts < hard && Useful(s.retained) < Target(hard) {
      SomeoneIsLeft(s, cs, before, hard);
      var batch := OrdinaryBatch(s, cs, hard);
      RunningKeepsInv(s, batch, before, hard, world);
      RunningCountsAttempts(s, batch, world);
      var t := RunBatch(s, batch, world);
      if !world.late(t.attempts) { OrdinaryExit(t, cs, hard, world, before); }
    }
  }

  lemma {:induction false} CompoundExit(s: State, cs: seq<Candidate>, facets: seq<Facet>, hard: nat,
                                        preferred: map<string, Candidate>, world: World, before: nat)
    requires Inv(s, before, hard) && DistinctKeys(cs) && hard <= |cs|
    ensures var t := Compound(s, cs, facets, hard, preferred, world);
            t.attempts == hard || (t.attempts > s.attempts && world.late(t.attempts))
    decreases hard - s.attempts
  {
    if s.attempts < hard {
      SomeoneIsLeft(s, cs, before, hard);
      var batch := CompoundBatch(s, cs, facets, hard, preferred, world);
      RunningKeepsInv(s, batch, before, hard, world);
      RunningCountsAttempts(s, batch, world);
      var t := RunBatch(s, batch, world);
      if !world.late(t.attempts) { CompoundExit(t, cs, facets, hard, preferred, world, before); }
    }
  }

  /** With candidates of distinct keys, a retrieval that the deadline does not stop uses its whole cap
      when there are several facets, and otherwise its whole cap or enough useful sources. */
  lemma RetrievalStopsForAReason(cs: seq<Candidate>, facets: seq<Facet>, limit: Option<int>,
                                 preferred: map<string, Candidate>,
                                 failures: seq<Failure>, world: World)
    requires DistinctKeys(cs)
    ensures var t := Retrieved(cs, facets, limit, preferred, failures, world);
            var hard := HardLimit(cs, limit);
            || t.attempts == hard
            || (t.attempts > 0 && world.late(t.attempts))
            || (|facets| <= 1 && Useful(t.retained) >= Target(hard))
  {
    var hard := HardLimit(cs, limit);
    if hard > 0 {
      if |facets| <= 1 {
        OrdinaryExit(Start(failures), cs, hard, world, |failures|);
      } else {
        CompoundExit(Start(failures), cs, facets, hard, preferred, world, |failures|);
      }
    }
  }

  // ---------- One query follows the ranking and does not overshoot ----------

  lemma {:induction false} UnattemptedIsRest(cs: seq<Candidate>, k: nat, attempted: set<string>)
    requires k <= |cs|
    requires forall i :: 0 <= i < |cs| ==> (cs[i].key in attempted <==> i < k)
    ensures Unattempted(cs, attempted) == cs[k..]
  {
    if cs != [] { UnattemptedIsRest(cs[1..], if k == 0 then 0 else k - 1, attempted); }
  }

  ghost predicate Ranked(s: State, cs: seq<Candidate>) {
    s.attempts <= |cs| && s.order == Keys(cs[..s.attempts])
  }

  lemma RankedLeavesTheRest(s: State, cs: seq<Candidate>, before: nat, hard: nat)
    requires Inv(s, before, hard) && DistinctKeys(cs) && Ranked(s, cs)
    ensures Unattempted(cs, s.attempted) == cs[s.attempts..]
  {
    forall i | 0 <= i < |cs| ensures cs[i].key in s.attempted <==> i < s.attempts {
      if i < s.attempts {
        assert s.order[i] == cs[i].key;
      } else {
        forall j | 0 <= j < s.attempts ensures s.order[j] != cs[i].key {
          assert s.order[j] == cs[j].key;
        }
      }
    }
    UnattemptedIsRest(cs, s.attempts, s.attempted);
  }

  lemma {:induction false} UsefulGrowsByTheBatch(s: State, batch: seq<Candidate>, first: nat, world: World)
    ensures Useful(AbsorbAll(s, batch, first, world).retained) <= Useful(s.retained) + |batch|
  {
    if batch != [] {
      var t := AbsorbAll(s, batch[..|batch|-1], first, world);
      UsefulGrowsByTheBatch(s, batch[..|batch|-1], first, world);
      forall source ensures Useful(t.retained + [source]) <= Useful(t.retained) + 1 {
        assert (t.retained + [source])[..|t.retained|] == t.retained;
      }
    }
  }

  lemma RunningFollowsTheRanking(s: State, batch: seq<Candidate>, cs: seq<Candidate>, world: World)
    requires Ranked(s, cs) && batch <= cs[s.attempts..]
    ensures Ranked(RunBatch(s, batch, world), cs)
    ensures Useful(RunBatch(s, batch, world).retained) <= Useful(s.retained) + |batch|
  {
    RunningCountsAttempts(s, batch, world);
    UsefulGrowsByTheBatch(Launch(s, batch), batch, s.attempts + 1, world);
  }

  /** With one query the attempts are the best-ranked candidates in order, and no more sources become
      useful than were asked for. */
  lemma {:induction false} OrdinaryFollowsTheRanking(s: State, cs: seq<Candidate>, hard: nat, world: World, before: nat)
    requires Inv(s, before, hard) && DistinctKeys(cs) && hard <= |cs| && Ranked(s, cs)
             && Useful(s.retained) <= Target(hard)
    ensures var t := Ordinary(s, cs, hard, world); Ranked(t, cs) && Useful(t.retained) <= Target(hard)
    decreases hard - s.attempts
  {
    if s.attempts < hard && Useful(s.retained) < Target(hard) {
      RankedLeavesTheRest(s, cs, before, hard);
      var batch := OrdinaryBatch(s, cs, hard);
      RunningKeepsInv(s, batch, before, hard, world);
      RunningCountsAttempts(s, batch, world);
      RunningFollowsTheRanking(s, batch, cs, world);
      var t := RunBatch(s, batch, world);
      if !world.late(t.attempts) { OrdinaryFollowsTheRanking(t, cs, hard, world, before); }
    }
  }

  lemma RetrievalFollowsTheRanking(cs: seq<Candidate>, facets: seq<Facet>, limit: Option<int>,
                                   preferred: map<string, Candidate>,
                                   failures: seq<Failure>, world: World)
    requires DistinctKeys(cs) && |facets| <= 1
    ensures var t := Retrieved(cs, facets, limit, preferred, failures, world);
            Ranked(t, cs) && Useful(t.retained) <= Target(HardLimit(cs, limit))
  {
    var hard := HardLimit(cs, limit);
    if hard > 0 { OrdinaryFollowsTheRanking(Start(failures), cs, hard, world, |failures|); }
  }
}
