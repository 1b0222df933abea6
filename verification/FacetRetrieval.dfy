/** Which facets a retrieval for several facets still looks for, and what can settle one. */
module FacetRetrieval {
  import opened Wrappers
  import opened TermCoverage
  import opened Candidates
  import opened Retrieval

  // ---------- High-risk passages do not matter ----------

  function SafePassages(ps: seq<Passage>): (r: seq<Passage>)
    ensures forall p :: p in r <==> p in ps && !p.risky
  {
    if ps == [] then []
    else SafePassages(ps[..|ps|-1]) + if ps[|ps|-1].risky then [] else [ps[|ps|-1]]
  }

  /** Sources that differ only in their high-risk passages. */
  ghost predicate SameSafePassages(a: seq<Source>, b: seq<Source>) {
    |a| == |b| && forall i :: 0 <= i < |a| ==> SafePassages(a[i].page.passages) == SafePassages(b[i].page.passages)
  }

  lemma SafeAnswersCarryOver(f: Facet, a: seq<Source>, b: seq<Source>)
    requires SameSafePassages(a, b) && Answered(f, a)
    ensures Answered(f, b)
  {
    var i, j :| 0 <= i < |a| && 0 <= j < |a[i].page.passages| && Answers(a[i].page.passages[j], f);
    var p := a[i].page.passages[j];
    assert p in SafePassages(a[i].page.passages);
    var k :| 0 <= k < |b[i].page.passages| && b[i].page.passages[k] == p;
  }

  lemma {:induction false} RiskyPassagesSettleNothing(facets: seq<Facet>, a: seq<Source>, b: seq<Source>)
    requires SameSafePassages(a, b)
    ensures Missing(facets, a) == Missing(facets, b)
  {
    if facets != [] {
      if Answered(facets[0], a) { SafeAnswersCarryOver(facets[0], a, b); }
      if Answered(facets[0], b) { SafeAnswersCarryOver(facets[0], b, a); }
      RiskyPassagesSettleNothing(facets[1..], a, b);
    }
  }

  lemma {:induction false} BatchIgnoresSources(s: State, t: State, cs: seq<Candidate>, missing: seq<Facet>, slots: nat,
                                               preferred: map<string, Candidate>, world: World)
    requires s.attempted == t.attempted
    ensures FacetBatch(s, cs, missing, slots, preferred, world) == FacetBatch(t, cs, missing, slots, preferred, world)
  {
    if missing != [] { BatchIgnoresSources(s, t, cs, missing[..|missing|-1], slots, preferred, world); }
  }

  lemma PlanIgnoresSources(s: State, t: State, cs: seq<Candidate>, missing: seq<Facet>, slots: nat,
                           preferred: map<string, Candidate>, world: World)
    requires s.attempted == t.attempted
    ensures Planned(s, cs, missing, slots, preferred, world) == Planned(t, cs, missing, slots, preferred, world)
  {
    BatchIgnoresSources(s, t, cs, missing, slots, preferred, world);
  }

  lemma BatchIsPlannedOrNext(s: State, cs: seq<Candidate>, facets: seq<Facet>, hard: nat,
                             preferred: map<string, Candidate>, world: World, attempted: set<string>, slots: nat,
                             missing: seq<Facet>, plan: seq<Candidate>, batch: seq<Candidate>)
    requires s.attempts + slots == hard && s.attempted == attempted && missing == Missing(facets, s.retained)
    requires plan == Planned(s, cs, missing, slots, preferred, world)
    requires batch == if plan != [] then plan else NextBatch(cs, attempted, slots, |missing|)
    ensures CompoundBatch(s, cs, facets, hard, preferred, world) == batch
  {
  }

  lemma SameMissingSameBatch(s: State, t: State, cs: seq<Candidate>, facets: seq<Facet>, hard: nat,
                             preferred: map<string, Candidate>, world: World, missing: seq<Facet>)
    requires s.attempts == t.attempts <= hard && s.attempted == t.attempted
    requires missing == Missing(facets, s.retained) == Missing(facets, t.retained)
    ensures CompoundBatch(s, cs, facets, hard, preferred, world) == CompoundBatch(t, cs, facets, hard, preferred, world)
  {
    var slots, attempted := hard - s.attempts, s.attempted;
    var plan := Planned(s, cs, missing, slots, preferred, world);
    var batch := if plan != [] then plan else NextBatch(cs, attempted, slots, |missing|);
    PlanIgnoresSources(s, t, cs, missing, slots, preferred, world);
    BatchIsPlannedOrNext(s, cs, facets, hard, preferred, world, attempted, slots, missing, plan, batch);
    BatchIsPlannedOrNext(t, cs, facets, hard, preferred, world, attempted, slots, missing, plan, batch);
  }

  /** Two states of the same attempts whose sources differ only in their high-risk passages miss the same facets
      and plan the same next batch. */
  lemma RiskyPassagesSteerNothing(s: State, t: State, cs: seq<Candidate>, facets: seq<Facet>, hard: nat,
                                  preferred: map<string, Candidate>, world: World)
    requires s.attempts == t.attempts <= hard && s.attempted == t.attempted
    requires SameSafePassages(s.retained, t.retained)
    ensures Missing(facets, s.retained) == Missing(facets, t.retained)
    ensures CompoundBatch(s, cs, facets, hard, preferred, world) == CompoundBatch(t, cs, facets, hard, preferred, world)
  {
    RiskyPassagesSettleNothing(facets, s.retained, t.retained);
    SameMissingSameBatch(s, t, cs, facets, hard, preferred, world, Missing(facets, s.retained));
  }

  lemma NextAreTheFirst(cs: seq<Candidate>, attempted: set<string>, slots: nat, wanted: nat)
    requires slots > 0
    ensures var batch, left := NextBatch(cs, attempted, slots, wanted), Unattempted(cs, attempted);
            && batch <= left && |batch| <= slots && (wanted > 0 ==> |batch| <= wanted)
            && (|batch| == slots || |batch| == wanted || batch == left || (wanted == 0 && |batch| == 1))
            && (batch == [] ==> left == [])
  {
  }

  /** When no facet is missing, the next batch are all candidates left that the attempts allow. */
  lemma WithoutMissingFacets(s: State, cs: seq<Candidate>, facets: seq<Facet>, hard: nat,
                             preferred: map<string, Candidate>, world: World)
    requires s.attempts < hard && Missing(facets, s.retained) == []
    ensures var batch := CompoundBatch(s, cs, facets, hard, preferred, world);
            && batch <= Unattempted(cs, s.attempted) && |batch| <= hard - s.attempts
            && (|batch| == hard - s.attempts || batch == Unattempted(cs, s.attempted))
  {
    var slots := hard - s.attempts;
    var plan, next := TakeUpTo(Unattempted(cs, s.attempted), slots), NextBatch(cs, s.attempted, slots, 0);
    NextAreTheFirst(cs, s.attempted, slots, 0);
    BatchIsPlannedOrNext(s, cs, facets, hard, preferred, world, s.attempted, slots, [], plan,
                         if plan != [] then plan else next);
  }

  /** When no missing facet has a candidate, the next batch are the first candidates left, one per missing facet. */
  lemma WithoutCandidates(s: State, cs: seq<Candidate>, facets: seq<Facet>, hard: nat,
                          preferred: map<string, Candidate>, world: World, missing: seq<Facet>)
    requires s.attempts < hard && missing == Missing(facets, s.retained) && missing != []
    requires FacetBatch(s, cs, missing, hard - s.attempts, preferred, world) == []
    ensures var batch := CompoundBatch(s, cs, facets, hard, preferred, world);
            && batch <= Unattempted(cs, s.attempted) && |batch| <= hard - s.attempts && |batch| <= |missing|
            && (|batch| == hard - s.attempts || |batch| == |missing| || batch == Unattempted(cs, s.attempted))
  {
    var slots := hard - s.attempts;
    var next := NextBatch(cs, s.attempted, slots, |missing|);
    NextAreTheFirst(cs, s.attempted, slots, |missing|);
    BatchIsPlannedOrNext(s, cs, facets, hard, preferred, world, s.attempted, slots, missing, [], next);
  }

  // ---------- What settles a facet ----------

  /** A safe passage of a retained source that has enough of the facet's terms: all of one or two, or three
      fifths of more. */
  ghost predicate Settles(p: Passage, f: Facet) {
    && !p.risky && f.terms != {}
    && (f.terms <= p.meaningful || (|f.terms| > 2 && 5 * |f.terms * p.meaningful| >= 3 * |f.terms|))
  }

  ghost predicate IsSettled(f: Facet, retained: seq<Source>) {
    exists i, p :: 0 <= i < |retained| && p in retained[i].page.passages && Settles(p, f)
  }

  lemma AnswersIffSettles(p: Passage, f: Facet)
    ensures Answers(p, f) <==> Settles(p, f)
  {
    EnoughIsMentionedIff(f.terms, p.meaningful);
    AllTermsOrFewer(f.terms, p.meaningful);
  }

  /** The missing facets are exactly those that no safe passage settles, in their order. */
  lemma MissingAreTheUnsettled(facets: seq<Facet>, retained: seq<Source>, f: Facet)
    ensures f in Missing(facets, retained) <==> f in facets && !IsSettled(f, retained)
  {
    if Answered(f, retained) {
      var i, j :| 0 <= i < |retained| && 0 <= j < |retained[i].page.passages|
        && Answers(retained[i].page.passages[j], f);
      AnswersIffSettles(retained[i].page.passages[j], f);
    }
    if IsSettled(f, retained) {
      var i, p :| 0 <= i < |retained| && p in retained[i].page.passages && Settles(p, f);
      var j :| 0 <= j < |retained[i].page.passages| && retained[i].page.passages[j] == p;
      AnswersIffSettles(p, f);
      assert Answers(retained[i].page.passages[j], f);
    }
  }

  lemma {:induction false} MissingComeInOrder(facets: seq<Facet>, retained: seq<Source>) returns (ps: seq<nat>)
    ensures PicksInOrder(facets, Missing(facets, retained), ps)
  {
    if facets == [] {
      ps := [];
    } else {
      var rest := Missing(facets[1..], retained);
      assert facets == [facets[0]] + facets[1..];
      ps := MissingComeInOrder(facets[1..], retained);
      ps := SkipFirst(facets[0], facets[1..], rest, ps);
      if Answered(facets[0], retained) {
        assert Missing(facets, retained) == rest;
      } else {
        PickFirst(facets[0], facets[1..], rest, ps);
        ps := [0] + ps;
      }
    }
  }

  // ---------- Over a whole run ----------

  /** A run of batches. */
  ghost predicate BatchRun(ss: seq<State>, batches: seq<seq<Candidate>>, world: World) {
    |ss| == |batches| + 1 && forall i :: 0 <= i < |batches| ==> ss[i+1] == RunBatch(ss[i], batches[i], world)
  }

  lemma {:induction false} AbsorbingKeepsSources(s: State, batch: seq<Candidate>, first: nat, world: World)
    ensures s.retained <= AbsorbAll(s, batch, first, world).retained
  {
    if batch != [] { AbsorbingKeepsSources(s, batch[..|batch|-1], first, world); }
  }

  lemma SettledStays(f: Facet, a: seq<Source>, b: seq<Source>)
    requires IsSettled(f, a) && a <= b
    ensures IsSettled(f, b)
  {
    var i, p :| 0 <= i < |a| && p in a[i].page.passages && Settles(p, f);
    assert b[i] == a[i];
  }

  /** Once a safe passage has settled a facet, the facet is not missing for the rest of the run. */
  lemma {:induction false} SettledForTheRestOfTheRun(ss: seq<State>, batches: seq<seq<Candidate>>, world: World,
                                                     facets: seq<Facet>, f: Facet, i: nat, j: nat)
    requires BatchRun(ss, batches, world) && i <= j < |ss| && IsSettled(f, ss[i].retained)
    ensures f !in Missing(facets, ss[j].retained)
    decreases j - i
  {
    if i < j {
      AbsorbingKeepsSources(Launch(ss[i], batches[i]), batches[i], ss[i].attempts + 1, world);
      SettledStays(f, ss[i].retained, ss[i+1].retained);
      SettledForTheRestOfTheRun(ss, batches, world, facets, f, i + 1, j);
    } else {
      MissingAreTheUnsettled(facets, ss[j].retained, f);
    }
  }

  /** Every batch is planned from the state before it, which is below the cap. */
  ghost predicate IsPlanned(ss: seq<State>, batches: seq<seq<Candidate>>, cs: seq<Candidate>, facets: seq<Facet>,
                            hard: nat, preferred: map<string, Candidate>, world: World) {
    |ss| == |batches| + 1 && forall i :: 0 <= i < |batches| ==>
      ss[i].attempts < hard && batches[i] == CompoundBatch(ss[i], cs, facets, hard, preferred, world)
  }

  lemma RunBehind(s: State, batch: seq<Candidate>, ss: seq<State>, batches: seq<seq<Candidate>>, world: World)
    requires BatchRun(ss, batches, world) && ss[0] == RunBatch(s, batch, world)
    ensures BatchRun([s] + ss, [batch] + batches, world)
  {
    var all, planned := [s] + ss, [batch] + batches;
    forall i | 0 <= i < |planned| ensures all[i+1] == RunBatch(all[i], planned[i], world) {
      if i > 0 { assert all[i] == ss[i-1] && all[i+1] == ss[i] && planned[i] == batches[i-1]; }
    }
  }

  lemma PlanBehind(s: State, batch: seq<Candidate>, ss: seq<State>, batches: seq<seq<Candidate>>, cs: seq<Candidate>,
                   facets: seq<Facet>, hard: nat, preferred: map<string, Candidate>, world: World)
    requires IsPlanned(ss, batches, cs, facets, hard, preferred, world)
    requires s.attempts < hard && batch == CompoundBatch(s, cs, facets, hard, preferred, world)
    ensures IsPlanned([s] + ss, [batch] + batches, cs, facets, hard, preferred, world)
  {
    var all, planned := [s] + ss, [batch] + batches;
    forall i | 0 <= i < |planned|
      ensures all[i].attempts < hard && planned[i] == CompoundBatch(all[i], cs, facets, hard, preferred, world)
    {
      if i > 0 { assert all[i] == ss[i-1] && planned[i] == batches[i-1]; }
    }
  }

  /** A retrieval for several facets is a run of batches, each planned from the state before it, that ends with
      its result. */
  lemma {:induction false} CompoundIsABatchRun(s: State, cs: seq<Candidate>, facets: seq<Facet>, hard: nat,
                                               preferred: map<string, Candidate>, world: World)
    returns (ss: seq<State>, batches: seq<seq<Candidate>>)
    ensures BatchRun(ss, batches, world) && IsPlanned(ss, batches, cs, facets, hard, preferred, world)
    ensures ss[0] == s && ss[|ss|-1] == Compound(s, cs, facets, hard, preferred, world)
    decreases hard - s.attempts
  {
    ss, batches := [s], [];
    if s.attempts < hard {
      var batch := CompoundBatch(s, cs, facets, hard, preferred, world);
      if batch != [] {
        var t := RunBatch(s, batch, world);
        RunningCountsAttempts(s, batch, world);
        ss, batches := [t], [];
        if !world.late(t.attempts) {
          ss, batches := CompoundIsABatchRun(t, cs, facets, hard, preferred, world);
        }
        RunBehind(s, batch, ss, batches, world);
        PlanBehind(s, batch, ss, batches, cs, facets, hard, preferred, world);
        ss, batches := [s] + ss, [batch] + batches;
      }
    }
  }

  /** Passages that are all high-risk, or have none of its terms, never settle a facet. */
  lemma UselessPassagesSettleNothing(facets: seq<Facet>, retained: seq<Source>, f: Facet)
    requires f in facets
    requires forall i, p :: 0 <= i < |retained| && p in retained[i].page.passages ==>
               p.risky || f.terms * p.meaningful == {}
    ensures f in Missing(facets, retained)
  {
    MissingAreTheUnsettled(facets, retained, f);
    if IsSettled(f, retained) {
      var i, p :| 0 <= i < |retained| && p in retained[i].page.passages && Settles(p, f);
      AllTermsOrFewer(f.terms, p.meaningful);
    }
  }
}
