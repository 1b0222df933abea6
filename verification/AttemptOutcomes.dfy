/** What becomes of each attempt of a retrieval. */
module AttemptOutcomes {
  import opened Wrappers
  import opened Candidates
  import opened Retrieval

  // ---------- Retained pages ----------

  ghost predicate HasHash(world: World, k: nat, hash: string) {
    world.outcome(k).Fetched? && world.outcome(k).page.hash == hash
  }

  /** One of the first `done` attempts fetched this content. */
  ghost predicate WasFetched(world: World, done: nat, hash: string) {
    exists k: nat :: 1 <= k <= done && HasHash(world, k, hash)
  }

  /** The source is the page of its attempt, and no earlier attempt fetched the same content. */
  ghost predicate IsFirstPage(world: World, source: Source) {
    && source.index > 0 && world.outcome(source.index) == Fetched(source.page)
    && !WasFetched(world, source.index - 1, source.page.hash)
  }

  /** Of `done` attempts exactly the first pages are retained. */
  ghost predicate Accounts(s: State, done: nat, world: World) {
    && (forall x :: x in s.retained <==> x.index <= done && IsFirstPage(world, x))
    && (forall hash :: hash in s.hashes <==> WasFetched(world, done, hash))
  }

  lemma FetchedByOneMore(world: World, done: nat, hash: string)
    ensures WasFetched(world, done + 1, hash) <==> WasFetched(world, done, hash) || HasHash(world, done + 1, hash)
  {
    if WasFetched(world, done + 1, hash) && !HasHash(world, done + 1, hash) {
      var k: nat :| 1 <= k <= done + 1 && HasHash(world, k, hash);
      assert k <= done;
    }
  }

  lemma AbsorbingAccounts(s: State, c: Candidate, done: nat, world: World)
    requires Accounts(s, done, world)
    ensures Accounts(Absorb(s, c, done + 1, world.outcome(done + 1)), done + 1, world)
  {
    var t, outcome := Absorb(s, c, done + 1, world.outcome(done + 1)), world.outcome(done + 1);
    forall hash ensures hash in t.hashes <==> WasFetched(world, done + 1, hash) {
      FetchedByOneMore(world, done, hash);
    }
    forall x ensures x in t.retained <==> x.index <= done + 1 && IsFirstPage(world, x) {
      if x.index == done + 1 {
        NewestIsRetainedIff(s, c, done, world, x);
      } else {
        assert x in t.retained <==> x in s.retained;
      }
    }
  }

  lemma NewestIsRetainedIff(s: State, c: Candidate, done: nat, world: World, x: Source)
    requires Accounts(s, done, world) && x.index == done + 1
    ensures x in Absorb(s, c, done + 1, world.outcome(done + 1)).retained <==> IsFirstPage(world, x)
  {
    assert x !in s.retained;
  }

  lemma {:induction false} AbsorbingAllAccounts(s: State, batch: seq<Candidate>, done: nat, world: World)
    requires Accounts(s, done, world)
    ensures Accounts(AbsorbAll(s, batch, done + 1, world), done + |batch|, world)
  {
    if batch != [] {
      var n := |batch| - 1;
      AbsorbingAllAccounts(s, batch[..n], done, world);
      AbsorbingAccounts(AbsorbAll(s, batch[..n], done + 1, world), batch[n], done + n, world);
    }
  }

  lemma RunningAccounts(s: State, batch: seq<Candidate>, world: World)
    requires Accounts(s, s.attempts, world)
    ensures Accounts(RunBatch(s, batch, world), RunBatch(s, batch, world).attempts, world)
  {
    RunningCountsAttempts(s, batch, world);
    AbsorbingAllAccounts(Launch(s, batch), batch, s.attempts, world);
  }

  lemma {:induction false} OrdinaryAccounts(s: State, cs: seq<Candidate>, hard: nat, world: World)
    requires Accounts(s, s.attempts, world)
    ensures Accounts(Ordinary(s, cs, hard, world), Ordinary(s, cs, hard, world).attempts, world)
    decreases hard - s.attempts
  {
    var batch := OrdinaryBatch(s, cs, hard);
    if s.attempts < hard && Useful(s.retained) < Target(hard) && batch != [] {
      var t := RunBatch(s, batch, world);
      RunningAccounts(s, batch, world);
      RunningCountsAttempts(s, batch, world);
      if !world.late(t.attempts) { OrdinaryAccounts(t, cs, hard, world); }
    }
  }

  lemma {:induction false} CompoundAccounts(s: State, cs: seq<Candidate>, facets: seq<Facet>, hard: nat,
                                            preferred: map<string, Candidate>, world: World)
    requires Accounts(s, s.attempts, world)
    ensures var t := Compound(s, cs, facets, hard, preferred, world); Accounts(t, t.attempts, world)
    decreases hard - s.attempts
  {
    if s.attempts < hard {
      var batch := CompoundBatch(s, cs, facets, hard, preferred, world);
      if batch != [] {
        var t := RunBatch(s, batch, world);
        RunningAccounts(s, batch, world);
        RunningCountsAttempts(s, batch, world);
        if !world.late(t.attempts) { CompoundAccounts(t, cs, facets, hard, preferred, world); }
      }
    }
  }

  /** Every retrieval retains exactly the first page of each content that its attempts fetched, under the number of its
      attempt. */
  lemma FirstPagesAreRetained(cs: seq<Candidate>, facets: seq<Facet>, limit: Option<int>,
                              preferred: map<string, Candidate>, failures: seq<Failure>, world: World, x: Source)
    ensures var s := Retrieved(cs, facets, limit, preferred, failures, world);
            x in s.retained <==> x.index <= s.attempts && IsFirstPage(world, x)
  {
    var start, hard := Start(failures), HardLimit(cs, limit);
    assert Accounts(start, 0, world);
    if hard > 0 {
      if |facets| <= 1 {
        OrdinaryAccounts(start, cs, hard, world);
      } else {
        CompoundAccounts(start, cs, facets, hard, preferred, world);
      }
    }
  }

  // ---------- Failures ----------

  /** The failure of attempt `k` for this candidate: the deadline, what the fetch raised, or a content that is known. */
  ghost predicate Explains(f: Failure, c: Candidate, k: nat, world: World)
    requires k > 0
  {
    && f.url == c.url
    && match world.outcome(k)
       case Late => f.stage == "fetch_or_extract" && f.error == "ResearchDeadlineExceeded"
       case Raised(error) => f.stage == "fetch_or_extract" && f.error == error
       case Fetched(page) =>
         f.stage == "deduplication" && f.error == "duplicate_content" && WasFetched(world, k - 1, page.hash)
  }

  /** The attempts `ns` of the batch, in order, failed, and `fs` says why. */
  ghost predicate AreFailures(fs: seq<Failure>, batch: seq<Candidate>, ns: seq<nat>, done: nat, world: World) {
    && |ns| == |fs|
    && (forall i :: 0 <= i < |ns| ==> ns[i] < |batch| && Explains(fs[i], batch[ns[i]], done + 1 + ns[i], world))
    && forall i, j :: 0 <= i < j < |ns| ==> ns[i] < ns[j]
  }

  lemma OneMoreFailure(fs: seq<Failure>, batch: seq<Candidate>, ns: seq<nat>, done: nat, world: World, f: Failure,
                       c: Candidate)
    requires AreFailures(fs, batch, ns, done, world) && Explains(f, c, done + 1 + |batch|, world)
    ensures AreFailures(fs + [f], batch + [c], ns + [|batch|], done, world)
  {
  }

  lemma NoMoreFailures(fs: seq<Failure>, batch: seq<Candidate>, ns: seq<nat>, done: nat, world: World, c: Candidate)
    requires AreFailures(fs, batch, ns, done, world)
    ensures AreFailures(fs, batch + [c], ns, done, world)
  {
  }

  lemma FailingExplains(s: State, c: Candidate, done: nat, world: World)
    requires Accounts(s, done, world)
    ensures var t := Absorb(s, c, done + 1, world.outcome(done + 1));
            || (t.failures == s.failures && |t.retained| == |s.retained| + 1)
            || (t.retained == s.retained && |t.failures| == |s.failures| + 1
                && t.failures == s.failures + [t.failures[|s.failures|]]
                && Explains(t.failures[|s.failures|], c, done + 1, world))
  {
  }

  /** From `s` to `t` the batch was settled, and the failures added are those of its attempts `ns`. */
  ghost predicate IsExplained(s: State, t: State, batch: seq<Candidate>, ns: seq<nat>, done: nat, world: World) {
    && s.failures <= t.failures && AreFailures(t.failures[|s.failures|..], batch, ns, done, world)
    && |t.retained| + |ns| == |s.retained| + |batch|
  }

  lemma OneMoreIsExplained(s: State, t: State, u: State, batch: seq<Candidate>, ns: seq<nat>, done: nat, world: World,
                           c: Candidate) returns (ms: seq<nat>)
    requires IsExplained(s, t, batch, ns, done, world) && Accounts(t, done + |batch|, world)
    requires u == Absorb(t, c, done + |batch| + 1, world.outcome(done + |batch| + 1))
    ensures IsExplained(s, u, batch + [c], ms, done, world)
  {
    var fs := t.failures[|s.failures|..];
    FailingExplains(t, c, done + |batch|, world);
    if u.failures == t.failures {
      NoMoreFailures(fs, batch, ns, done, world, c);
      ms := ns;
    } else {
      var f := u.failures[|t.failures|];
      assert u.failures[|s.failures|..] == fs + [f];
      OneMoreFailure(fs, batch, ns, done, world, f, c);
      ms := ns + [|batch|];
    }
  }

  /** The failures that a batch adds are those of its attempts that were not retained, in order, and each says why. */
  lemma {:induction false} BatchFailuresExplain(s: State, batch: seq<Candidate>, done: nat, world: World)
    returns (ns: seq<nat>)
    requires Accounts(s, done, world)
    ensures IsExplained(s, AbsorbAll(s, batch, done + 1, world), batch, ns, done, world)
  {
    if batch == [] {
      ns := [];
    } else {
      var n := |batch| - 1;
      var before := AbsorbAll(s, batch[..n], done + 1, world);
      ns := BatchFailuresExplain(s, batch[..n], done, world);
      AbsorbingAllAccounts(s, batch[..n], done, world);
      assert batch[..n] + [batch[n]] == batch;
      ns := OneMoreIsExplained(s, before, AbsorbAll(s, batch, done + 1, world), batch[..n], ns, done, world, batch[n]);
    }
  }
}
