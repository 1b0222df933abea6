/** The per-domain circuit breaker of the HTTP fetcher, under any interleaving of concurrent fetches. */
module CircuitBreaker {
  import opened Wrappers

  // The source keeps two dictionaries, failure counts and open-until times. Here they are proved to be
  // a summary of the history of recorded outcomes, and the state machine of whole fetches (arrival,
  // admission through the domain's semaphore, attempts, retries, time-outs) shows which requests the
  // breaker really holds back. Times are readings of one monotonic clock.

  type Domain = string
  type FetchId = nat
  type Time = nat

  const THRESHOLD := 3
  const OPEN_SECONDS := 60

  // ---------- The history and what it means ----------

  datatype Record = Transient(domain: Domain, at: Time) | Cleared(domain: Domain)

  /** The transient failures recorded for `d` since its last success or deterministic failure. */
  function TrailingFailures(history: seq<Record>, d: Domain): nat {
    if history == [] then 0
    else
      var last, before := history[|history| - 1], history[..|history| - 1];
      if last.domain != d then TrailingFailures(before, d)
      else if last.Transient? then TrailingFailures(before, d) + 1
      else 0
  }

  /** When the most recent transient failure of `d` was recorded. */
  function LastFailure(history: seq<Record>, d: Domain): Time {
    if history == [] then 0
    else
      var last := history[|history| - 1];
      if last.Transient? && last.domain == d then last.at else LastFailure(history[..|history| - 1], d)
  }

  /** What the breaker promises: no request within a minute of the third failure in a row. */
  predicate Permits(history: seq<Record>, d: Domain, now: Time) {
    TrailingFailures(history, d) < THRESHOLD || LastFailure(history, d) + OPEN_SECONDS <= now
  }

  // ---------- The two dictionaries ----------

  datatype Circuit = Circuit(failures: map<Domain, nat>, openUntil: map<Domain, Time>)

  function RecordTransient(c: Circuit, d: Domain, now: Time): Circuit {
    var count := (if d in c.failures then c.failures[d] else 0) + 1;
    Circuit(c.failures[d := count],
            if count >= THRESHOLD then c.openUntil[d := now + OPEN_SECONDS] else c.openUntil)
  }

  function RecordCleared(c: Circuit, d: Domain): Circuit {
    Circuit(c.failures - {d}, c.openUntil - {d})
  }

  function Recorded(c: Circuit, r: Record): Circuit {
    match r
    case Transient(d, at) => RecordTransient(c, d, at)
    case Cleared(d) => RecordCleared(c, d)
  }

  predicate IsOpen(c: Circuit, d: Domain, now: Time) {
    d in c.openUntil && c.openUntil[d] > now
  }

  ghost predicate SummarisesDomain(c: Circuit, history: seq<Record>, d: Domain) {
    && (if d in c.failures then c.failures[d] else 0) == TrailingFailures(history, d)
    && (d in c.failures <==> TrailingFailures(history, d) > 0)
    && (d in c.openUntil <==> TrailingFailures(history, d) >= THRESHOLD)
    && (d in c.openUntil ==> c.openUntil[d] == LastFailure(history, d) + OPEN_SECONDS)
  }

  /** The dictionaries say exactly what the history says, for every domain. */
  ghost predicate Summarises(c: Circuit, history: seq<Record>) {
    forall d :: SummarisesDomain(c, history, d)
  }

  lemma RecordingKeepsTheSummary(c: Circuit, history: seq<Record>, r: Record)
    requires Summarises(c, history)
    ensures Summarises(Recorded(c, r), history + [r])
  {
    assert (history + [r])[..|history|] == history;
    forall d ensures SummarisesDomain(Recorded(c, r), history + [r], d) {
      assert SummarisesDomain(c, history, d);
    }
  }

  lemma OpenIsWhatHistorySays(c: Circuit, history: seq<Record>, d: Domain, now: Time)
    requires Summarises(c, history)
    ensures IsOpen(c, d, now) <==> !Permits(history, d, now)
  {
    assert SummarisesDomain(c, history, d);
  }

  lemma OtherDomainsDoNotMatter(history: seq<Record>, r: Record, d: Domain, now: Time)
    requires r.domain != d
    ensures Permits(history + [r], d, now) == Permits(history, d, now)
  {
    assert (history + [r])[..|history|] == history;
  }

  // ---------- Whole fetches ----------

  datatype Config = Config(retries: nat, perDomainConcurrency: nat)

  /** A fetch with a client of its own closes it before it frees its place; a failure that decided it,
      transient or not, is recorded only then. */
  datatype Fetch =
    | Queued(domain: Domain)
    | Attempting(domain: Domain, attempt: nat)
    | Sleeping(domain: Domain, attempt: nat)
    | Closing(domain: Domain, pending: Option<bool>)
    | Finished

  /** A request put on the wire: which attempt of its fetch, when, and how much history preceded it. */
  datatype Start = Start(domain: Domain, attempt: nat, at: Time, recorded: nat)

  datatype State = State(
    circuit: Circuit, history: seq<Record>, fetches: map<FetchId, Fetch>, starts: seq<Start>, now: Time)

  datatype Event =
    | Arrive(id: FetchId, domain: Domain)
    | Admit(id: FetchId)
    | Succeed(id: FetchId, own: bool)
    | Fail(id: FetchId, transient: bool, own: bool)
    | Retry(id: FetchId)
    | TimeOut(id: FetchId)
    | Close(id: FetchId)
    | Abort(id: FetchId)
    | Tick(to: Time)

  const INITIAL := State(Circuit(map[], map[]), [], map[], [], 0)

  predicate Holds(f: Fetch, d: Domain) {
    !f.Queued? && !f.Finished? && f.domain == d
  }

  /** The fetches inside the semaphore of domain `d`. */
  function Holders(s: State, d: Domain): set<FetchId> {
    set id | id in s.fetches && Holds(s.fetches[id], d)
  }

  predicate Enabled(cfg: Config, s: State, e: Event) {
    match e
    case Arrive(id, _) => id !in s.fetches
    case Admit(id) =>
      && id in s.fetches && s.fetches[id].Queued?
      && |Holders(s, s.fetches[id].domain)| < cfg.perDomainConcurrency
    case Succeed(id, _) => id in s.fetches && s.fetches[id].Attempting?
    case Fail(id, _, _) => id in s.fetches && s.fetches[id].Attempting?
    case Retry(id) => id in s.fetches && s.fetches[id].Sleeping?
    case TimeOut(id) =>
      id in s.fetches && (s.fetches[id].Attempting? || s.fetches[id].Sleeping? || s.fetches[id].Closing?)
    case Close(id) => id in s.fetches && s.fetches[id].Closing?
    case Abort(id) => id in s.fetches && !s.fetches[id].Finished?
    case Tick(to) => s.now <= to
  }

  function Move(s: State, id: FetchId, f: Fetch): State {
    s.(fetches := s.fetches[id := f])
  }

  function Log(s: State, r: Record): State {
    s.(circuit := Recorded(s.circuit, r), history := s.history + [r])
  }

  function Request(s: State, id: FetchId, d: Domain, attempt: nat): State {
    Move(s, id, Attempting(d, attempt)).(starts := s.starts + [Start(d, attempt, s.now, |s.history|)])
  }

  function Failure(d: Domain, transient: bool, now: Time): Record {
    if transient then Transient(d, now) else Cleared(d)
  }

  function Apply(cfg: Config, s: State, e: Event): State
    requires Enabled(cfg, s, e)
  {
    match e
    case Arrive(id, d) => Move(s, id, if IsOpen(s.circuit, d, s.now) then Finished else Queued(d))
    case Admit(id) =>
      var d := s.fetches[id].domain;
      if IsOpen(s.circuit, d, s.now) then Move(s, id, Finished) else Request(s, id, d, 0)
    case Succeed(id, own) =>
      var d := s.fetches[id].domain;
      Move(Log(s, Cleared(d)), id, if own then Closing(d, None) else Finished)
    case Fail(id, transient, own) =>
      var Attempting(d, attempt) := s.fetches[id];
      if attempt < cfg.retries && transient then Move(s, id, Sleeping(d, attempt + 1))
      else if own then Move(s, id, Closing(d, Some(transient)))
      else Move(Log(s, Failure(d, transient, s.now)), id, Finished)
    case Retry(id) => Request(s, id, s.fetches[id].domain, s.fetches[id].attempt)
    case TimeOut(id) => Move(Log(s, Transient(s.fetches[id].domain, s.now)), id, Finished)
    case Close(id) =>
      var Closing(d, pending) := s.fetches[id];
      Move(if pending.Some? then Log(s, Failure(d, pending.value, s.now)) else s, id, Finished)
    case Abort(id) => Move(s, id, Finished)
    case Tick(to) => s.(now := to)
  }

  ghost predicate Run(cfg: Config, ss: seq<State>, es: seq<Event>) {
    && |ss| == |es| + 1
    && ss[0] == INITIAL
    && forall i :: 0 <= i < |es| ==> Enabled(cfg, ss[i], es[i]) && ss[i+1] == Apply(cfg, ss[i], es[i])
  }

  ghost predicate Reachable(cfg: Config, s: State) {
    exists ss, es :: Run(cfg, ss, es) && ss[|ss| - 1] == s
  }

  lemma StepIsReachable(cfg: Config, s: State, e: Event)
    requires Reachable(cfg, s) && Enabled(cfg, s, e)
    ensures Reachable(cfg, Apply(cfg, s, e))
  {
    var ss, es :| Run(cfg, ss, es) && ss[|ss| - 1] == s;
    var ss', es' := ss + [Apply(cfg, s, e)], es + [e];
    forall i | 0 <= i < |es'| ensures Enabled(cfg, ss'[i], es'[i]) && ss'[i+1] == Apply(cfg, ss'[i], es'[i]) {
      if i < |es| { assert ss'[i] == ss[i] && ss'[i+1] == ss[i+1] && es'[i] == es[i]; }
    }
    assert Run(cfg, ss', es');
  }

  /** The first request of a fetch went out with the breaker's permission, judged by the history
      recorded up to that moment. */
  predicate Permitted(history: seq<Record>, start: Start) {
    start.recorded <= |history| && Permits(history[..start.recorded], start.domain, start.at)
  }

  ghost predicate Sound(s: State) {
    && Summarises(s.circuit, s.history)
    && (forall id :: id in s.fetches && s.fetches[id].Sleeping? ==> s.fetches[id].attempt > 0)
    && forall i :: 0 <= i < |s.starts| && s.starts[i].attempt == 0 ==> Permitted(s.history, s.starts[i])
  }

  lemma PermissionIsLasting(history: seq<Record>, history': seq<Record>, start: Start)
    requires history <= history' && Permitted(history, start)
    ensures Permitted(history', start)
  {
    assert history'[..start.recorded] == history[..start.recorded];
  }

  lemma StepKeepsSound(cfg: Config, s: State, e: Event)
    requires Sound(s) && Enabled(cfg, s, e)
    ensures Sound(Apply(cfg, s, e))
    ensures s.history <= Apply(cfg, s, e).history && s.starts <= Apply(cfg, s, e).starts
  {
    var s' := Apply(cfg, s, e);
    if s'.history != s.history {
      var r := s'.history[|s.history|];
      assert s'.history == s.history + [r];
      RecordingKeepsTheSummary(s.circuit, s.history, r);
    }
    if e.Admit? {
      OpenIsWhatHistorySays(s.circuit, s.history, s.fetches[e.id].domain, s.now);
    }
    assert s.history[..|s.history|] == s.history;
    forall i | 0 <= i < |s'.starts| && s'.starts[i].attempt == 0 ensures Permitted(s'.history, s'.starts[i]) {
      if i < |s.starts| { PermissionIsLasting(s.history, s'.history, s'.starts[i]); }
    }
  }

  lemma {:induction false} RunIsSound(cfg: Config, ss: seq<State>, es: seq<Event>, i: nat)
    requires Run(cfg, ss, es) && i < |ss|
    ensures Sound(ss[i])
  {
    if i > 0 {
      RunIsSound(cfg, ss, es, i - 1);
      StepKeepsSound(cfg, ss[i-1], es[i-1]);
    }
  }

  /** In every reachable state a domain's failure count is its trailing run of transient failures,
      it has an open-until entry exactly when that run has reached three, and the entry is one
      minute after the last of them. */
  lemma CountersSummariseHistory(cfg: Config, s: State, d: Domain)
    requires Reachable(cfg, s)
    ensures (if d in s.circuit.failures then s.circuit.failures[d] else 0) == TrailingFailures(s.history, d)
    ensures d in s.circuit.openUntil <==> TrailingFailures(s.history, d) >= THRESHOLD
    ensures d in s.circuit.openUntil ==> s.circuit.openUntil[d] == LastFailure(s.history, d) + OPEN_SECONDS
  {
    var ss, es :| Run(cfg, ss, es) && ss[|ss| - 1] == s;
    RunIsSound(cfg, ss, es, |ss| - 1);
    assert SummarisesDomain(s.circuit, s.history, d);
  }

  /** No fetch sends its first request while its domain's breaker is open, however many fetches run
      concurrently. */
  lemma NoFetchStartsWhileOpen(cfg: Config, s: State, i: nat)
    requires Reachable(cfg, s) && i < |s.starts| && s.starts[i].attempt == 0
    ensures Permitted(s.history, s.starts[i])
  {
    var ss, es :| Run(cfg, ss, es) && ss[|ss| - 1] == s;
    RunIsSound(cfg, ss, es, |ss| - 1);
  }

  // ---------- Retries ----------

  predicate Safe(cfg: Config) {
    cfg.retries == 0 || cfg.perDomainConcurrency <= 1
  }

  /** What makes retries safe: the fetch holding a domain's semaphore keeps the permission it was
      admitted with, because nobody else can record an outcome for that domain. */
  ghost predicate Serial(cfg: Config, s: State) {
    && (forall d :: |Holders(s, d)| <= cfg.perDomainConcurrency)
    && (forall id :: id in s.fetches && s.fetches[id].Sleeping? ==> cfg.retries > 0)
    && (cfg.retries > 0 ==> forall id :: id in s.fetches && Underway(s.fetches[id]) ==>
          Permits(s.history, s.fetches[id].domain, s.now))
    && (forall i :: 0 <= i < |s.starts| ==> Permitted(s.history, s.starts[i]))
  }

  predicate Underway(f: Fetch) {
    f.Attempting? || f.Sleeping?
  }

  lemma OneHolder(s: State, d: Domain, id: FetchId, id': FetchId)
    requires |Holders(s, d)| <= 1 && id in Holders(s, d) && id' in Holders(s, d)
    ensures id == id'
  {
    var others := Holders(s, d) - {id};
    assert |others| == |Holders(s, d)| - 1;
    assert others == {};
    assert id' !in others;
  }

  /** A fetch that is not admitted by a step holds no semaphore after it that it did not hold before. */
  lemma HoldersGrowByAdmission(cfg: Config, s: State, e: Event, d: Domain)
    requires Enabled(cfg, s, e)
    ensures Holders(Apply(cfg, s, e), d) <=
              if e.Admit? && s.fetches[e.id].domain == d then Holders(s, d) + {e.id} else Holders(s, d)
  {
  }

  lemma SemaphoreBounds(cfg: Config, s: State, e: Event, d: Domain)
    requires Enabled(cfg, s, e) && |Holders(s, d)| <= cfg.perDomainConcurrency
    ensures |Holders(Apply(cfg, s, e), d)| <= cfg.perDomainConcurrency
  {
    HoldersGrowByAdmission(cfg, s, e, d);
    if e.Admit? && s.fetches[e.id].domain == d {
      SubsetIsNoLarger(Holders(Apply(cfg, s, e), d), Holders(s, d) + {e.id});
    } else {
      SubsetIsNoLarger(Holders(Apply(cfg, s, e), d), Holders(s, d));
    }
  }

  /** Permissions survive a step of another fetch: it holds the semaphore of another domain. */
  lemma OthersKeepPermission(cfg: Config, s: State, e: Event, id: FetchId)
    requires Enabled(cfg, s, e) && Serial(cfg, s) && cfg.perDomainConcurrency <= 1 && cfg.retries > 0
    requires id in s.fetches && Underway(s.fetches[id]) && (e.Tick? || e.id != id)
    ensures Permits(Apply(cfg, s, e).history, s.fetches[id].domain, Apply(cfg, s, e).now)
  {
    var s' := Apply(cfg, s, e);
    var d := s.fetches[id].domain;
    assert id in Holders(s, d);
    if s'.history != s.history {
      assert e.id in Holders(s, s.fetches[e.id].domain);
      if s.fetches[e.id].domain == d { OneHolder(s, d, id, e.id); }
      OtherDomainsDoNotMatter(s.history, s'.history[|s.history|], d, s.now);
      assert s'.history == s.history + [s'.history[|s.history|]];
    }
  }

  lemma UnderwayKeepsPermission(cfg: Config, s: State, e: Event, id: FetchId)
    requires Safe(cfg) && Sound(s) && Serial(cfg, s) && Enabled(cfg, s, e) && cfg.retries > 0
    requires id in Apply(cfg, s, e).fetches && Underway(Apply(cfg, s, e).fetches[id])
    ensures Permits(Apply(cfg, s, e).history, Apply(cfg, s, e).fetches[id].domain, Apply(cfg, s, e).now)
  {
    if e.Tick? || e.id != id {
      OthersKeepPermission(cfg, s, e, id);
    } else if e.Admit? {
      OpenIsWhatHistorySays(s.circuit, s.history, s.fetches[id].domain, s.now);
    }
  }

  lemma StartsStayPermitted(cfg: Config, s: State, e: Event, i: nat)
    requires Safe(cfg) && Sound(s) && Serial(cfg, s) && Enabled(cfg, s, e) && i < |Apply(cfg, s, e).starts|
    ensures Permitted(Apply(cfg, s, e).history, Apply(cfg, s, e).starts[i])
  {
    var s' := Apply(cfg, s, e);
    StepKeepsSound(cfg, s, e);
    if i < |s.starts| {
      PermissionIsLasting(s.history, s'.history, s'.starts[i]);
    } else {
      assert s.history[..|s.history|] == s.history;
    }
  }

  lemma StepKeepsSerial(cfg: Config, s: State, e: Event)
    requires Safe(cfg) && Sound(s) && Serial(cfg, s) && Enabled(cfg, s, e)
    ensures Serial(cfg, Apply(cfg, s, e))
  {
    var s' := Apply(cfg, s, e);
    forall d ensures |Holders(s', d)| <= cfg.perDomainConcurrency {
      SemaphoreBounds(cfg, s, e, d);
    }
    forall id | cfg.retries > 0 && id in s'.fetches && Underway(s'.fetches[id])
      ensures Permits(s'.history, s'.fetches[id].domain, s'.now)
    {
      UnderwayKeepsPermission(cfg, s, e, id);
    }
    forall i | 0 <= i < |s'.starts| ensures Permitted(s'.history, s'.starts[i]) {
      StartsStayPermitted(cfg, s, e, i);
    }
  }

  lemma {:induction false} RunIsSerial(cfg: Config, ss: seq<State>, es: seq<Event>, i: nat)
    requires Safe(cfg) && Run(cfg, ss, es) && i < |ss|
    ensures Serial(cfg, ss[i])
  {
    if i == 0 {
      assert forall d :: Holders(INITIAL, d) == {};
    } else {
      RunIsSerial(cfg, ss, es, i - 1);
      RunIsSound(cfg, ss, es, i - 1);
      StepKeepsSerial(cfg, ss[i-1], es[i-1]);
    }
  }

  /** A request, first attempt or retry, that went out while the breaker was open. */
  ghost predicate SlipsThrough(cfg: Config, s: State) {
    Reachable(cfg, s) && exists i :: 0 <= i < |s.starts| && !Permitted(s.history, s.starts[i])
  }

  lemma SafeConfigurationsHoldBackEveryRequest(cfg: Config, s: State)
    requires Safe(cfg)
    ensures !SlipsThrough(cfg, s)
  {
    if Reachable(cfg, s) {
      var ss, es :| Run(cfg, ss, es) && ss[|ss| - 1] == s;
      RunIsSerial(cfg, ss, es, |ss| - 1);
    }
  }

  /** Every attempt from this one on fails, each retry after a pause: one more recorded failure. */
  lemma {:induction false} AttemptsFail(cfg: Config, s: State, id: FetchId, d: Domain, attempt: nat, pause: nat)
    returns (s': State)
    requires Reachable(cfg, s) && id in s.fetches && s.fetches[id] == Attempting(d, attempt) && attempt <= cfg.retries
    ensures Reachable(cfg, s') && s'.now >= s.now && s'.history == s.history + [Transient(d, s'.now)]
    ensures s'.circuit == RecordTransient(s.circuit, d, s'.now) && s'.fetches == s.fetches[id := Finished]
    decreases cfg.retries - attempt
  {
    StepIsReachable(cfg, s, Fail(id, true, false));
    s' := Apply(cfg, s, Fail(id, true, false));
    if attempt < cfg.retries {
      StepIsReachable(cfg, s', Tick(s.now + pause));
      s' := Apply(cfg, s', Tick(s.now + pause));
      StepIsReachable(cfg, s', Retry(id));
      s' := Apply(cfg, s', Retry(id));
      assert s'.fetches[id := Finished] == s.fetches[id := Finished];
      s' := AttemptsFail(cfg, s', id, d, attempt + 1, pause);
    }
  }

  /** A whole fetch of domain `d`, admitted beside the fetches already there, all of whose attempts fail. */
  lemma OneMoreFailure(cfg: Config, s: State, id: FetchId, d: Domain, pause: nat) returns (s': State)
    requires Reachable(cfg, s) && id !in s.fetches && d !in s.circuit.openUntil
    requires |Holders(s, d)| < cfg.perDomainConcurrency
    ensures Reachable(cfg, s') && s'.history == s.history + [Transient(d, s'.now)]
    ensures s'.circuit == RecordTransient(s.circuit, d, s'.now)
    ensures s'.fetches == s.fetches[id := Finished] && Holders(s', d) == Holders(s, d)
  {
    StepIsReachable(cfg, s, Arrive(id, d));
    var s1 := Apply(cfg, s, Arrive(id, d));
    assert Holders(s1, d) == Holders(s, d);
    StepIsReachable(cfg, s1, Admit(id));
    var s2 := Apply(cfg, s1, Admit(id));
    s' := AttemptsFail(cfg, s2, id, d, 0, pause);
    assert s'.fetches == s.fetches[id := Finished];
    assert Holders(s', d) == Holders(s, d);
  }

  const BUSY := "example.org"

  /** During the first attempt of one fetch, three others fail and open the circuit. */
  lemma CircuitOpensDuringAnAttempt(cfg: Config, pause: nat) returns (s: State)
    requires !Safe(cfg)
    ensures Reachable(cfg, s) && 0 in s.fetches && s.fetches[0] == Attempting(BUSY, 0)
    ensures s.circuit.openUntil == map[BUSY := s.now + OPEN_SECONDS]
  {
    assert Run(cfg, [INITIAL], []);
    assert Reachable(cfg, INITIAL);
    assert Holders(INITIAL, BUSY) == {};
    StepIsReachable(cfg, INITIAL, Arrive(0, BUSY));
    var s0 := Apply(cfg, INITIAL, Arrive(0, BUSY));
    assert Holders(s0, BUSY) == {};
    StepIsReachable(cfg, s0, Admit(0));
    var s1 := Apply(cfg, s0, Admit(0));
    assert Holders(s1, BUSY) == {0};
    var s2 := OneMoreFailure(cfg, s1, 1, BUSY, pause);
    var s3 := OneMoreFailure(cfg, s2, 2, BUSY, pause);
    s := OneMoreFailure(cfg, s3, 3, BUSY, pause);
  }

  /** With retries and two fetches per domain, a fetch whose first attempt fails just after three others
      have failed sends its retry to a domain whose breaker is open. Every retry comes after the same
      pause, of any length below the minute for which the breaker stays open. */
  lemma RetriesSlipThrough(cfg: Config, pause: nat) returns (s: State)
    requires !Safe(cfg) && pause < OPEN_SECONDS
    ensures SlipsThrough(cfg, s)
  {
    var busy := CircuitOpensDuringAnAttempt(cfg, pause);
    StepIsReachable(cfg, busy, Fail(0, true, false));
    var asleep := Apply(cfg, busy, Fail(0, true, false));
    StepIsReachable(cfg, asleep, Tick(busy.now + pause));
    var awake := Apply(cfg, asleep, Tick(busy.now + pause));
    StepIsReachable(cfg, awake, Retry(0));
    s := Apply(cfg, awake, Retry(0));
    var ss, es :| Run(cfg, ss, es) && ss[|ss| - 1] == awake;
    RunIsSound(cfg, ss, es, |ss| - 1);
    OpenIsWhatHistorySays(awake.circuit, awake.history, BUSY, awake.now);
    assert s.history[..|awake.history|] == awake.history;
    assert !Permitted(s.history, s.starts[|awake.starts|]);
  }

  /** The breaker holds back every request, retries included, exactly in the configurations without
      retries or with at most one fetch per domain at a time. */
  lemma BreakerCoversRetriesIffSafe(cfg: Config)
    ensures (forall s :: !SlipsThrough(cfg, s)) <==> Safe(cfg)
  {
    if Safe(cfg) {
      forall s ensures !SlipsThrough(cfg, s) {
        SafeConfigurationsHoldBackEveryRequest(cfg, s);
      }
    } else {
      var s := RetriesSlipThrough(cfg, 1);
    }
  }
}
