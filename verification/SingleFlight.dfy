/** Single-flight request coalescing: concurrent callers that ask for the same key share one task. */
module SingleFlight {
  import opened Wrappers

  // The protocol is a state machine whose steps are the stretches of code between two awaits: a caller
  // joins, a task settles, a waiting caller resumes (with the task's outcome or because it was
  // interrupted), and the last caller to leave waits until the task has settled. `Coalescer` is the
  // code that makes those steps, on a registry of mutable flight objects.

  type Key = string
  type CallerId = nat

  datatype Outcome = Value(payload: string) | Raised(error: string) | Cancelled

  datatype Flight = Flight(key: Key, waiters: int, outcome: Option<Outcome>, cancelRequested: bool)

  /** Where a call stands. `last` marks the caller whose departure brought the waiters to zero. */
  datatype Caller =
    | Waiting(flight: nat)
    | Draining(flight: nat, pending: Outcome)
    | Returned(flight: nat, outcome: Outcome, last: bool)

  datatype State = State(flights: seq<Flight>, registry: map<Key, nat>, callers: map<CallerId, Caller>)

  datatype Event =
    | Call(caller: CallerId, key: Key)
    | Settle(flight: nat, outcome: Outcome)
    | Resume(caller: CallerId)
    | Interrupt(caller: CallerId)
    | Drained(caller: CallerId)

  const INITIAL := State([], map[], map[])

  predicate Enabled(s: State, e: Event) {
    match e
    case Call(c, _) => c !in s.callers
    case Settle(f, _) => f < |s.flights| && s.flights[f].outcome.None?
    case Resume(c) =>
      && c in s.callers && s.callers[c].Waiting?
      && s.callers[c].flight < |s.flights| && s.flights[s.callers[c].flight].outcome.Some?
    case Interrupt(c) =>
      c in s.callers && !s.callers[c].Returned? && s.callers[c].flight < |s.flights|
    case Drained(c) =>
      && c in s.callers && s.callers[c].Draining?
      && s.callers[c].flight < |s.flights| && s.flights[s.callers[c].flight].outcome.Some?
  }

  function Joined(s: State, c: CallerId, key: Key): State
    requires key in s.registry ==> s.registry[key] < |s.flights|
  {
    if key in s.registry then
      var f := s.registry[key];
      s.(flights := s.flights[f := s.flights[f].(waiters := s.flights[f].waiters + 1)],
         callers := s.callers[c := Waiting(f)])
    else
      var f := |s.flights|;
      State(s.flights + [Flight(key, 1, None, false)], s.registry[key := f], s.callers[c := Waiting(f)])
  }

  /** The `finally` block, up to its await. */
  function Departed(s: State, c: CallerId, result: Outcome): State
    requires c in s.callers && s.callers[c].flight < |s.flights|
  {
    var f := s.callers[c].flight;
    var flight := s.flights[f];
    if flight.waiters - 1 == 0 then
      State(
        s.flights[f := flight.(waiters := 0, cancelRequested := flight.cancelRequested || flight.outcome.None?)],
        if flight.key in s.registry && s.registry[flight.key] == f then s.registry - {flight.key} else s.registry,
        s.callers[c := Draining(f, result)])
    else
      s.(flights := s.flights[f := flight.(waiters := flight.waiters - 1)],
         callers := s.callers[c := Returned(f, result, false)])
  }

  function Apply(s: State, e: Event): State
    requires Enabled(s, e)
    requires forall k :: k in s.registry ==> s.registry[k] < |s.flights|
  {
    match e
    case Call(c, key) => Joined(s, c, key)
    case Settle(f, o) => s.(flights := s.flights[f := s.flights[f].(outcome := Some(o))])
    case Resume(c) => Departed(s, c, s.flights[s.callers[c].flight].outcome.value)
    case Interrupt(c) =>
      if s.callers[c].Waiting? then Departed(s, c, Cancelled)
      else s.(callers := s.callers[c := Draining(s.callers[c].flight, Cancelled)])
    case Drained(c) =>
      s.(callers := s.callers[c := Returned(s.callers[c].flight, s.callers[c].pending, true)])
  }

  // ---------- The invariant ----------

  function WaitersOf(s: State, f: nat): set<CallerId> {
    set c | c in s.callers && s.callers[c] == Waiting(f)
  }

  predicate Registered(s: State, f: nat)
    requires f < |s.flights|
  {
    s.flights[f].key in s.registry && s.registry[s.flights[f].key] == f
  }

  ghost predicate HasDrainer(s: State, f: nat) {
    exists c :: c in s.callers && s.callers[c].Draining? && s.callers[c].flight == f
  }

  ghost predicate FlightInv(s: State, f: nat)
    requires f < |s.flights|
  {
    var flight := s.flights[f];
    && flight.waiters == |WaitersOf(s, f)|
    && (Registered(s, f) <==> flight.waiters > 0)
    && (flight.cancelRequested ==> flight.waiters == 0)
    && (flight.waiters == 0 && flight.outcome.None? ==> flight.cancelRequested && HasDrainer(s, f))
  }

  ghost predicate CallerInv(s: State, c: CallerId)
    requires c in s.callers
  {
    var caller := s.callers[c];
    && caller.flight < |s.flights|
    && var flight := s.flights[caller.flight];
       match caller
       case Waiting(_) => true
       case Draining(_, pending) =>
         flight.waiters == 0 && (pending == Cancelled || flight.outcome == Some(pending))
       case Returned(_, outcome, last) =>
         && (outcome == Cancelled || flight.outcome == Some(outcome))
         && (last ==> flight.outcome.Some?)
  }

  ghost predicate RegistryInv(s: State) {
    forall k :: k in s.registry ==> s.registry[k] < |s.flights| && s.flights[s.registry[k]].key == k
  }

  ghost predicate Inv(s: State) {
    && RegistryInv(s)
    && (forall f :: 0 <= f < |s.flights| ==> FlightInv(s, f))
    && (forall c :: c in s.callers ==> CallerInv(s, c))
  }

  lemma WaitersAfterMove(s: State, s': State, c: CallerId, f: nat)
    requires c in s'.callers && s'.callers == s.callers[c := s'.callers[c]]
    ensures s'.callers[c] == Waiting(f) ==> WaitersOf(s', f) == WaitersOf(s, f) + {c}
    ensures s'.callers[c] != Waiting(f) ==> WaitersOf(s', f) == WaitersOf(s, f) - {c}
  {
  }

  lemma DrainersStay(s: State, s': State, c: CallerId, f: nat)
    requires c !in s.callers && c in s'.callers && s'.callers == s.callers[c := s'.callers[c]]
    requires HasDrainer(s, f)
    ensures HasDrainer(s', f)
  {
    var d :| d in s.callers && s.callers[d].Draining? && s.callers[d].flight == f;
    assert d in s'.callers && s'.callers[d].Draining? && s'.callers[d].flight == f;
  }

  lemma NobodyAwaitsANewFlight(s: State)
    requires Inv(s)
    ensures WaitersOf(s, |s.flights|) == {}
  {
    forall d | d in s.callers ensures s.callers[d] != Waiting(|s.flights|) { assert CallerInv(s, d); }
  }

  lemma JoinKeepsFlight(s: State, c: CallerId, key: Key, f: nat)
    requires Inv(s) && c !in s.callers && f < |s.flights|
    ensures FlightInv(Joined(s, c, key), f)
  {
    var s' := Joined(s, c, key);
    WaitersAfterMove(s, s', c, f);
    assert FlightInv(s, f);
    if HasDrainer(s, f) { DrainersStay(s, s', c, f); }
  }

  lemma JoinStartsFlight(s: State, c: CallerId, key: Key)
    requires Inv(s) && c !in s.callers && key !in s.registry
    ensures FlightInv(Joined(s, c, key), |s.flights|)
  {
    NobodyAwaitsANewFlight(s);
    WaitersAfterMove(s, Joined(s, c, key), c, |s.flights|);
  }

  lemma JoinKeepsInv(s: State, c: CallerId, key: Key)
    requires Inv(s) && c !in s.callers
    ensures Inv(Joined(s, c, key))
  {
    var s' := Joined(s, c, key);
    forall f | 0 <= f < |s'.flights| ensures FlightInv(s', f) {
      if f < |s.flights| { JoinKeepsFlight(s, c, key, f); } else { JoinStartsFlight(s, c, key); }
    }
    forall d | d in s'.callers ensures CallerInv(s', d) {
      if d != c { assert CallerInv(s, d) && FlightInv(s, s.callers[d].flight); }
    }
  }

  lemma LeaveKeepsInv(s: State, c: CallerId, result: Outcome)
    requires Inv(s) && c in s.callers && s.callers[c].Waiting? && s.callers[c].flight < |s.flights|
    requires result == Cancelled || s.flights[s.callers[c].flight].outcome == Some(result)
    ensures Inv(Departed(s, c, result))
    ensures s.registry.Keys >= Departed(s, c, result).registry.Keys
  {
    var s' := Departed(s, c, result);
    var g := s.callers[c].flight;
    assert FlightInv(s, g) && c in WaitersOf(s, g);
    forall f | 0 <= f < |s'.flights| ensures FlightInv(s', f) {
      WaitersAfterMove(s, s', c, f);
      assert FlightInv(s, f);
      if f == g {
        if s'.flights[f].waiters == 0 {
          assert s'.callers[c].Draining? && s'.callers[c].flight == f;
        }
      } else {
        assert c !in WaitersOf(s, f);
        assert WaitersOf(s', f) == WaitersOf(s, f);
        if HasDrainer(s, f) {
          var d :| d in s.callers && s.callers[d].Draining? && s.callers[d].flight == f;
          assert d in s'.callers && s'.callers[d].Draining? && s'.callers[d].flight == f;
        }
      }
    }
    forall d | d in s'.callers ensures CallerInv(s', d) {
      if d != c { assert CallerInv(s, d); }
    }
  }

  lemma SettleKeepsInv(s: State, f: nat, o: Outcome)
    requires Inv(s) && Enabled(s, Settle(f, o))
    ensures Inv(Apply(s, Settle(f, o)))
  {
    var s' := Apply(s, Settle(f, o));
    forall g | 0 <= g < |s'.flights| ensures FlightInv(s', g) {
      assert FlightInv(s, g);
      assert WaitersOf(s', g) == WaitersOf(s, g);
      if HasDrainer(s, g) {
        var d :| d in s.callers && s.callers[d].Draining? && s.callers[d].flight == g;
        assert d in s'.callers && s'.callers[d].Draining? && s'.callers[d].flight == g;
      }
    }
    forall d | d in s'.callers ensures CallerInv(s', d) {
      assert CallerInv(s, d);
    }
  }

  /** A caller that is already draining is interrupted, or finishes because the task has settled. */
  lemma DrainKeepsInv(s: State, e: Event)
    requires Inv(s) && Enabled(s, e) && (e.Drained? || (e.Interrupt? && s.callers[e.caller].Draining?))
    ensures Inv(Apply(s, e))
  {
    var s' := Apply(s, e);
    forall g | 0 <= g < |s'.flights| ensures FlightInv(s', g) {
      assert FlightInv(s, g);
      assert WaitersOf(s', g) == WaitersOf(s, g);
      if s.flights[g].waiters == 0 && s.flights[g].outcome.None? {
        var d :| d in s.callers && s.callers[d].Draining? && s.callers[d].flight == g;
        assert d in s'.callers && s'.callers[d].Draining? && s'.callers[d].flight == g;
      }
    }
    forall d | d in s'.callers ensures CallerInv(s', d) {
      assert CallerInv(s, d);
      assert CallerInv(s, e.caller);
    }
  }

  /** Every step, by any caller and any task, in any order, keeps the invariant. */
  lemma StepKeepsInv(s: State, e: Event)
    requires Inv(s) && Enabled(s, e)
    ensures Inv(Apply(s, e))
  {
    match e
    case Call(c, key) => JoinKeepsInv(s, c, key);
    case Settle(f, o) => SettleKeepsInv(s, f, o);
    case Resume(c) => LeaveKeepsInv(s, c, s.flights[s.callers[c].flight].outcome.value);
    case Interrupt(c) => if s.callers[c].Waiting? { LeaveKeepsInv(s, c, Cancelled); } else { DrainKeepsInv(s, e); }
    case Drained(c) => DrainKeepsInv(s, e);
  }

  // ---------- Runs ----------

  /** A run of the protocol: the states passed through and the events between them. */
  ghost predicate Run(ss: seq<State>, es: seq<Event>) {
    && |ss| == |es| + 1
    && ss[0] == INITIAL
    && forall i :: 0 <= i < |es| ==>
         RegistryInv(ss[i]) && Enabled(ss[i], es[i]) && ss[i+1] == Apply(ss[i], es[i])
  }

  lemma {:induction false} RunKeepsInv(ss: seq<State>, es: seq<Event>, i: nat)
    requires Run(ss, es) && i < |ss|
    ensures Inv(ss[i])
  {
    if i > 0 {
      RunKeepsInv(ss, es, i - 1);
      StepKeepsInv(ss[i-1], es[i-1]);
    }
  }

  /** Nothing that can happen is left out of the runs: whatever is enabled after a run continues it. */
  lemma EveryEnabledEventContinues(ss: seq<State>, es: seq<Event>, e: Event)
    requires Run(ss, es) && Enabled(ss[|ss|-1], e)
    ensures RegistryInv(ss[|ss|-1]) && Run(ss + [Apply(ss[|ss|-1], e)], es + [e])
  {
    RunKeepsInv(ss, es, |ss| - 1);
    var longer, events := ss + [Apply(ss[|ss|-1], e)], es + [e];
    forall i | 0 <= i < |events|
      ensures RegistryInv(longer[i]) && Enabled(longer[i], events[i]) && longer[i+1] == Apply(longer[i], events[i])
    {
      if i < |es| { assert longer[i] == ss[i] && longer[i+1] == ss[i+1] && events[i] == es[i]; }
    }
  }

  /** In every reachable state `waiters` counts the callers still awaiting the flight, and the
      registry holds exactly the flights that somebody awaits. */
  lemma RegistryIsExactlyTheAwaited(ss: seq<State>, es: seq<Event>, i: nat)
    requires Run(ss, es) && i < |ss|
    ensures forall f :: 0 <= f < |ss[i].flights| ==>
              && ss[i].flights[f].waiters == |WaitersOf(ss[i], f)|
              && (Registered(ss[i], f) <==> WaitersOf(ss[i], f) != {})
    ensures (forall c :: c in ss[i].callers ==> !ss[i].callers[c].Waiting?) ==> ss[i].registry == map[]
  {
    RunKeepsInv(ss, es, i);
    var s := ss[i];
    forall f | 0 <= f < |s.flights|
      ensures s.flights[f].waiters == |WaitersOf(s, f)| && (Registered(s, f) <==> WaitersOf(s, f) != {})
    {
      assert FlightInv(s, f);
    }
    if forall c :: c in s.callers ==> !s.callers[c].Waiting? {
      forall f | 0 <= f < |s.flights| ensures !Registered(s, f) {
        assert WaitersOf(s, f) == {};
      }
      assert forall k :: k in s.registry ==> Registered(s, s.registry[k]);
    }
  }

  /** At most one task per key is running without having been asked to cancel. */
  lemma OneLiveTaskPerKey(ss: seq<State>, es: seq<Event>, i: nat, f: nat, g: nat)
    requires Run(ss, es) && i < |ss| && f < |ss[i].flights| && g < |ss[i].flights|
    requires ss[i].flights[f].key == ss[i].flights[g].key
    requires ss[i].flights[f].outcome.None? && !ss[i].flights[f].cancelRequested
    requires ss[i].flights[g].outcome.None? && !ss[i].flights[g].cancelRequested
    ensures f == g
  {
    RunKeepsInv(ss, es, i);
    assert FlightInv(ss[i], f) && FlightInv(ss[i], g);
  }

  lemma StepKeepsHistory(s: State, e: Event, f: nat)
    requires Inv(s) && Enabled(s, e) && f < |s.flights|
    ensures var s' := Apply(s, e);
            && f < |s'.flights| && s'.flights[f].key == s.flights[f].key
            && (s.flights[f].waiters == 0 ==> s'.flights[f].waiters == 0)
            && (s.flights[f].outcome.Some? ==> s'.flights[f].outcome == s.flights[f].outcome)
            && (s.flights[f].cancelRequested ==> s'.flights[f].cancelRequested)
            && (s.flights[f].outcome.Some? ==> s'.flights[f].cancelRequested == s.flights[f].cancelRequested)
  {
    assert FlightInv(s, f);
    if e.Resume? || e.Interrupt? || e.Drained? {
      assert CallerInv(s, e.caller) && FlightInv(s, s.callers[e.caller].flight);
      assert s.callers[e.caller].Waiting? ==> e.caller in WaitersOf(s, s.callers[e.caller].flight);
    }
  }

  /** A flight nobody awaits is never joined again, an outcome, once there, never changes, and a task that
      has settled is not asked to cancel any more. */
  lemma {:induction false} HistoryIsStable(ss: seq<State>, es: seq<Event>, i: nat, j: nat, f: nat)
    requires Run(ss, es) && i <= j < |ss| && f < |ss[i].flights|
    ensures f < |ss[j].flights| && ss[j].flights[f].key == ss[i].flights[f].key
    ensures ss[i].flights[f].waiters == 0 ==> ss[j].flights[f].waiters == 0
    ensures ss[i].flights[f].outcome.Some? ==> ss[j].flights[f].outcome == ss[i].flights[f].outcome
    ensures ss[i].flights[f].outcome.Some? ==> ss[j].flights[f].cancelRequested == ss[i].flights[f].cancelRequested
    decreases j - i
  {
    if i < j {
      RunKeepsInv(ss, es, i);
      StepKeepsHistory(ss[i], es[i], f);
      HistoryIsStable(ss, es, i + 1, j, f);
    }
  }

  /** The protocol asks a task to cancel only once its last waiter has left, and from then on no
      caller ever awaits that flight. */
  lemma CancelledFlightsAreAbandoned(ss: seq<State>, es: seq<Event>, i: nat, j: nat, f: nat, c: CallerId)
    requires Run(ss, es) && i <= j < |ss| && f < |ss[i].flights| && ss[i].flights[f].cancelRequested
    ensures c in ss[j].callers ==> ss[j].callers[c] != Waiting(f)
    ensures f < |ss[j].flights| && !Registered(ss[j], f)
  {
    RunKeepsInv(ss, es, i);
    assert FlightInv(ss[i], f);
    HistoryIsStable(ss, es, i, j, f);
    RunKeepsInv(ss, es, j);
    assert FlightInv(ss[j], f);
    assert WaitersOf(ss[j], f) == {};
    assert c !in WaitersOf(ss[j], f);
  }

  // ---------- What a caller gets ----------

  /** What the call has got so far, once it has left its flight. */
  function Result(caller: Caller): Option<Outcome> {
    match caller
    case Waiting(_) => None
    case Draining(_, pending) => Some(pending)
    case Returned(_, outcome, _) => Some(outcome)
  }

  /** A caller that resumes leaves with exactly the outcome of its flight. */
  lemma ResumingTakesTheOutcome(ss: seq<State>, es: seq<Event>, i: nat, c: CallerId)
    requires Run(ss, es) && i < |es| && es[i] == Resume(c)
    ensures c in ss[i].callers && ss[i].callers[c].flight < |ss[i].flights| && c in ss[i+1].callers
    ensures ss[i+1].callers[c].flight == ss[i].callers[c].flight
    ensures ss[i].flights[ss[i].callers[c].flight].outcome.Some?
    ensures Result(ss[i+1].callers[c]) == ss[i].flights[ss[i].callers[c].flight].outcome
  {
  }

  ghost predicate NeverInterrupted(es: seq<Event>, c: CallerId, j: nat) {
    forall i :: 0 <= i < j && i < |es| ==> es[i] != Interrupt(c)
  }

  /** A caller that was never interrupted has the outcome of its flight as soon as it has left it. */
  lemma {:induction false} LeavingWithTheOutcome(ss: seq<State>, es: seq<Event>, j: nat, c: CallerId)
    requires Run(ss, es) && j < |ss| && c in ss[j].callers && NeverInterrupted(es, c, j)
    ensures ss[j].callers[c].flight < |ss[j].flights|
    ensures !ss[j].callers[c].Waiting? ==>
              ss[j].flights[ss[j].callers[c].flight].outcome.Some?
              && Result(ss[j].callers[c]) == ss[j].flights[ss[j].callers[c].flight].outcome
  {
    RunKeepsInv(ss, es, j);
    assert CallerInv(ss[j], c);
    if j > 0 && c in ss[j-1].callers {
      LeavingWithTheOutcome(ss, es, j - 1, c);
      RunKeepsInv(ss, es, j - 1);
      StepKeepsHistory(ss[j-1], es[j-1], ss[j-1].callers[c].flight);
      if es[j-1] == Resume(c) { ResumingTakesTheOutcome(ss, es, j - 1, c); }
    }
  }

  /** What a task settles with is what every caller of it returns that was never interrupted. */
  lemma UninterruptedCallersGetTheOutcome(ss: seq<State>, es: seq<Event>, i: nat, j: nat, c: CallerId, outcome: Outcome)
    requires Run(ss, es) && i < |es| && i < j < |ss| && c in ss[j].callers && ss[j].callers[c].Returned?
    requires es[i] == Settle(ss[j].callers[c].flight, outcome) && NeverInterrupted(es, c, j)
    ensures ss[j].callers[c].outcome == outcome
  {
    LeavingWithTheOutcome(ss, es, j, c);
    HistoryIsStable(ss, es, i + 1, j, ss[j].callers[c].flight);
  }

  /** A caller that was interrupted ends as cancelled, whatever its task does. */
  lemma {:induction false} InterruptedCallersAreCancelled(ss: seq<State>, es: seq<Event>, i: nat, j: nat, c: CallerId)
    requires Run(ss, es) && i < |es| && i < j < |ss| && es[i] == Interrupt(c)
    ensures c in ss[j].callers && Result(ss[j].callers[c]) == Some(Cancelled)
    decreases j
  {
    if j > i + 1 { InterruptedCallersAreCancelled(ss, es, i, j - 1, c); }
  }

  /** The caller whose departure leaves nobody waiting drains: it returns only after its task has settled. */
  lemma {:induction false} EmptyingCallerDrains(ss: seq<State>, es: seq<Event>, i: nat, j: nat, c: CallerId)
    requires Run(ss, es) && i < |es| && i < j < |ss| && (es[i] == Resume(c) || es[i] == Interrupt(c))
    requires c in ss[i].callers && ss[i].callers[c].Waiting?
    requires WaitersOf(ss[i], ss[i].callers[c].flight) == {c}
    ensures c in ss[j].callers && ss[j].callers[c].flight == ss[i].callers[c].flight
    ensures ss[j].callers[c].Draining? || (ss[j].callers[c].Returned? && ss[j].callers[c].last)
    decreases j
  {
    if j > i + 1 {
      EmptyingCallerDrains(ss, es, i, j - 1, c);
    } else {
      RunKeepsInv(ss, es, i);
      assert CallerInv(ss[i], c) && FlightInv(ss[i], ss[i].callers[c].flight);
    }
  }

  /** A caller that leaves others waiting returns at once, and its task is not asked to cancel. */
  lemma OthersKeepTheTask(ss: seq<State>, es: seq<Event>, i: nat, c: CallerId, d: CallerId)
    requires Run(ss, es) && i < |es| && (es[i] == Resume(c) || es[i] == Interrupt(c)) && c != d
    requires c in ss[i].callers && ss[i].callers[c].Waiting?
    requires d in ss[i].callers && ss[i].callers[d] == ss[i].callers[c]
    ensures ss[i+1].callers[c].Returned? && ss[i+1].callers[d] == ss[i].callers[d]
    ensures ss[i].callers[c].flight < |ss[i].flights| && !ss[i+1].flights[ss[i].callers[c].flight].cancelRequested
  {
    var f := ss[i].callers[c].flight;
    RunKeepsInv(ss, es, i);
    assert CallerInv(ss[i], c) && FlightInv(ss[i], f);
    assert {c, d} <= WaitersOf(ss[i], f);
    SubsetIsNoLarger({c, d}, WaitersOf(ss[i], f));
  }

  /** Two callers of one flight that return normally, however far apart, return the same value. */
  lemma CallersShareOneOutcome(ss: seq<State>, es: seq<Event>, i: nat, j: nat, c: CallerId, d: CallerId)
    requires Run(ss, es) && i <= j < |ss| && c in ss[i].callers && d in ss[j].callers
    requires ss[i].callers[c].Returned? && ss[j].callers[d].Returned?
    requires ss[i].callers[c].flight == ss[j].callers[d].flight
    requires ss[i].callers[c].outcome != Cancelled && ss[j].callers[d].outcome != Cancelled
    ensures ss[i].callers[c].outcome == ss[j].callers[d].outcome
  {
    RunKeepsInv(ss, es, i);
    RunKeepsInv(ss, es, j);
    assert CallerInv(ss[i], c) && CallerInv(ss[j], d);
    HistoryIsStable(ss, es, i, j, ss[i].callers[c].flight);
  }

  /** The caller that empties a flight returns only after its task has settled. */
  lemma LastLeaverWaitsForTheTask(ss: seq<State>, es: seq<Event>, i: nat, c: CallerId)
    requires Run(ss, es) && i < |ss| && c in ss[i].callers
    requires ss[i].callers[c].Returned? && ss[i].callers[c].last
    ensures ss[i].callers[c].flight < |ss[i].flights|
    ensures ss[i].flights[ss[i].callers[c].flight].outcome.Some?
  {
    RunKeepsInv(ss, es, i);
    assert CallerInv(ss[i], c);
  }

  /** No task outlives its callers: when every call has returned, every task ever started has
      settled and nothing is registered. */
  lemma QuiescentMeansNothingRuns(ss: seq<State>, es: seq<Event>, i: nat)
    requires Run(ss, es) && i < |ss|
    requires forall c :: c in ss[i].callers ==> ss[i].callers[c].Returned?
    ensures ss[i].registry == map[]
    ensures forall f :: 0 <= f < |ss[i].flights| ==> ss[i].flights[f].outcome.Some?
  {
    RegistryIsExactlyTheAwaited(ss, es, i);
    RunKeepsInv(ss, es, i);
    forall f | 0 <= f < |ss[i].flights| ensures ss[i].flights[f].outcome.Some? {
      assert FlightInv(ss[i], f);
      assert WaitersOf(ss[i], f) == {};
    }
  }

  predicate AwaitsKey(s: State, d: CallerId, key: Key) {
    && d in s.callers && s.callers[d].Waiting?
    && s.callers[d].flight < |s.flights| && s.flights[s.callers[d].flight].key == key
  }

  /** A call starts a task exactly when nobody is awaiting that key; otherwise it shares the flight
      that those callers await. */
  lemma CallCoalesces(ss: seq<State>, es: seq<Event>, i: nat, c: CallerId, key: Key)
    requires Run(ss, es) && i < |ss| && c !in ss[i].callers
    ensures RegistryInv(ss[i])
    ensures |Joined(ss[i], c, key).flights| == |ss[i].flights| + (if key in ss[i].registry then 0 else 1)
    ensures key in ss[i].registry <==> exists d :: AwaitsKey(ss[i], d, key)
    ensures forall d :: AwaitsKey(ss[i], d, key) ==> Joined(ss[i], c, key).callers[c] == ss[i].callers[d]
  {
    RunKeepsInv(ss, es, i);
    var s := ss[i];
    var s' := Joined(s, c, key);
    forall d | d in s.callers && s.callers[d].Waiting?
      ensures s.callers[d].flight < |s.flights| && Registered(s, s.callers[d].flight)
    {
      assert CallerInv(s, d) && FlightInv(s, s.callers[d].flight);
      assert d in WaitersOf(s, s.callers[d].flight);
    }
    if key in s.registry {
      var f := s.registry[key];
      assert FlightInv(s, f) && Registered(s, f);
      assert WaitersOf(s, f) != {};
      var d :| d in WaitersOf(s, f);
      assert AwaitsKey(s, d, key);
    }
  }

  // ---------- The code that makes the steps ----------

  /** A flight object: one started task and the number of callers awaiting it. */
  class FlightObject {
    ghost const id: nat
    const key: Key
    var waiters: int
    var outcome: Option<Outcome>
    var cancelRequested: bool

    constructor (ghost id: nat, key: Key)
      ensures this.id == id && this.key == key
      ensures waiters == 0 && outcome == None && !cancelRequested
    {
      this.id := id;
      this.key := key;
      waiters, outcome, cancelRequested := 0, None, false;
    }

    function View(): Flight
      reads this
    {
      Flight(key, waiters, outcome, cancelRequested)
    }
  }

  /** The registry of one kind of request. The ghost field `state` is the state of the protocol, and
      `Valid` ties the objects to it: `created[f]` is flight number `f`. */
  class Coalescer {
    var registry: map<Key, FlightObject>
    ghost var created: seq<FlightObject>
    ghost var state: State

    ghost predicate Valid()
      reads this, created
    {
      && |created| == |state.flights|
      && (forall f :: 0 <= f < |created| ==> created[f].id == f && created[f].View() == state.flights[f])
      && registry.Keys == state.registry.Keys
      && forall k :: k in registry ==> state.registry[k] < |created| && registry[k] == created[state.registry[k]]
    }

    constructor ()
      ensures Valid() && state == INITIAL
    {
      registry := map[];
      created := [];
      state := INITIAL;
    }

    /** A flight for a key that nobody awaits, registered and not yet awaited. */
    method StartFlight(key: Key) returns (flight: FlightObject)
      requires Valid() && key !in registry
      modifies this`registry, this`created
      ensures fresh(flight) && flight.id == |old(created)| && flight.View() == Flight(key, 0, None, false)
      ensures created == old(created) + [flight] && registry == old(registry)[key := flight]
    {
      flight := new FlightObject(|created|, key);
      registry := registry[key := flight];
      created := created + [flight];
    }

    /** From the registry look-up to the await: find or start the flight and count this caller in. */
    method Join(ghost c: CallerId, key: Key) returns (flight: FlightObject)
      requires Valid() && c !in state.callers
      modifies this, created
      ensures Valid() && state == Apply(old(state), Call(c, key))
      ensures state.callers[c] == Waiting(flight.id)
      ensures created == old(created) || (created == old(created) + [flight] && fresh(flight))
    {
      if key in registry {
        flight := registry[key];
      } else {
        flight := StartFlight(key);
      }
      flight.waiters := flight.waiters + 1;
      state := Joined(state, c, key);
    }

    /** Takes a flight out of the registry, if it is the one registered, and cancels its task. */
    method Retire(flight: FlightObject)
      requires Valid() && flight.id < |created| && created[flight.id] == flight
      modifies this, flight
      ensures Valid() && created == old(created) && flight.waiters == old(flight.waiters)
      ensures var f := old(state).flights[flight.id];
              state == old(state).(
                flights := old(state).flights[flight.id := f.(cancelRequested := f.cancelRequested || f.outcome.None?)],
                registry := if Registered(old(state), flight.id) then old(state).registry - {f.key}
                  else old(state).registry)
    {
      ghost var f := state.flights[flight.id];
      assert flight.View() == f;
      state := state.(
        flights := state.flights[flight.id := f.(cancelRequested := f.cancelRequested || f.outcome.None?)],
        registry := if Registered(state, flight.id) then state.registry - {f.key} else state.registry);
      if flight.key in registry && registry[flight.key] == flight {
        registry := registry - {flight.key};
      }
      if flight.outcome.None? {
        flight.cancelRequested := true;
      }
    }

    /** The `finally` block: count this caller out; the last one retires the flight and drains it. */
    method Leave(ghost c: CallerId, flight: FlightObject, ghost interrupted: bool) returns (drains: bool)
      requires Valid() && c in state.callers && state.callers[c] == Waiting(flight.id)
      requires flight.id < |created| && created[flight.id] == flight
      requires !interrupted ==> flight.outcome.Some?
      modifies this, flight
      ensures Valid() && created == old(created)
      ensures state == Apply(old(state), if interrupted then Interrupt(c) else Resume(c))
      ensures drains <==> state.callers[c].Draining?
    {
      ghost var before := state;
      ghost var result := if interrupted then Cancelled else flight.outcome.value;
      assert flight.View() == before.flights[flight.id];
      flight.waiters := flight.waiters - 1;
      state := before.(flights := before.flights[flight.id := flight.View()]);
      drains := flight.waiters == 0;
      if drains {
        Retire(flight);
        state := state.(callers := state.callers[c := Draining(flight.id, result)]);
        assert state.flights == Departed(before, c, result).flights;
      } else {
        state := state.(callers := state.callers[c := Returned(flight.id, result, false)]);
      }
    }

    /** The event loop settles a task. */
    method SettleTask(flight: FlightObject, outcome: Outcome)
      requires Valid() && flight.id < |created| && created[flight.id] == flight && flight.outcome.None?
      modifies this`state, flight
      ensures Valid() && state == Apply(old(state), Settle(flight.id, outcome))
    {
      state := Apply(state, Settle(flight.id, outcome));
      flight.outcome := Some(outcome);
    }
  }
}
