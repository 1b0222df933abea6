/** What fetches and their steps leave in the breaker's history, and when the history keeps requests back. */
module BreakerHistory {
  import opened Wrappers
  import CB = CircuitBreaker
  import opened HttpFetcher

  // ---------- The last outcomes of a domain ----------

  /** The outcomes recorded for one domain, in order. */
  function Of(history: seq<CB.Record>, d: CB.Domain): (r: seq<CB.Record>)
    ensures forall i :: 0 <= i < |r| ==> r[i].domain == d
  {
    if history == [] then []
    else
      var last := history[|history|-1];
      Of(history[..|history|-1], d) + if last.domain == d then [last] else []
  }

  /** The last `n` outcomes are transient failures. */
  ghost predicate EndsInFailures(outcomes: seq<CB.Record>, n: nat) {
    n <= |outcomes| && forall i :: |outcomes| - n <= i < |outcomes| ==> outcomes[i].Transient?
  }

  lemma {:induction false} TrailingFailuresAreTheLast(history: seq<CB.Record>, d: CB.Domain, n: nat)
    ensures CB.TrailingFailures(history, d) >= n <==> EndsInFailures(Of(history, d), n)
  {
    if history != [] && n > 0 {
      var before, last := history[..|history|-1], history[|history|-1];
      if last.domain != d {
        TrailingFailuresAreTheLast(before, d, n);
        assert Of(history, d) == Of(before, d);
      } else {
        TrailingFailuresAreTheLast(before, d, n - 1);
        var outcomes := Of(before, d);
        assert Of(history, d) == outcomes + [last];
        if EndsInFailures(outcomes + [last], n) {
          assert (outcomes + [last])[|outcomes|] == last;
          forall i | |outcomes| - (n - 1) <= i < |outcomes| ensures outcomes[i].Transient? {
            assert (outcomes + [last])[i] == outcomes[i];
          }
        }
      }
    }
  }

  lemma {:induction false} LastFailureIsTheLast(history: seq<CB.Record>, d: CB.Domain)
    requires Of(history, d) != [] && Of(history, d)[|Of(history, d)|-1].Transient?
    ensures CB.LastFailure(history, d) == Of(history, d)[|Of(history, d)|-1].at
  {
    if history[|history|-1].domain != d { LastFailureIsTheLast(history[..|history|-1], d); }
  }

  /** Requests are kept back exactly while the last three outcomes of the domain are transient failures and less than
      a minute has passed since the last of them. */
  lemma KeptBackIff(history: seq<CB.Record>, d: CB.Domain, now: CB.Time)
    ensures var outcomes := Of(history, d);
            !CB.Permits(history, d, now)
            <==> EndsInFailures(outcomes, 3) && now < outcomes[|outcomes|-1].at + 60
  {
    TrailingFailuresAreTheLast(history, d, 3);
    var outcomes := Of(history, d);
    if EndsInFailures(outcomes, 3) {
      assert outcomes[|outcomes|-1].Transient?;
      LastFailureIsTheLast(history, d);
    }
  }

  // ---------- What one fetch leaves ----------

  /** The statuses that may pass: time-out, too early, too many requests, and the server's own failures but for those
      that say it cannot do what is asked. */
  predicate MayPass(code: nat) {
    code in [408, 425, 429] || code == 500 || 502 <= code <= 504
  }

  /** The history after a fetch: an unsafe URL leaves nothing; a failure that may pass is one more failure in the row; a
      page, or a failure that will not pass, ends the row. */
  ghost predicate Leaves(history: seq<CB.Record>, after: seq<CB.Record>, d: CB.Domain, now: CB.Time, r: Result) {
    match r
    case Fetched(_, _, _) => CB.TrailingFailures(after, d) == 0
    case Failed(UnsafeUrl) => after == history
    case Failed(FetchError(_)) => CB.TrailingFailures(after, d) == 0
    case Failed(HttpStatus(code)) =>
      if MayPass(code) then OneMore(history, after, d, now) else CB.TrailingFailures(after, d) == 0
    case Failed(_) => OneMore(history, after, d, now)
  }

  ghost predicate OneMore(history: seq<CB.Record>, after: seq<CB.Record>, d: CB.Domain, now: CB.Time) {
    CB.TrailingFailures(after, d) == CB.TrailingFailures(history, d) + 1 && CB.LastFailure(after, d) == now
  }

  function WithRecord(history: seq<CB.Record>, record: Option<CB.Record>): seq<CB.Record> {
    match record
    case None => history
    case Some(r) => history + [r]
  }

  /** A fetch leaves what its result says, and nothing for other domains. */
  lemma FetchLeavesItsResult(history: seq<CB.Record>, d: CB.Domain, now: CB.Time, r: Result, other: CB.Domain)
    ensures var after := WithRecord(history, RecordOf(d, now, r));
            Leaves(history, after, d, now, r) && (other != d ==> Of(after, other) == Of(history, other))
  {
    var record := RecordOf(d, now, r);
    if record.Some? { assert (history + [record.value])[..|history|] == history; }
  }

  // ---------- What one step leaves ----------

  /** Whose outcome a step records, and whether as a failure that may pass. */
  function Outcome(cfg: CB.Config, s: CB.State, e: CB.Event): Option<(CB.Domain, bool)>
    requires CB.Enabled(cfg, s, e)
  {
    match e
    case Succeed(id, _) => Some((s.fetches[id].domain, false))
    case Fail(id, transient, own) =>
      if own || (transient && s.fetches[id].attempt < cfg.retries) then None
      else Some((s.fetches[id].domain, transient))
    case TimeOut(id) => Some((s.fetches[id].domain, true))
    case Close(id) =>
      if s.fetches[id].pending.Some? then Some((s.fetches[id].domain, s.fetches[id].pending.value)) else None
    case _ => None
  }

  lemma StepLogs(cfg: CB.Config, s: CB.State, e: CB.Event)
    requires CB.Enabled(cfg, s, e)
    ensures CB.Apply(cfg, s, e).history
            == match Outcome(cfg, s, e)
               case None => s.history
               case Some((d, transient)) => s.history + [CB.Failure(d, transient, s.now)]
  {
  }

  lemma LoggingLeaves(history: seq<CB.Record>, d: CB.Domain, transient: bool, now: CB.Time, other: CB.Domain)
    ensures var after := history + [CB.Failure(d, transient, now)];
            && (if transient then OneMore(history, after, d, now) else CB.TrailingFailures(after, d) == 0)
            && (other != d ==> Of(after, other) == Of(history, other))
  {
    assert (history + [CB.Failure(d, transient, now)])[..|history|] == history;
  }

  /** In every step, a success ends the domain's row of failures, as does a failure that will not pass; a time-out, and
      a failure that may pass once its retries are used up, are one more; arriving, being admitted, retrying, giving up
      and waiting leave nothing; and no step touches another domain. */
  lemma StepLeavesItsOutcome(cfg: CB.Config, s: CB.State, e: CB.Event, other: CB.Domain)
    requires CB.Enabled(cfg, s, e)
    ensures var after := CB.Apply(cfg, s, e).history;
            match Outcome(cfg, s, e)
            case None => after == s.history
            case Some((d, transient)) =>
              && (if transient then OneMore(s.history, after, d, s.now) else CB.TrailingFailures(after, d) == 0)
              && (other != d ==> Of(after, other) == Of(s.history, other))
  {
    StepLogs(cfg, s, e);
    match Outcome(cfg, s, e)
    case None =>
    case Some((d, transient)) => LoggingLeaves(s.history, d, transient, s.now, other);
  }
}
