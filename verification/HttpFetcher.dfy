/** The fetcher's loops: following redirects within one attempt, retrying within one fetch, and
    recording the outcome in the circuit-breaker dictionaries of module `CircuitBreaker`. */
module HttpFetcher {
  import opened Wrappers
  import CB = CircuitBreaker

  type Url = string

  datatype Error =
    | HttpStatus(code: nat)
    | RequestError
    | TimeoutError
    | FetchError(reason: string)
    | UnsafeUrl

  datatype Reply = Redirect(location: Option<Url>) | Failure(error: Error) | Page(body: string)

  datatype Result = Fetched(requestedUrl: Url, finalUrl: Url, body: string) | Failed(error: Error)

  const TRANSIENT_STATUS: set<nat> := {408, 425, 429, 500, 502, 503, 504}

  predicate IsTransient(e: Error) {
    match e
    case HttpStatus(code) => code in TRANSIENT_STATUS
    case RequestError => true
    case TimeoutError => true
    case FetchError(_) => false
    case UnsafeUrl => false
  }

  // ---------- One attempt: the redirect loop ----------

  /** The world an attempt talks to: the reply to the n-th request, how a location resolves against
      the current URL, and which URLs are allowed. */
  datatype Network = Network(reply: (nat, Url) -> Reply, resolve: (Url, Url) -> Url, allowed: Url -> bool)

  /** The URL of request number `hop`, as long as every earlier reply was a redirect with a location. */
  function Trail(net: Network, url: Url, hop: nat): Url {
    if hop == 0 then url
    else
      var from := Trail(net, url, hop - 1);
      match net.reply(hop - 1, from)
      case Redirect(Some(location)) => net.resolve(from, location)
      case _ => from
  }

  predicate Onward(net: Network, url: Url, hop: nat) {
    var reply := net.reply(hop, Trail(net, url, hop));
    reply.Redirect? && reply.location.Some?
  }

  /** The first `hops` requests go to allowed URLs and their replies all redirect somewhere. */
  ghost predicate Leads(net: Network, url: Url, hops: nat) {
    forall k :: 0 <= k < hops ==> net.allowed(Trail(net, url, k)) && Onward(net, url, k)
  }

  /** The possible endings of an attempt that sent `requests` requests: the trail led to a URL that is
      not allowed, to a reply that goes nowhere else, or on beyond the last permitted redirect. */
  ghost predicate Ends(net: Network, url: Url, maxRedirects: nat, requests: nat, r: Result) {
    || (requests <= maxRedirects && Leads(net, url, requests) && !net.allowed(Trail(net, url, requests))
        && r == Failed(UnsafeUrl))
    || (0 < requests <= maxRedirects + 1
        && var last := Trail(net, url, requests - 1);
           && Leads(net, url, requests - 1) && net.allowed(last)
           && match net.reply(requests - 1, last)
              case Redirect(None) => r == Failed(FetchError("redirect had no destination"))
              case Redirect(Some(_)) =>
                requests == maxRedirects + 1 && r == Failed(FetchError("maximum redirects exceeded"))
              case Failure(error) => r == Failed(error)
              case Page(body) => r == Fetched(url, last, body))
  }

  lemma EndingIsUnique(net: Network, url: Url, max: nat, n: nat, r: Result, n': nat, r': Result)
    requires Ends(net, url, max, n, r) && Ends(net, url, max, n', r')
    ensures n == n' && r == r'
  {
    if n < n' || n' < n { assert false; }
  }

  /** An attempt follows the trail of redirects to its end and sends no request to a URL that is not
      allowed, nor more than `maxRedirects + 1` requests in all. */
  method FetchOnce(net: Network, url: Url, maxRedirects: nat) returns (r: Result, requests: nat)
    ensures Ends(net, url, maxRedirects, requests, r)
  {
    var current := url;
    requests := 0;
    while requests <= maxRedirects
      invariant requests <= maxRedirects && current == Trail(net, url, requests)
      invariant Leads(net, url, requests)
      decreases maxRedirects - requests
    {
      if !net.allowed(current) {
        return Failed(UnsafeUrl), requests;
      }
      var reply := net.reply(requests, current);
      assert requests < maxRedirects && reply.Redirect? && reply.location.Some? ==> Leads(net, url, requests + 1);
      requests := requests + 1;
      match reply {
        case Redirect(None) =>
          return Failed(FetchError("redirect had no destination")), requests;
        case Redirect(Some(location)) =>
          if requests > maxRedirects {
            return Failed(FetchError("maximum redirects exceeded")), requests;
          }
          current := net.resolve(current, location);
        case Failure(error) =>
          return Failed(error), requests;
        case Page(body) =>
          return Fetched(url, current, body), requests;
      }
    }
  }

  /** A page is fetched exactly when one lies within `maxRedirects` redirects of the URL, along allowed
      URLs only. */
  lemma FetchedIffAPageIsWithinReach(net: Network, url: Url, max: nat, requests: nat, r: Result)
    requires Ends(net, url, max, requests, r)
    ensures r.Fetched? <==>
              exists k :: 0 <= k <= max && Leads(net, url, k) && net.allowed(Trail(net, url, k))
                && net.reply(k, Trail(net, url, k)).Page?
    ensures forall k :: 0 <= k < requests ==> net.allowed(Trail(net, url, k))
  {
    if k :| 0 <= k <= max && Leads(net, url, k) && net.allowed(Trail(net, url, k))
            && net.reply(k, Trail(net, url, k)).Page? {
      var last := Trail(net, url, k);
      EndingIsUnique(net, url, max, requests, r, k + 1, Fetched(url, last, net.reply(k, last).body));
    }
    if r.Fetched? {
      var k := requests - 1;
      assert 0 <= k <= max && Leads(net, url, k) && net.allowed(Trail(net, url, k))
        && net.reply(k, Trail(net, url, k)).Page?;
    }
  }

  // ---------- One fetch: the retry loop and the dictionaries ----------

  predicate Transient(r: Result) {
    r.Failed? && IsTransient(r.error)
  }

  /** How a fetch ends, given what its attempts would do: `attempts` of them were made, all but the
      last failing transiently, and the last one was not worth retrying or not allowed to be. */
  ghost predicate Decides(outcomes: nat -> Result, retries: nat, attempts: nat) {
    && 0 < attempts <= retries + 1
    && (forall k :: 0 <= k < attempts - 1 ==> Transient(outcomes(k)))
    && (Transient(outcomes(attempts - 1)) ==> attempts == retries + 1)
  }

  /** What happens around a fetch: when it arrives, gets its place and ends, what others record while it waits
      and while it is attempted, and how many attempts end before its time is up. */
  datatype Circumstances = Circumstances(arrived: CB.Time, admitted: CB.Time, ended: CB.Time,
    waiting: seq<CB.Record>, meanwhile: seq<CB.Record>, inTime: nat)

  /** A fetch is decided by its attempts, or its time is up while none of those made decides it. */
  ghost predicate Concludes(outcomes: nat -> Result, retries: nat, inTime: nat, attempts: nat, r: Result) {
    || (Decides(outcomes, retries, attempts) && attempts <= inTime && r == outcomes(attempts - 1))
    || (attempts == inTime <= retries && r == Failed(TimeoutError)
        && forall k :: 0 <= k < attempts ==> Transient(outcomes(k)))
  }

  /** What a decided fetch leaves in the breaker's history. A URL found unsafe escapes from the fetch
      before anything is recorded. */
  function RecordOf(domain: CB.Domain, now: CB.Time, r: Result): Option<CB.Record> {
    if r.Fetched? then Some(CB.Cleared(domain))
    else if r.error.UnsafeUrl? then None
    else if IsTransient(r.error) then Some(CB.Transient(domain, now))
    else Some(CB.Cleared(domain))
  }

  /** The fetcher's mutable state. `history` records the outcomes behind the two dictionaries. */
  class Fetcher {
    const retries: nat
    var circuitFailures: map<CB.Domain, nat>
    var circuitOpenUntil: map<CB.Domain, CB.Time>
    ghost var history: seq<CB.Record>

    ghost predicate Valid()
      reads this
    {
      CB.Summarises(CB.Circuit(circuitFailures, circuitOpenUntil), history)
    }

    constructor (retries: nat)
      ensures Valid() && this.retries == retries && history == []
    {
      this.retries := retries;
      circuitFailures, circuitOpenUntil := map[], map[];
      history := [];
    }

    method IsOpen(domain: CB.Domain, now: CB.Time) returns (open: bool)
      requires Valid()
      ensures open <==> !CB.Permits(history, domain, now)
    {
      CB.OpenIsWhatHistorySays(CB.Circuit(circuitFailures, circuitOpenUntil), history, domain, now);
      open := domain in circuitOpenUntil && circuitOpenUntil[domain] > now;
    }

    method Record(domain: CB.Domain, transient: bool, now: CB.Time)
      requires Valid()
      modifies this
      ensures Valid()
      ensures history == old(history) + [if transient then CB.Transient(domain, now) else CB.Cleared(domain)]
    {
      ghost var record := if transient then CB.Transient(domain, now) else CB.Cleared(domain);
      CB.RecordingKeepsTheSummary(CB.Circuit(circuitFailures, circuitOpenUntil), history, record);
      history := history + [record];
      if transient {
        var failures := (if domain in circuitFailures then circuitFailures[domain] else 0) + 1;
        circuitFailures := circuitFailures[domain := failures];
        if failures >= CB.THRESHOLD {
          circuitOpenUntil := circuitOpenUntil[domain := now + CB.OPEN_SECONDS];
        }
      } else {
        circuitFailures := circuitFailures - {domain};
        circuitOpenUntil := circuitOpenUntil - {domain};
      }
    }

    /** What other fetches record in the meantime. */
    method RecordOthers(records: seq<CB.Record>)
      requires Valid()
      modifies this
      ensures Valid() && history == old(history) + records
    {
      for i := 0 to |records|
        invariant Valid() && history == old(history) + records[..i]
      {
        var r := records[i];
        Record(r.domain, r.Transient?, if r.Transient? then r.at else 0);
        assert records[..i+1] == records[..i] + [r];
      }
      assert records[..|records|] == records;
    }

    /** One fetch: refused when its domain's breaker is open as it arrives, or as it gets its place among what
        others recorded while it waited; otherwise attempted until it is decided or its time is up, with
        exactly that outcome recorded after what others recorded during its attempts. */
    method Fetch(domain: CB.Domain, outcomes: nat -> Result, run: Circumstances)
      returns (r: Result, attempts: nat, refused: bool)
      requires Valid()
      modifies this
      ensures Valid()
      ensures refused <==> !CB.Permits(old(history), domain, run.arrived)
                           || !CB.Permits(old(history) + run.waiting, domain, run.admitted)
      ensures refused ==> attempts == 0 && r == Failed(FetchError("domain circuit breaker is open"))
      ensures refused ==> history == old(history)
                                     + if CB.Permits(old(history), domain, run.arrived) then run.waiting else []
      ensures !refused ==>
                && Concludes(outcomes, retries, run.inTime, attempts, r)
                && history == old(history) + run.waiting + run.meanwhile
                              + match RecordOf(domain, run.ended, r) case None => [] case Some(record) => [record]
    {
      r, attempts := Failed(FetchError("domain circuit breaker is open")), 0;
      refused := IsOpen(domain, run.arrived);
      if refused { return; }
      RecordOthers(run.waiting);
      refused := IsOpen(domain, run.admitted);
      if refused { return; }
      r := Failed(TimeoutError);
      while attempts < run.inTime && attempts <= retries && Transient(r)
        invariant attempts <= run.inTime && attempts <= retries + 1
        invariant r == if attempts == 0 then Failed(TimeoutError) else outcomes(attempts - 1)
        invariant forall k :: 0 <= k < attempts - 1 ==> Transient(outcomes(k))
        decreases retries + 1 - attempts
      {
        r := outcomes(attempts);
        attempts := attempts + 1;
      }
      if Transient(r) && attempts <= retries { r := Failed(TimeoutError); }
      RecordOthers(run.meanwhile);
      if r.Fetched? {
        Record(domain, false, run.ended);
      } else if !r.error.UnsafeUrl? {
        Record(domain, IsTransient(r.error), run.ended);
      }
    }
  }

  lemma {:induction false} DecisionIsUnique(outcomes: nat -> Result, retries: nat, n: nat, n': nat)
    requires Decides(outcomes, retries, n) && Decides(outcomes, retries, n')
    ensures n == n'
  {
    if n < n' || n' < n { assert false; }
  }

  /** A fetch has one result and one number of attempts. */
  lemma ConclusionIsUnique(outcomes: nat -> Result, retries: nat, inTime: nat, n: nat, r: Result, n': nat, r': Result)
    requires Concludes(outcomes, retries, inTime, n, r) && Concludes(outcomes, retries, inTime, n', r')
    ensures n == n' && r == r'
  {
    if Decides(outcomes, retries, n) && Decides(outcomes, retries, n') {
      DecisionIsUnique(outcomes, retries, n, n');
    }
  }
}
