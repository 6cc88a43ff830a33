/** The request limiter (`http.rs`): one process-wide requester, created
    once, that spaces the dispatch of consecutive requests by at least its
    tick interval, then retries a request for as long as connecting fails.

    Time is a natural number of nanoseconds read from a clock passed in by
    the caller; sleeping for `d` advances that clock by exactly `d`. The
    network is a sequence of attempt outcomes. */
module ScraperHttp {
  import opened Wrappers

  const NANOS_PER_MILLI: nat := 1_000_000
  const NANOS_PER_SECOND: nat := 1_000_000_000

  /** The tick interval of a requester nobody configured: 1 ms. */
  const DEFAULT_TICK_INTERVAL: nat := 1 * NANOS_PER_MILLI

  /** The pause after a failed connection: 3 s. */
  const CONNECT_SLEEP: nat := 3 * NANOS_PER_SECOND

  const ALREADY_INITIALISED: string := "HttpRequester was already initialized!"

  /** `SystemTime::elapsed` fails when the clock reads earlier than the
      stored time. */
  const CLOCK_WENT_BACKWARDS: string := "second time provided was later than self"

  // ---------------------------------------------------------------------
  // Throttle
  // ---------------------------------------------------------------------

  /** How long a request arriving at `now` sleeps: nothing for the first
      request, otherwise whatever is left of the tick since the last
      dispatch. */
  function Wait(last: Option<nat>, now: nat, tick: nat): (w: nat)
    requires last.Some? ==> last.value <= now
    ensures last.None? ==> w == 0
    ensures w <= tick
    ensures last.Some? ==> now + w >= last.value + tick
    ensures w > 0 ==> last.Some? && now + w == last.value + tick
  {
    if last.None? then 0
    else
      var elapsed := now - last.value;
      if elapsed < tick then tick - elapsed else 0
  }

  class HttpRequester {
    /** When the last request was dispatched, if one was. */
    var lastRequest: Option<nat>
    const tickInterval: nat

    /** `HttpRequester::new`: no request dispatched yet. */
    constructor (tick: nat)
      ensures lastRequest == None && tickInterval == tick
    {
      lastRequest := None;
      tickInterval := tick;
    }

    /** The locked block of `make_request`: sleeps as long as `Wait` says
        and records the dispatch time, the clock after the sleep. A clock
        that reads earlier than the last dispatch is an error, and then
        nothing is recorded. */
    method Throttle(now: nat) returns (r: Result<nat>)
      modifies this
      ensures old(lastRequest).Some? && now < old(lastRequest).value ==>
        r == Err(CLOCK_WENT_BACKWARDS) && lastRequest == old(lastRequest)
      ensures old(lastRequest).None? || old(lastRequest).value <= now ==>
        && r == Ok(now + Wait(old(lastRequest), now, tickInterval))
        && lastRequest == Some(r.value)
    {
      var dispatch := now;
      if lastRequest.Some? {
        if now < lastRequest.value {
          return Err(CLOCK_WENT_BACKWARDS);
        }
        var elapsed := now - lastRequest.value;
        if elapsed < tickInterval {
          dispatch := now + (tickInterval - elapsed);
        }
      }
      lastRequest := Some(dispatch);
      return Ok(dispatch);
    }
  }

  // ---------------------------------------------------------------------
  // Retry
  // ---------------------------------------------------------------------

  /** What one `reqwest::blocking::get` gives: a response whose body could
      be read (`Some`) or not (`None`), a failure to connect, or any other
      failure. */
  datatype Attempt = Response(body: Option<string>) | ConnectError | OtherError

  /** The end of the retry loop: the body, an error, or, when the attempts
      given run out, a loop still retrying. */
  datatype Outcome = Fetched(body: string) | Failed(reason: string) | StillRetrying

  function NoBody(url: string): string { "Unable to get body of site [" + url + "]." }
  function NoConnection(url: string): string { "Unable to connect with site [" + url + "]." }

  /** The outcome of the retry loop over the attempts in order: every
      connect error is retried, anything else decides. */
  function Retry(url: string, attempts: seq<Attempt>): (o: Outcome)
    ensures o.StillRetrying? <==> forall i :: 0 <= i < |attempts| ==> attempts[i].ConnectError?
    ensures o.Failed? ==> o.reason == NoBody(url) || o.reason == NoConnection(url)
  {
    if attempts == [] then StillRetrying
    else match attempts[0]
      case Response(body) => if body.Some? then Fetched(body.value) else Failed(NoBody(url))
      case OtherError => Failed(NoConnection(url))
      case ConnectError => Retry(url, attempts[1..])
  }

  /** The number of connect errors before the first attempt that decides. */
  function ConnectErrors(attempts: seq<Attempt>): (n: nat)
    ensures n <= |attempts|
  {
    if attempts == [] || !attempts[0].ConnectError? then 0 else 1 + ConnectErrors(attempts[1..])
  }

  /** The loop of `make_request`: sleeps after each connect error and
      returns at the first attempt that is anything else. */
  method RetryLoop(url: string, attempts: seq<Attempt>) returns (r: Outcome, slept: nat)
    ensures r == Retry(url, attempts)
    ensures slept == CONNECT_SLEEP * ConnectErrors(attempts)
  {
    slept := 0;
    var i := 0;
    while i < |attempts|
      invariant 0 <= i <= |attempts|
      invariant forall j :: 0 <= j < i ==> attempts[j].ConnectError?
      invariant Retry(url, attempts) == Retry(url, attempts[i..])
      invariant ConnectErrors(attempts) == i + ConnectErrors(attempts[i..])
      invariant slept == CONNECT_SLEEP * i
    {
      match attempts[i]
      case Response(body) =>
        if body.Some? {
          return Fetched(body.value), slept;
        }
        return Failed(NoBody(url)), slept;
      case OtherError =>
        return Failed(NoConnection(url)), slept;
      case ConnectError =>
        assert attempts[i..][1..] == attempts[i + 1..];
        slept := slept + CONNECT_SLEEP;
        i := i + 1;
    }
    return StillRetrying, slept;
  }

  /** Connect errors never end the loop: after any number of them the
      outcome is that of the attempts that follow. */
  lemma {:induction false} RetryPastConnectErrors(url: string, failures: seq<Attempt>, rest: seq<Attempt>)
    requires forall j :: 0 <= j < |failures| ==> failures[j] == ConnectError
    ensures Retry(url, failures + rest) == Retry(url, rest)
    ensures ConnectErrors(failures + rest) == |failures| + ConnectErrors(rest)
  {
    if failures != [] {
      assert (failures + rest)[1..] == failures[1..] + rest;
      RetryPastConnectErrors(url, failures[1..], rest);
    } else {
      assert failures + rest == rest;
    }
  }

  /** Only a readable response gives a body, and it is that response's. */
  lemma {:induction false} FetchedIsAResponse(url: string, attempts: seq<Attempt>)
    requires Retry(url, attempts).Fetched?
    ensures exists i :: 0 <= i < |attempts| && attempts[i] == Response(Some(Retry(url, attempts).body))
  {
    if attempts[0].ConnectError? {
      FetchedIsAResponse(url, attempts[1..]);
      var i :| 0 <= i < |attempts[1..]| && attempts[1..][i] == Response(Some(Retry(url, attempts).body));
      assert attempts[i + 1] == attempts[1..][i];
    }
  }

  // ---------------------------------------------------------------------
  // The process-wide requester
  // ---------------------------------------------------------------------

  /** The `OnceCell` that holds the requester: empty (`null`) until it is
      configured or first used, then fixed. */
  class RequesterCell {
    var requester: HttpRequester?

    constructor ()
      ensures requester == null
    {
      requester := null;
    }

    /** `HttpRequester::set_tick_interval`: fills the cell with a requester
        of the given tick if it is empty, and is an error, changing
        nothing, if it was already filled. */
    method SetTickInterval(tick: nat) returns (r: Result<()>)
      modifies this
      ensures old(requester) != null ==> r == Err(ALREADY_INITIALISED) && requester == old(requester)
      ensures old(requester) == null ==>
        && r == Ok(()) && requester != null && fresh(requester)
        && requester.tickInterval == tick && requester.lastRequest == None
    {
      if requester != null {
        return Err(ALREADY_INITIALISED);
      }
      requester := new HttpRequester(tick);
      return Ok(());
    }

    /** `HttpRequester::mutex`: the requester in the cell, or a new one with
        the default tick put there if the cell was empty. */
    method Requester() returns (h: HttpRequester)
      modifies this
      ensures requester == h
      ensures old(requester) != null ==> h == old(requester)
      ensures old(requester) == null ==>
        fresh(h) && h.tickInterval == DEFAULT_TICK_INTERVAL && h.lastRequest == None
    {
      if requester == null {
        requester := new HttpRequester(DEFAULT_TICK_INTERVAL);
      }
      h := requester;
    }

    /** `HttpRequester::make_request` for a request arriving at `now`: the
        throttle of the process-wide requester, then the retry loop. The
        dispatch is recorded before the network is tried, whatever the
        outcome of the attempts. */
    method MakeRequest(url: string, now: nat, attempts: seq<Attempt>) returns (r: Outcome)
      modifies this, requester
      ensures requester != null
      ensures old(requester) != null ==> requester == old(requester)
      ensures old(requester) == null ==> fresh(requester) && requester.tickInterval == DEFAULT_TICK_INTERVAL
      ensures
        var last := if old(requester) == null then None else old(requester.lastRequest);
        if last.Some? && now < last.value then
          r == Failed(CLOCK_WENT_BACKWARDS) && requester.lastRequest == last
        else
          && requester.lastRequest == Some(now + Wait(last, now, requester.tickInterval))
          && r == Retry(url, attempts)
    {
      var h := Requester();
      var dispatch := h.Throttle(now);
      if dispatch.Fail? {
        return Failed(dispatch.failure.reason);
      }
      var slept;
      r, slept := RetryLoop(url, attempts);
    }
  }
}
