/** `connect_to_endpoint` and `create_headers` (twitter_api_search_q2.py:41-71).
    The search endpoint is modelled as the finite sequence of outcomes it
    will give to successive requests; `time.sleep` and the requests issued are
    recorded in a log of events. */
module Fetcher {
  import opened Wrappers

  /** A request parameter value: the source's params dict holds strings and one int. */
  datatype Value = Str(s: string) | Int(i: int)

  type Params = map<string, Value>
  type Headers = map<string, string>

  /** A parsed response body. Only its `meta` object is inspected by the
      harvester; the tweets and expansions are carried as opaque records. */
  datatype Page = Page(records: seq<string>, meta: Option<map<string, string>>)

  /** `json_response["meta"]["next_token"]`, None where either key is missing. */
  function NextToken(p: Page): Option<string> {
    if p.meta.Some? && "next_token" in p.meta.value then Some(p.meta.value["next_token"]) else None
  }

  /** What one `requests.request("GET", ...)` call produces: an HTTP response
      with its status and its body as parsed JSON (None when `response.json()`
      would fail), or an exception raised by the transport. */
  datatype Outcome = Response(status: int, body: Option<Page>) | TransportError

  /** The exceptions the retry loop distinguishes: `BadStatusCode(code)` and any other. */
  datatype Error = BadStatusCode(status: int) | OtherException

  /** How a call to `connect_to_endpoint` ends: it returns a body, it re-raises,
      or (in the model only) the server's outcome sequence runs out first. */
  datatype Fetch = Fetched(page: Page) | Escalated(error: Error) | Unanswered

  datatype Event = Request(headers: Headers, params: Params) | Sleep(seconds: nat)

  /** A whole call: its ending, the number of outcomes (requests) it consumed,
      and the requests and sleeps it performed, in order. */
  datatype Run = Run(result: Fetch, used: nat, log: seq<Event>)

  const Ok := 200
  const ServiceUnavailable := 503
  /** Failures up to this count are retried whatever their kind. */
  const RetryCeiling := 4

  /** `create_headers`: the bearer-token authorization header. */
  function CreateHeaders(token: string): Headers {
    map["Authorization" := "Bearer " + token]
  }

  /** The token a header map carries, if it is a bearer authorization. */
  function BearerToken(h: Headers): Option<string> {
    if "Authorization" in h && |h["Authorization"]| >= 7 && h["Authorization"][..7] == "Bearer "
    then Some(h["Authorization"][7..]) else None
  }

  /** The one header `create_headers` builds carries the token unchanged. */
  lemma CreateHeadersRoundTrip(token: string)
    ensures CreateHeaders(token).Keys == {"Authorization"}
    ensures BearerToken(CreateHeaders(token)) == Some(token)
  {
    var v := "Bearer " + token;
    assert v[..7] == "Bearer ";
    assert v[7..] == token;
  }

  /** Lines 55-60: a 200 response yields its parsed body; a 200 whose body is
      not JSON raises from `response.json()`; any other status raises
      BadStatusCode; transport exceptions are caught alike. */
  function Classify(o: Outcome): Result<Page, Error> {
    match o
    case Response(status, body) =>
      if status == Ok then
        (if body.Some? then Success(body.value) else Failure(OtherException))
      else Failure(BadStatusCode(status))
    case TransportError => Failure(OtherException)
  }

  /** Line 63, with `count` already incremented for the failure at hand. */
  predicate Retries(count: nat, e: Error) {
    count < RetryCeiling || e == BadStatusCode(ServiceUnavailable)
  }

  /** Line 67: the sleep after the count-th failure. */
  function Backoff(count: nat): nat {
    count * 5
  }

  predicate RetriedFailure(o: Outcome, count: nat) {
    Classify(o).Failure? && Retries(count, Classify(o).error)
  }

  /** How the call ends when outcome o is not retried. */
  function Settle(o: Outcome): Fetch {
    match Classify(o)
    case Success(page) => Fetched(page)
    case Failure(e) => Escalated(e)
  }

  /** The loop of lines 52-69 run against the outcomes `outs` with `count`
      failures already behind it. */
  function Connect(outs: seq<Outcome>, headers: Headers, params: Params, count: nat): (r: Run)
    ensures r.used <= |outs|
    ensures outs != [] ==> 1 <= r.used
    ensures r.result.Unanswered? ==> r.used == |outs|
    decreases |outs|
  {
    if outs == [] then Run(Unanswered, 0, [])
    else
      var request := Request(headers, params);
      match Classify(outs[0])
      case Success(page) => Run(Fetched(page), 1, [request])
      case Failure(e) =>
        if Retries(count + 1, e) then
          var rest := Connect(outs[1..], headers, params, count + 1);
          Run(rest.result, rest.used + 1, [request, Sleep(Backoff(count + 1))] + rest.log)
        else Run(Escalated(e), 1, [request])
  }

  /** The loop's invariant: what remains of the call, run from the `used`-th
      outcome with `used` failures behind it, completes the log so far. */
  ghost predicate Resumes(outs: seq<Outcome>, headers: Headers, params: Params, used: nat, log: seq<Event>)
    requires used <= |outs|
  {
    var rest := Connect(outs[used..], headers, params, used);
    Connect(outs, headers, params, 0) == Run(rest.result, used + rest.used, log + rest.log)
  }

  /** A retried failure: the request and the back-off sleep join the log. */
  lemma ResumesAfterRetry(outs: seq<Outcome>, headers: Headers, params: Params, used: nat, log: seq<Event>)
    requires used < |outs| && Resumes(outs, headers, params, used, log)
    requires RetriedFailure(outs[used], used + 1)
    ensures Resumes(outs, headers, params, used + 1, log + [Request(headers, params), Sleep(Backoff(used + 1))])
  {
    assert outs[used..][1..] == outs[used + 1..];
    var rest := Connect(outs[used + 1..], headers, params, used + 1);
    Associate(log, [Request(headers, params), Sleep(Backoff(used + 1))], rest.log);
  }

  /** An outcome that is not retried ends the call with one more request. */
  lemma ResumesToEnd(outs: seq<Outcome>, headers: Headers, params: Params, used: nat, log: seq<Event>)
    requires used < |outs| && Resumes(outs, headers, params, used, log)
    requires !RetriedFailure(outs[used], used + 1)
    ensures Connect(outs, headers, params, 0) == Run(Settle(outs[used]), used + 1, log + [Request(headers, params)])
  {
  }

  lemma Associate<T>(a: seq<T>, b: seq<T>, c: seq<T>)
    ensures (a + b) + c == a + (b + c)
  {
  }

  /** `connect_to_endpoint(url, headers, params)` against the outcomes the
      server will give. Returns how the call ends and how many outcomes (that
      is, requests) it consumed; `log` is the requests and sleeps it made. */
  method ConnectToEndpoint(outcomes: seq<Outcome>, headers: Headers, params: Params)
    returns (result: Fetch, used: nat, ghost log: seq<Event>)
    ensures result == Connect(outcomes, headers, params, 0).result
    ensures used == Connect(outcomes, headers, params, 0).used
    ensures log == Connect(outcomes, headers, params, 0).log
  {
    var count: nat := 0;
    used := 0;
    log := [];
    while used < |outcomes|
      invariant count == used <= |outcomes|
      invariant Resumes(outcomes, headers, params, used, log)
    {
      var response := outcomes[used];
      match Classify(response)
      case Success(page) =>
        ResumesToEnd(outcomes, headers, params, used, log);
        used := used + 1;
        log := log + [Request(headers, params)];
        result := Fetched(page);
        return;
      case Failure(e) =>
        count := count + 1;
        if Retries(count, e) {
          ResumesAfterRetry(outcomes, headers, params, used, log);
          used := used + 1;
          log := log + [Request(headers, params), Sleep(Backoff(count))];
        } else {
          ResumesToEnd(outcomes, headers, params, used, log);
          used := used + 1;
          log := log + [Request(headers, params)];
          result := Escalated(e);
          return;
        }
    }
    assert outcomes[used..] == [];
    result := Unanswered;
  }

  /** The requests and sleeps of n retried failures, the first of them the
      failure numbered count + 1: each request carries the same headers and
      params, and the sleep after failure k lasts 5 * k seconds. */
  function RetryLog(headers: Headers, params: Params, count: nat, n: nat): seq<Event>
    decreases n
  {
    if n == 0 then []
    else [Request(headers, params), Sleep(Backoff(count + 1))] + RetryLog(headers, params, count + 1, n - 1)
  }

  lemma {:induction false} RetryLogAt(headers: Headers, params: Params, count: nat, n: nat, j: nat)
    requires j < n
    ensures |RetryLog(headers, params, count, n)| == 2 * n
    ensures RetryLog(headers, params, count, n)[2 * j] == Request(headers, params)
    ensures RetryLog(headers, params, count, n)[2 * j + 1] == Sleep(5 * (count + j + 1))
    decreases n
  {
    if j > 0 {
      RetryLogAt(headers, params, count + 1, n - 1, j - 1);
    } else if n > 1 {
      RetryLogAt(headers, params, count + 1, n - 1, 0);
    }
  }

  /** The log of a call is its retried failures' requests and sleeps followed,
      unless the outcomes ran out, by the one request that ended it. */
  lemma {:induction false} ConnectLog(outs: seq<Outcome>, headers: Headers, params: Params, count: nat)
    ensures var r := Connect(outs, headers, params, count);
      if r.result.Unanswered? then r.log == RetryLog(headers, params, count, r.used)
      else 1 <= r.used && r.log == RetryLog(headers, params, count, r.used - 1) + [Request(headers, params)]
    decreases |outs|
  {
    if outs != [] && RetriedFailure(outs[0], count + 1) {
      ConnectLog(outs[1..], headers, params, count + 1);
      var rest := Connect(outs[1..], headers, params, count + 1);
      var pair := [Request(headers, params), Sleep(Backoff(count + 1))];
      if !rest.result.Unanswered? {
        Associate(pair, RetryLog(headers, params, count + 1, rest.used - 1), [Request(headers, params)]);
      }
    }
  }

  /** A call reads only the outcomes it consumes. */
  lemma {:induction false} ConnectPrefix(outs: seq<Outcome>, headers: Headers, params: Params, count: nat)
    ensures var r := Connect(outs, headers, params, count);
      Connect(outs[..r.used], headers, params, count) == r
    decreases |outs|
  {
    var r := Connect(outs, headers, params, count);
    if outs != [] && RetriedFailure(outs[0], count + 1) {
      var rest := Connect(outs[1..], headers, params, count + 1);
      ConnectPrefix(outs[1..], headers, params, count + 1);
      assert outs[..r.used][1..] == outs[1..][..rest.used];
    }
  }

  /** If the first k outcomes are failures that are retried and outcome k is
      not, the call makes exactly k + 1 requests and ends as outcome k says:
      with its body for a 200, re-raising its error otherwise. */
  lemma {:induction false} ConnectStopsAt(outs: seq<Outcome>, headers: Headers, params: Params, count: nat, k: nat)
    requires k < |outs|
    requires forall j :: 0 <= j < k ==> RetriedFailure(outs[j], count + j + 1)
    requires !RetriedFailure(outs[k], count + k + 1)
    ensures Connect(outs, headers, params, count).used == k + 1
    ensures Connect(outs, headers, params, count).result == Settle(outs[k])
    decreases k
  {
    if k > 0 {
      assert RetriedFailure(outs[0], count + 1);
      forall j | 0 <= j < k - 1
        ensures RetriedFailure(outs[1..][j], count + 1 + j + 1)
      {
        assert RetriedFailure(outs[j + 1], count + (j + 1) + 1);
      }
      ConnectStopsAt(outs[1..], headers, params, count + 1, k - 1);
    }
  }

  /** Conversely, every outcome the call consumed before its last was a
      retried failure, and the last one decided the result. */
  lemma {:induction false} ConnectConsumed(outs: seq<Outcome>, headers: Headers, params: Params, count: nat)
    ensures var r := Connect(outs, headers, params, count);
      var retried := if r.result.Unanswered? then r.used else r.used - 1;
      (forall j :: 0 <= j < retried ==> RetriedFailure(outs[j], count + j + 1))
      && (!r.result.Unanswered? ==>
            1 <= r.used && !RetriedFailure(outs[r.used - 1], count + r.used) && r.result == Settle(outs[r.used - 1]))
    decreases |outs|
  {
    var r := Connect(outs, headers, params, count);
    if outs != [] && RetriedFailure(outs[0], count + 1) {
      var rest := Connect(outs[1..], headers, params, count + 1);
      ConnectConsumed(outs[1..], headers, params, count + 1);
      var retried := if r.result.Unanswered? then r.used else r.used - 1;
      forall j | 0 <= j < retried
        ensures RetriedFailure(outs[j], count + j + 1)
      {
        if j > 0 {
          assert outs[j] == outs[1..][j - 1];
        }
      }
    }
  }

  /** A 200 on attempt k (counting from 1) after k - 1 failures returns that
      body after exactly k requests, provided each earlier failure was
      retried. */
  lemma ReturnsFirstSuccess(outs: seq<Outcome>, headers: Headers, params: Params, k: nat)
    requires 1 <= k <= |outs|
    requires forall j :: 0 <= j < k - 1 ==> RetriedFailure(outs[j], j + 1)
    requires Classify(outs[k - 1]).Success?
    ensures Connect(outs, headers, params, 0).result == Fetched(Classify(outs[k - 1]).value)
    ensures Connect(outs, headers, params, 0).used == k
  {
    ConnectStopsAt(outs, headers, params, 0, k - 1);
  }

  /** The call re-raises only a non-503 error, and never before its fourth
      attempt: every 503 is retried, and so is any failure among the first three. */
  lemma EscalatesOnlyAfterFourAttempts(outs: seq<Outcome>, headers: Headers, params: Params)
    ensures var r := Connect(outs, headers, params, 0);
      r.result.Escalated? ==> r.used >= RetryCeiling && r.result.error != BadStatusCode(ServiceUnavailable)
  {
    ConnectConsumed(outs, headers, params, 0);
  }

  /** The retry budget: after n failures, none of them a 503, followed (when
      n < 4) by a success, the call makes min(n + 1, 4) requests; it returns
      the success when n < 4 and otherwise re-raises the fourth failure. */
  lemma RetryBudget(outs: seq<Outcome>, headers: Headers, params: Params, n: nat)
    requires n < |outs| || n >= RetryCeiling
    requires n >= RetryCeiling ==> RetryCeiling <= |outs|
    requires forall j :: 0 <= j < n && j < |outs| ==>
      Classify(outs[j]).Failure? && Classify(outs[j]).error != BadStatusCode(ServiceUnavailable)
    requires n < RetryCeiling ==> Classify(outs[n]).Success?
    ensures var r := Connect(outs, headers, params, 0);
      && r.used == (if n < RetryCeiling then n + 1 else RetryCeiling)
      && (r.result.Fetched? <==> n < RetryCeiling)
      && (n >= RetryCeiling ==> r.result == Escalated(Classify(outs[RetryCeiling - 1]).error))
  {
    var k := if n < RetryCeiling then n else RetryCeiling - 1;
    ConnectStopsAt(outs, headers, params, 0, k);
  }

  /** With no 503 among the outcomes, the call makes at most four requests,
      and it reaches a verdict whenever the server answers four times. */
  lemma NoOverloadAtMostFourRequests(outs: seq<Outcome>, headers: Headers, params: Params)
    requires forall j :: 0 <= j < |outs| ==> Classify(outs[j]) != Failure(BadStatusCode(ServiceUnavailable))
    ensures Connect(outs, headers, params, 0).used <= RetryCeiling
    ensures |outs| >= RetryCeiling ==> !Connect(outs, headers, params, 0).result.Unanswered?
  {
    ConnectConsumed(outs, headers, params, 0);
    assert |outs| >= RetryCeiling ==> !RetriedFailure(outs[RetryCeiling - 1], RetryCeiling);
  }

  /** A 503 is retried but still counts as a failure: after three failures and
      any number of 503s, the next failure that is not a 503 is re-raised at
      once. */
  lemma OverloadStillCounts(outs: seq<Outcome>, headers: Headers, params: Params, k: nat)
    requires RetryCeiling - 1 <= k < |outs|
    requires forall j :: 0 <= j < k ==> Classify(outs[j]).Failure?
    requires forall j :: RetryCeiling - 1 <= j < k ==> Classify(outs[j]) == Failure(BadStatusCode(ServiceUnavailable))
    requires Classify(outs[k]).Failure? && Classify(outs[k]).error != BadStatusCode(ServiceUnavailable)
    ensures Connect(outs, headers, params, 0).used == k + 1
    ensures Connect(outs, headers, params, 0).result == Escalated(Classify(outs[k]).error)
  {
    ConnectStopsAt(outs, headers, params, 0, k);
  }
}
