/** The retry discipline of `Collector.get_url` (collection/collector.py) as a function of
    the outcomes the network gives, attempt after attempt. */
module Fetch {
  import opened Wrappers
  import opened Page

  /** What one `requests.get` does: a response (its status and its body, `None` when the
      body is not parseable HTML), a timeout, or any other failure. */
  datatype Outcome =
    | Response(status: int, body: Option<Node>)
    | TimedOut
    | Failed

  /** A response that was received (the variable `resp`). */
  datatype Reply = Reply(status: int, body: Option<Node>)

  /** Why `get_url` raises: the counter ended above the retry bound, no response was ever
      bound to `resp`, or the body of the last response does not parse. */
  datatype FetchError = RetriesExceeded | NoResponse | Unparsable

  /** `raise_for_status` raises for client and server errors. */
  predicate IsHttpError(status: int) {
    400 <= status < 600
  }

  /** Outcome of the attempt with index `k` (counting from 0); a script that has run out
      fails like a refused connection. */
  function Attempt(script: seq<Outcome>, k: nat): Outcome {
    if k < |script| then script[k] else Failed
  }

  /** An outcome after which the loop sleeps and tries again. */
  predicate Retryable(o: Outcome) {
    o.TimedOut? || (o.Response? && IsHttpError(o.status) && o.status != 404)
  }

  /** The state when the loop ends: the counter, the last response, the pauses. */
  datatype LoopEnd = LoopEnd(tries: nat, resp: Option<Reply>, pauses: seq<int>)

  /** The `while tries <= max_retries` loop from counter value `tries` with `resp` bound
      to the last response seen. */
  function RetryLoop(script: seq<Outcome>, maxRetries: int, interval: int, tries: nat, resp: Option<Reply>): (e: LoopEnd)
    decreases maxRetries + 1 - tries
    ensures tries <= e.tries
    ensures tries <= maxRetries ==> e.tries <= maxRetries + 1
    ensures tries > maxRetries ==> e == LoopEnd(tries, resp, [])
  {
    if tries > maxRetries then LoopEnd(tries, resp, [])
    else
      var t := tries + 1;
      match Attempt(script, tries)
      case Response(status, body) =>
        if IsHttpError(status) && status != 404 then
          var rest := RetryLoop(script, maxRetries, interval, t, Some(Reply(status, body)));
          LoopEnd(rest.tries, rest.resp, [interval * t] + rest.pauses)
        else LoopEnd(t, Some(Reply(status, body)), [])
      case TimedOut =>
        var rest := RetryLoop(script, maxRetries, interval, t, resp);
        LoopEnd(rest.tries, rest.resp, [interval * t] + rest.pauses)
      case Failed => LoopEnd(t, resp, [])
  }

  /** One turn of the loop: a retryable attempt adds its pause in front of the rest of the
      loop, any other attempt ends the loop with the counter one higher. */
  lemma RetryStep(script: seq<Outcome>, maxRetries: int, interval: int, tries: nat, resp: Option<Reply>)
    requires tries <= maxRetries
    ensures var o := Attempt(script, tries);
      var r := if o.Response? then Some(Reply(o.status, o.body)) else resp;
      var e := RetryLoop(script, maxRetries, interval, tries, resp);
      var rest := RetryLoop(script, maxRetries, interval, tries + 1, r);
      (Retryable(o) ==> e == LoopEnd(rest.tries, rest.resp, [interval * (tries + 1)] + rest.pauses))
      && (!Retryable(o) ==> e == LoopEnd(tries + 1, r, []))
  {
  }

  /** What `get_url` does after its loop: raise when the counter is above the bound,
      otherwise parse the body of the last response bound to `resp`. */
  function Conclude(e: LoopEnd, maxRetries: int): Result<Node, FetchError> {
    if e.tries > maxRetries then Err(RetriesExceeded)
    else match e.resp
      case None => Err(NoResponse)
      case Some(Reply(_, None)) => Err(Unparsable)
      case Some(Reply(_, Some(page))) => Ok(page)
  }

  /** `get_url` as written: the result, the number of requests made (each consumes one
      outcome of the script) and the pauses requested. */
  function GetUrlSpec(script: seq<Outcome>, maxRetries: int, interval: int): (Result<Node, FetchError>, nat, seq<int>) {
    var e := RetryLoop(script, maxRetries, interval, 0, None);
    (Conclude(e, maxRetries), e.tries, e.pauses)
  }

  // ----- properties -------------------------------------------------------------------

  /** The pauses grow linearly: the one after attempt `j` (counting from 1) is
      `interval * j`, and there is one per retryable attempt before the last. */
  lemma {:induction false} RetryLoopBackoff(script: seq<Outcome>, maxRetries: int, interval: int, tries: nat, resp: Option<Reply>)
    decreases maxRetries + 1 - tries
    ensures var e := RetryLoop(script, maxRetries, interval, tries, resp);
      |e.pauses| <= e.tries - tries
      && (forall i :: 0 <= i < |e.pauses| ==>
            e.pauses[i] == interval * (tries + i + 1) && Retryable(Attempt(script, tries + i)))
  {
    if tries <= maxRetries {
      var t := tries + 1;
      var o := Attempt(script, tries);
      var e := RetryLoop(script, maxRetries, interval, tries, resp);
      RetryStep(script, maxRetries, interval, tries, resp);
      if Retryable(o) {
        var r := if o.Response? then Some(Reply(o.status, o.body)) else resp;
        RetryLoopBackoff(script, maxRetries, interval, t, r);
        var rest := RetryLoop(script, maxRetries, interval, t, r);
        assert e.pauses == [interval * t] + rest.pauses && e.tries == rest.tries;
        forall i | 0 <= i < |e.pauses|
          ensures e.pauses[i] == interval * (tries + i + 1) && Retryable(Attempt(script, tries + i))
        {
          if i == 0 {
            assert e.pauses[0] == interval * t && Attempt(script, tries + i) == o;
          } else {
            assert e.pauses[i] == rest.pauses[i - 1];
            assert t + (i - 1) == tries + i;
          }
        }
        assert |e.pauses| <= e.tries - tries;
      }
    }
  }

  /** At most `max_retries + 1` requests are made, and none when the bound is negative. */
  lemma AttemptsBounded(script: seq<Outcome>, maxRetries: int, interval: int)
    ensures var (_, used, _) := GetUrlSpec(script, maxRetries, interval);
      (maxRetries >= 0 ==> used <= maxRetries + 1) && (maxRetries < 0 ==> used == 0)
  {
  }

  /** Every attempt before the last one made was retryable. */
  lemma {:induction false} RetriedAttempts(script: seq<Outcome>, maxRetries: int, interval: int, tries: nat, resp: Option<Reply>)
    decreases maxRetries + 1 - tries
    ensures var e := RetryLoop(script, maxRetries, interval, tries, resp);
      forall k :: tries <= k < e.tries - 1 ==> Retryable(Attempt(script, k))
  {
    if tries <= maxRetries {
      var o := Attempt(script, tries);
      if Retryable(o) {
        var r := if o.Response? then Some(Reply(o.status, o.body)) else resp;
        RetriedAttempts(script, maxRetries, interval, tries + 1, r);
      }
    }
  }

  /** The bound is exceeded exactly when every attempt before the last allowed one was
      retryable: the last allowed attempt then leaves the counter above the bound,
      whatever its outcome. */
  lemma {:induction false} ExceededIffLastAttemptReached(script: seq<Outcome>, maxRetries: int, interval: int, tries: nat, resp: Option<Reply>)
    requires tries <= maxRetries + 1
    decreases maxRetries + 1 - tries
    ensures var e := RetryLoop(script, maxRetries, interval, tries, resp);
      e.tries > maxRetries <==> forall k :: tries <= k < maxRetries ==> Retryable(Attempt(script, k))
  {
    if tries <= maxRetries {
      var o := Attempt(script, tries);
      if Retryable(o) {
        var r := if o.Response? then Some(Reply(o.status, o.body)) else resp;
        ExceededIffLastAttemptReached(script, maxRetries, interval, tries + 1, r);
      } else if tries < maxRetries {
        assert !Retryable(Attempt(script, tries));
      }
    }
  }

  /** A success on the last allowed attempt still raises: with the default bound of 2,
      two timeouts and then a good page give "max retries exceeded". */
  lemma FinalSuccessRaises(page: Node)
    ensures GetUrlSpec([TimedOut, TimedOut, Response(200, Some(page))], 2, 60)
      == (Err(RetriesExceeded), 3, [60, 120])
  {
    var script := [TimedOut, TimedOut, Response(200, Some(page))];
    var r := Some(Reply(200, Some(page)));
    assert RetryLoop(script, 2, 60, 3, r) == LoopEnd(3, r, []);
    assert RetryLoop(script, 2, 60, 2, None) == LoopEnd(3, r, []);
    assert RetryLoop(script, 2, 60, 1, None) == LoopEnd(3, r, [120]);
    assert RetryLoop(script, 2, 60, 0, None) == LoopEnd(3, r, [60, 120]);
  }

  /** A 404 before the last attempt ends the loop without a pause, and its body is
      returned as the page. */
  lemma NotFoundReturnsBody(script: seq<Outcome>, maxRetries: int, interval: int, body: Node)
    requires maxRetries >= 1 && Attempt(script, 0) == Response(404, Some(body))
    ensures GetUrlSpec(script, maxRetries, interval) == (Ok(body), 1, [])
  {
  }

  /** A failure other than a timeout or an HTTP status ends the loop; with no earlier
      response bound, `resp` is unbound and the call fails. */
  lemma FailureWithoutResponse(script: seq<Outcome>, maxRetries: int, interval: int)
    requires maxRetries >= 1 && Attempt(script, 0) == Failed
    ensures GetUrlSpec(script, maxRetries, interval) == (Err(NoResponse), 1, [])
  {
  }

  /** A failure after a server error returns the stale page of that earlier response. */
  lemma FailureReturnsStaleResponse(stale: Node)
    ensures GetUrlSpec([Response(503, Some(stale)), Failed], 2, 60) == (Ok(stale), 2, [60])
  {
    var script := [Response(503, Some(stale)), Failed];
    var r := Some(Reply(503, Some(stale)));
    assert RetryLoop(script, 2, 60, 1, r) == LoopEnd(2, r, []);
    assert RetryLoop(script, 2, 60, 0, None) == LoopEnd(2, r, [60]);
  }
}
