/**
 One Slack Web API call: build the request, send it with retries, read and decode the response, and
 turn what happened into either the raw response or an error chain.
 */
module Client {
  import opened Outcomes
  import opened Errors
  import opened RateLimit

  /** What `Do` returns when the transport hands it a response. */
  function Decode(body: Body): Result<string, Error> {
    match body
    case ReadFails(f) => Err(Wrapped("reading response body", Library(f)))
    case Malformed(f) => Err(Wrapped("parsing response", Library(f)))
    case Envelope(ok, error, raw) =>
      if ok then Ok(raw) else Err(SlackError(error, "slack API returned error: " + error))
  }

  /** What `Do` adds to an error of the transport. */
  function Executing(e: Error): Error {
    if IsNetworkError(e) then RetriableError(Wrapped("executing request", e)) else Wrapped("executing request", e)
  }

  ghost function DoResult(build: Option<Foreign>, w: World): Result<string, Error> {
    if build.Some? then Err(Wrapped("building request", Library(build.value)))
    else
      match RetryResult(w)
      case Err(e) => Err(Executing(e))
      case Ok(response) => Decode(response.body)
  }

  ghost function DoTrace(build: Option<Foreign>, w: World): seq<Event> {
    if build.Some? then []
    else RetryTrace(w) + if RetryResult(w).Ok? then [CloseBody(RetryResult(w).value.attempt)] else []
  }

  method Do(wire: Wire, build: Option<Foreign>) returns (r: Result<string, Error>)
    modifies wire
    ensures r == DoResult(build, wire.world)
    ensures wire.trace == old(wire.trace) + DoTrace(build, wire.world)
  {
    if build.Some? {
      return Err(Wrapped("building request", Library(build.value)));
    }
    hide RetryTrace, RetryResult;
    var response := DoWithRetry(wire);
    if response.Err? {
      if IsNetworkError(response.error) {
        return Err(RetriableError(Wrapped("executing request", response.error)));
      }
      return Err(Wrapped("executing request", response.error));
    }
    // The deferred close runs on every path from here on.
    wire.trace := wire.trace + [CloseBody(response.value.attempt)];
    match response.value.body
    case ReadFails(f) => return Err(Wrapped("reading response body", Library(f)));
    case Malformed(f) => return Err(Wrapped("parsing response", Library(f)));
    case Envelope(ok, error, raw) =>
      if !ok {
        return Err(SlackError(error, "slack API returned error: " + error));
      }
      return Ok(raw);
  }

  /** No body leaks and none is closed twice: over a whole call, every response that was received has
      its body closed exactly once, whoever closes it. */
  lemma EveryBodyClosedOnce(build: Option<Foreign>, w: World, i: nat)
    ensures multiset(DoTrace(build, w))[CloseBody(i)] ==
            if multiset(DoTrace(build, w))[Request(i)] == 1 && w.reply(i).Replied? then 1 else 0
  {
    RetryEffects(w, i);
    hide RetryTrace;
  }

  /** The transport failed, or the wait was cut short, for a network reason. */
  ghost predicate NetworkStop(w: World) {
    var k := StopAt(w, 0);
    match w.reply(k)
    case Failed(f) => Networked(f)
    case Replied(_, _, _) =>
      RateLimited(w.reply(k)) && k < MAX_RETRIES && Networked(w.interrupt(k).value)
  }

  ghost predicate Exhausted(w: World) {
    StopAt(w, 0) == MAX_RETRIES && RateLimited(w.reply(MAX_RETRIES))
  }

  /** The errors `doWithRetry` itself returns: none holds a Slack error, and the network ones are
      exactly those of a network stop. */
  lemma RetryErrors(w: World)
    requires RetryResult(w).Err?
    ensures Root(RetryResult(w).error).Library? && AsSlackError(RetryResult(w).error).None?
    ensures IsNetworkError(RetryResult(w).error) <==> NetworkStop(w)
    ensures AsRetriableError(RetryResult(w).error) && !NetworkStop(w) <==> Exhausted(w)
  {
    var e := RetryResult(w).error;
    var k := StopAt(w, 0);
    assert e.RetriableError? || e.Wrapped? ==> Root(e) == Root(e.inner);
    SlackErrorIsTheRoot(e);
    NetworkErrorIsTheRoot(e);
    if w.reply(k).Failed? { NetworkErrorIsTheRoot(Library(w.reply(k).err)); }
  }

  /** The response that a call gets to read is that of attempt `k`. */
  predicate AnsweredAt(w: World, k: nat) {
    k <= 3 && (forall i :: 0 <= i < k ==> TurnedAway(w, i)) && w.reply(k).Replied? && w.reply(k).status != 429
  }

  /** The body can be read and decoded, and says ok. */
  predicate SaysOk(body: Body, raw: string) {
    body.Envelope? && body.ok && body.raw == raw
  }

  lemma AnsweredIff(w: World, k: nat)
    ensures AnsweredAt(w, k) <==> RetryResult(w).Ok? && RetryResult(w).value.attempt == k
    ensures AnsweredAt(w, k) ==> RetryResult(w).value.body == w.reply(k).body
  {
    var at := StopAt(w, 0);
    assert forall i :: TurnedAway(w, i) <==> RateLimited(w.reply(i)) && w.interrupt(i).None?;
    RetryReturnsFirstResponse(w, k);
    RetryReturnsFirstResponse(w, at);
    hide StopAt, RetryTrace;
  }

  /** Success, exactly: a call returns the raw response of the first attempt that is neither rate-limited nor
      fails in transport, if that response can be read and decoded and says ok. */
  lemma DoSucceedsIff(build: Option<Foreign>, w: World, raw: string)
    ensures DoResult(build, w) == Ok(raw) <==>
              build.None? && exists k :: AnsweredAt(w, k) && SaysOk(w.reply(k).body, raw)
  {
    if RetryResult(w).Ok? { AnsweredIff(w, RetryResult(w).value.attempt); }
    forall k ensures AnsweredAt(w, k) ==> RetryResult(w).Ok? && RetryResult(w).value.body == w.reply(k).body {
      AnsweredIff(w, k);
    }
    hide RetryResult, AnsweredAt;
  }

  /** What an unsuccessful call reports: the failure that struck, at the root of the chain; or the code that the
      response gave, as a bare Slack error whose message names it. */
  lemma DoFailsWithTheCause(build: Option<Foreign>, w: World)
    requires DoResult(build, w).Err?
    ensures var e := DoResult(build, w).error;
            && (build.Some? ==> Root(e) == Library(build.value))
            && (build.None? && RetryResult(w).Err? ==> Root(e) == Root(RetryResult(w).error))
            && (build.None? ==> forall k :: AnsweredAt(w, k) ==>
                  match w.reply(k).body
                  case ReadFails(f) => Root(e) == Library(f)
                  case Malformed(f) => Root(e) == Library(f)
                  case Envelope(ok, code, _) => !ok && e == SlackError(code, "slack API returned error: " + code))
  {
    forall k ensures AnsweredAt(w, k) ==> RetryResult(w).Ok? && RetryResult(w).value.body == w.reply(k).body {
      AnsweredIff(w, k);
    }
    hide RetryResult, AnsweredAt;
  }

  /** Every error of a call is either a bare Slack error or a chain that contains none... */
  lemma DoErrorShape(build: Option<Foreign>, w: World)
    requires DoResult(build, w).Err?
    ensures var e := DoResult(build, w).error; e.SlackError? || Root(e).Library?
  {
    if build.None? && RetryResult(w).Err? { RetryErrors(w); }
    hide RetryResult;
  }

  /** ... so the type assertion used for user lookups sees the same Slack error as `errors.As`. */
  lemma LookupErrorsAgree(build: Option<Foreign>, w: World, decoding: Foreign)
    ensures DoResult(build, w).Err? ==>
              AssertSlackError(DoResult(build, w).error) == AsSlackError(DoResult(build, w).error)
    ensures AssertSlackError(Library(decoding)) == AsSlackError(Library(decoding))
  {
    if DoResult(build, w).Err? {
      DoErrorShape(build, w);
      AssertionAgreesIff(DoResult(build, w).error);
    }
  }

  /** A Slack error carries the code of the response envelope, and only a response that says it is not
      ok gives one. */
  lemma SlackErrorIffNotOk(build: Option<Foreign>, w: World, code: string)
    ensures (DoResult(build, w).Err? && HasCode(DoResult(build, w).error, code)) <==>
            (build.None? && RetryResult(w).Ok? && RetryResult(w).value.body.Envelope? &&
             !RetryResult(w).value.body.ok && RetryResult(w).value.body.error == code)
  {
    if DoResult(build, w).Err? {
      DoErrorShape(build, w);
      SlackErrorIsTheRoot(DoResult(build, w).error);
    }
  }

  /** Exactly which failed calls the reconciler is told to retry: network failures while sending or
      waiting, exhausted rate limits, and three Slack codes. */
  lemma RetriableIff(build: Option<Foreign>, w: World)
    requires DoResult(build, w).Err?
    ensures IsRetriableError(DoResult(build, w).error) <==>
              build.None? && (NetworkStop(w) || Exhausted(w) ||
                (RetryResult(w).Ok? && RetryResult(w).value.body.Envelope? &&
                 RetryResult(w).value.body.error in {"internal_error", "fatal_error", "request_timeout"}))
  {
    var e := DoResult(build, w).error;
    if build.None? && RetryResult(w).Err? {
      RetryErrors(w);
      assert AsSlackError(e).None?;
    } else {
      assert build.None? ==> !NetworkStop(w) && !Exhausted(w);
      if e.Wrapped? {
        assert !AsRetriableError(e.inner) && AsSlackError(e.inner).None?;
      }
    }
  }

  /** The requirement that every network failure be retriable holds except where it strikes outside
      sending and waiting: building the request, or reading or decoding a response already begun. */
  lemma UnreportedNetworkFailureIff(build: Option<Foreign>, w: World)
    requires DoResult(build, w).Err?
    ensures IsNetworkError(DoResult(build, w).error) && !IsRetriableError(DoResult(build, w).error) <==>
              if build.Some? then Networked(build.value)
              else
                && RetryResult(w).Ok? && !RetryResult(w).value.body.Envelope?
                && Networked(RetryResult(w).value.body.cause)
  {
    RetriableIff(build, w);
    NetworkErrorIsTheRoot(DoResult(build, w).error);
    if build.None? && RetryResult(w).Err? {
      var e := RetryResult(w).error;
      RetryErrors(w);
      NetworkErrorIsTheRoot(e);
      assert Root(Executing(e)) == Root(Wrapped("executing request", e)) == Root(e);
    }
    hide Networked, HasKind;
  }

  /** Such a failure: a network error while the body of the first response is read. */
  lemma BrokenBodyIsNotRetriable(w: World, broken: Foreign)
    requires broken.kind == NetError && w.reply(0) == Replied(200, "", ReadFails(broken))
    ensures DoResult(None, w).Err? && IsNetworkError(DoResult(None, w).error)
    ensures !IsRetriableError(DoResult(None, w).error)
  {
    assert StopAt(w, 0) == 0;
    UnreportedNetworkFailureIff(None, w);
    assert Links(broken)[0] == broken;
  }
}
