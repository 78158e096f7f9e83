/**
 Rate limiting: `doWithRetry` repeats a request that Slack answers with HTTP 429 (section 4 of
 RFC 6585), waiting as long as the delay-seconds form of `Retry-After` asks (section 10.2.3 of
 RFC 9110) or, failing that, for an exponential backoff with jitter. Durations are int64 nanoseconds.

 The transport, the sleep and the random source are inputs; every effect is recorded in a trace.
 */
module RateLimit {
  import opened Outcomes
  import opened Errors

  const MAX_RETRIES: nat := 3
  const SECOND: int := 1_000_000_000
  const BASE_DELAY: int := SECOND
  const MAX_DELAY: int := 60 * SECOND
  const TOO_MANY_REQUESTS: int := 429
  const TWO_63: int := 0x8000_0000_0000_0000

  // ---------- int64 and decimal numbers ----------

  predicate FitsInt64(x: int) {
    -TWO_63 <= x < TWO_63
  }

  /** Two's-complement wrap-around of an int64 result. */
  function Wrap64(x: int): (r: int)
    ensures FitsInt64(r)
    ensures r == x <==> FitsInt64(x)
  {
    (x + TWO_63) % (2 * TWO_63) - TWO_63
  }

  predicate IsDigit(c: char) {
    '0' as int <= c as int <= '9' as int
  }

  function DecimalValue(s: string): (r: nat)
    requires forall k :: 0 <= k < |s| ==> IsDigit(s[k])
  {
    if s == "" then 0
    else
      assert IsDigit(s[|s| - 1]);
      DecimalValue(s[..|s| - 1]) * 10 + (s[|s| - 1] as int - '0' as int)
  }

  function Unsigned(s: string): Option<nat> {
    if s != "" && forall k :: 0 <= k < |s| ==> IsDigit(s[k]) then Some(DecimalValue(s)) else None
  }

  /** `strconv.Atoi`: an optional sign, decimal digits, and a value that fits an int64. */
  function Atoi(s: string): (r: Option<int>)
    ensures r.Some? ==> FitsInt64(r.value)
  {
    var negative := s != "" && s[0] == '-';
    var digits := Unsigned(if negative || (s != "" && s[0] == '+') then s[1..] else s);
    if digits.None? then None
    else
      var n: int := if negative then -(digits.value as int) else digits.value;
      if FitsInt64(n) then Some(n) else None
  }

  function Digits(n: nat): (s: string)
    ensures s != "" && forall k :: 0 <= k < |s| ==> IsDigit(s[k])
  {
    (if n < 10 then "" else Digits(n / 10)) + ['0' + (n % 10) as char]
  }

  function Itoa(n: int): (s: string) {
    if n < 0 then "-" + Digits(-n) else Digits(n)
  }

  lemma {:induction false} DigitsRoundTrip(n: nat)
    ensures DecimalValue(Digits(n)) == n
    decreases n
  {
    var s := Digits(n);
    if n < 10 {
      assert s[..|s| - 1] == "";
    } else {
      DigitsRoundTrip(n / 10);
      assert s[..|s| - 1] == Digits(n / 10);
    }
  }

  lemma UnsignedRoundTrip(n: nat)
    ensures Unsigned(Digits(n)) == Some(n) && Digits(n) != "" && IsDigit(Digits(n)[0])
  {
    DigitsRoundTrip(n);
  }

  /** Reading back a printed integer gives that integer exactly when it fits an int64. */
  lemma AtoiRoundTrip(n: int)
    ensures Atoi(Itoa(n)) == if FitsInt64(n) then Some(n) else None
    ensures Itoa(n) != ""
  {
    var s := Itoa(n);
    hide Unsigned, Digits;
    if n < 0 {
      UnsignedRoundTrip(-n);
      assert s[1..] == Digits(-n);
    } else {
      UnsignedRoundTrip(n);
    }
  }

  // ---------- Backoff ----------

  function Pow2(n: nat): (r: nat)
    ensures r >= 1
  {
    if n == 0 then 1 else 2 * Pow2(n - 1)
  }

  /** `math.Pow(2, attempt)` as a real number: powers of two are exact in binary floating point. */
  function RealPow2(n: int): real
    decreases if n < 0 then -n else n
  {
    if n == 0 then 1.0 else if n > 0 then 2.0 * RealPow2(n - 1) else RealPow2(n + 1) / 2.0
  }

  /** The exclusive upper bound of the jittered wait, in whole nanoseconds. */
  function BackoffBound(attempt: int): int {
    if attempt < 0 then BASE_DELAY / Pow2(-attempt)
    else if attempt >= 6 then MAX_DELAY
    else BASE_DELAY * Pow2(attempt)
  }

  /** The wait drawn for an attempt; None where `rand.Int63n` panics on a bound that is not positive. */
  function Backoff(attempt: int, draw: nat): (r: Option<int>)
    ensures r.Some? <==> BackoffBound(attempt) > 0
    ensures r.Some? ==> 0 <= r.value < BackoffBound(attempt)
  {
    if BackoffBound(attempt) > 0 then Some(draw % BackoffBound(attempt)) else None
  }

  lemma {:induction false} Pow2Doubles(n: nat, m: nat)
    requires n <= m
    ensures Pow2(n) <= Pow2(m)
    decreases m - n
  {
    if n < m { Pow2Doubles(n, m - 1); }
  }

  lemma {:induction false} RealPow2IsPow2(n: nat)
    ensures RealPow2(n) == Pow2(n) as real
    decreases n
  {
    if n > 0 { RealPow2IsPow2(n - 1); }
  }

  lemma {:induction false} RealPow2Inverts(n: int)
    requires n >= 0
    ensures RealPow2(-n) * Pow2(n) as real == 1.0
    decreases n
  {
    if n > 0 {
      RealPow2Inverts(n - 1);
      HalveAndDouble(RealPow2(-n + 1), Pow2(n - 1));
    }
  }

  lemma HalveAndDouble(x: real, d: nat)
    ensures (x / 2.0) * (2 * d) as real == x * d as real
  {
    assert (2 * d) as real == 2.0 * d as real;
    assert (x / 2.0) * (2.0 * d as real) == ((x / 2.0) * 2.0) * d as real;
  }

  lemma Pow2Values()
    ensures Pow2(5) == 32 && Pow2(6) == 64 && Pow2(29) == 536_870_912 && Pow2(30) == 1_073_741_824
  {
    assert Pow2(20) == 1_048_576;
    assert Pow2(30) == 2 * Pow2(29);
  }

  lemma ScaleUp(x: real, y: real, d: real)
    requires d > 0.0 && x < y
    ensures x * d < y * d
  {
    var gap := y - x;
    assert gap * d > 0.0;
    assert y * d == (x + gap) * d == x * d + gap * d;
  }

  lemma ScaleOrder(x: real, y: real, d: real)
    requires d > 0.0
    ensures x < y <==> x * d < y * d
  {
    if x < y { ScaleUp(x, y, d); }
    if y < x { ScaleUp(y, x, d); }
  }

  lemma QuotientBounds(a: nat, d: nat)
    requires d > 0
    ensures (a / d) * d <= a < (a / d + 1) * d
  {
    assert a == (a / d) * d + a % d;
    assert (a / d + 1) * d == (a / d) * d + d;
  }

  lemma RealProduct(a: int, b: int)
    ensures (a * b) as real == a as real * b as real
  {
  }

  lemma FloorOfQuotient(x: real, a: nat, d: nat)
    requires d > 0 && x * d as real == a as real
    ensures x.Floor == a / d
  {
    var q := a / d;
    RealQuotientBounds(a, d);
    BetweenProducts(x, q as real, (q + 1) as real, d as real);
    assert (q + 1) as real == q as real + 1.0;
  }

  lemma RealQuotientBounds(a: nat, d: nat)
    requires d > 0
    ensures (a / d) as real * d as real <= a as real < (a / d + 1) as real * d as real
  {
    QuotientBounds(a, d);
    RealProduct(a / d, d);
    RealProduct(a / d + 1, d);
  }

  lemma BetweenProducts(x: real, low: real, high: real, d: real)
    requires d > 0.0 && low * d <= x * d < high * d
    ensures low <= x < high
  {
    ScaleOrder(x, low, d);
    ScaleOrder(x, high, d);
  }

  /** The capped floating-point product truncates to the whole-number bound. */
  lemma CappedProductIsBound(attempt: int)
    ensures var product := BASE_DELAY as real * RealPow2(attempt);
            (if product > MAX_DELAY as real then MAX_DELAY as real else product).Floor == BackoffBound(attempt)
  {
    Pow2Values();
    if attempt >= 0 {
      RealPow2IsPow2(attempt);
      if attempt >= 6 { Pow2Doubles(6, attempt); } else { Pow2Doubles(attempt, 5); }
      assert BASE_DELAY as real * Pow2(attempt) as real == (BASE_DELAY * Pow2(attempt)) as real;
    } else {
      SmallProduct(RealPow2(attempt), Pow2(-attempt)) by { RealPow2Inverts(-attempt); }
    }
  }

  lemma SmallProduct(p: real, d: nat)
    requires d >= 1 && p * d as real == 1.0
    ensures (BASE_DELAY as real * p).Floor == BASE_DELAY / d && BASE_DELAY as real * p <= BASE_DELAY as real
  {
    var x := BASE_DELAY as real * p;
    assert x * d as real == BASE_DELAY as real * (p * d as real);
    FloorOfQuotient(x, BASE_DELAY, d);
    ScaleOrder(1.0, p, d as real);
  }

  method CalculateBackoff(attempt: int, draw: nat) returns (wait: Option<int>)
    ensures wait == Backoff(attempt, draw)
  {
    var backoff := BASE_DELAY as real * RealPow2(attempt);
    CappedProductIsBound(attempt);
    if backoff > MAX_DELAY as real {
      backoff := MAX_DELAY as real;
    }
    var bound := backoff.Floor;
    if bound <= 0 {
      return None;
    }
    return Some(draw % bound);
  }

  /** For every attempt the retry loop can make the bound is min(2^attempt, 60) seconds; the draw is
      impossible only for attempts below -29. */
  lemma BackoffRange(attempt: int)
    ensures BackoffBound(attempt) > 0 <==> attempt >= -29
    ensures attempt >= 0 ==>
              BackoffBound(attempt) == SECOND * (if Pow2(attempt) < 60 then Pow2(attempt) else 60)
  {
    Pow2Values();
    if attempt >= 6 {
      Pow2Doubles(6, attempt);
    } else if attempt >= 0 {
      Pow2Doubles(attempt, 5);
    } else {
      QuotientPositiveIff(BASE_DELAY, Pow2(-attempt));
      if attempt >= -29 { Pow2Doubles(-attempt, 29); } else { Pow2Doubles(30, -attempt); }
    }
  }

  lemma QuotientPositiveIff(a: nat, d: nat)
    requires d > 0
    ensures a / d > 0 <==> d <= a
  {
    var q := a / d;
    assert a == q * d + a % d;
    assert q == 0 ==> q * d == 0;
    assert q >= 1 ==> q * d >= d;
  }

  // ---------- The wait before a retry ----------

  /** The wait after the response to an attempt, as `doWithRetry` computes it. */
  function Wait(attempt: nat, retryAfter: string, draw: nat): (r: int) {
    var seconds := Atoi(retryAfter);
    if retryAfter != "" && seconds.Some? && seconds.value > 0 then Wrap64(seconds.value * SECOND)
    else Backoff(attempt, draw).GetOr(0)
  }

  /** A positive whole number of seconds is waited for exactly, and waited for at all, if and only if
      it is at most 9223372036; beyond that the int64 product wraps, or the number is unreadable. */
  lemma RetryAfterIsHonouredIff(attempt: nat, seconds: int, draw: nat)
    requires seconds > 0
    ensures Wait(attempt, Itoa(seconds), draw) == seconds * SECOND <==> seconds <= 9_223_372_036
    ensures Wait(attempt, Itoa(seconds), draw) >= seconds * SECOND <==> seconds <= 9_223_372_036
  {
    AtoiRoundTrip(seconds);
    BackoffRange(attempt);
    hide Atoi, Itoa;
    if FitsInt64(seconds) {
      assert Wait(attempt, Itoa(seconds), draw) == Wrap64(seconds * SECOND);
    }
  }

  /** The values next above wrap to a negative wait, which does not wait at all. */
  lemma OversizedRetryAfterDoesNotWait(attempt: nat, seconds: int, draw: nat)
    requires 9_223_372_036 < seconds <= 18_446_744_073
    ensures Wait(attempt, Itoa(seconds), draw) < 0
  {
    AtoiRoundTrip(seconds);
    OversizedWraps(seconds);
    hide Atoi, Itoa, Wrap64, Backoff;
  }

  lemma OversizedWraps(seconds: int)
    requires 9_223_372_036 < seconds <= 18_446_744_073
    ensures FitsInt64(seconds) && Wrap64(seconds * SECOND) < 0
  {
    assert Wrap64(seconds * SECOND) == seconds * SECOND - 2 * TWO_63;
  }

  /** Every other header value falls back to the backoff, which lies in [0, min(2^attempt, 60)) seconds: it is the
      random draw itself, reduced to that range. */
  lemma OtherwiseBackoff(attempt: nat, retryAfter: string, draw: nat)
    requires retryAfter == "" || Atoi(retryAfter).None? || Atoi(retryAfter).value <= 0
    ensures var range := SECOND * (if Pow2(attempt) < 60 then Pow2(attempt) else 60);
            && 0 <= Wait(attempt, retryAfter, draw) < range
            && range > 0 && Wait(attempt, retryAfter, draw) == draw % range
  {
    BackoffRange(attempt);
  }

  // ---------- The retry machine ----------

  /** What reading and decoding a response body gives. */
  datatype Body = ReadFails(cause: Foreign) | Malformed(cause: Foreign) | Envelope(ok: bool, error: string, raw: string)

  datatype Reply = Failed(err: Foreign) | Replied(status: int, retryAfter: string, body: Body)

  /** A response handed to the caller, body still open. */
  datatype Response = Response(attempt: nat, body: Body)

  /** The outside world during one call: what each attempt gets, what the random source draws, and
      whether the context ends during the wait after an attempt. */
  datatype World = World(reply: nat -> Reply, draw: nat -> nat, interrupt: nat -> Option<Foreign>)

  datatype Event = Request(attempt: nat) | CloseBody(attempt: nat) | Sleep(duration: int)

  class Wire {
    const world: World
    var trace: seq<Event>

    constructor (world: World)
      ensures this.world == world && trace == []
    {
      this.world := world;
      trace := [];
    }
  }

  predicate RateLimited(r: Reply) {
    r.Replied? && r.status == TOO_MANY_REQUESTS
  }

  function WaitAfter(w: World, i: nat): int {
    Wait(i, if w.reply(i).Replied? then w.reply(i).retryAfter else "", w.draw(i))
  }

  /** Attempt `i` is the last one: it is the final retry, was not rate limited, or its wait was cut short. */
  predicate Stops(w: World, i: nat) {
    i == MAX_RETRIES || !RateLimited(w.reply(i)) || w.interrupt(i).Some?
  }

  /** The first attempt that stops the machine. */
  ghost function StopAt(w: World, from: nat): (k: nat)
    requires from <= MAX_RETRIES
    ensures from <= k <= MAX_RETRIES && Stops(w, k)
    ensures forall i :: from <= i < k ==> !Stops(w, i)
    decreases MAX_RETRIES - from
  {
    if Stops(w, from) then from else StopAt(w, from + 1)
  }

  /** The events of `k` rate-limited attempts, each waited out in full. */
  ghost function Rounds(w: World, k: nat): seq<Event> {
    if k == 0 then [] else Rounds(w, k - 1) + FullRound(w, k - 1)
  }

  ghost function FullRound(w: World, i: nat): seq<Event> {
    [Request(i), CloseBody(i), Sleep(WaitAfter(w, i))]
  }

  ghost function LastRound(w: World, k: nat): seq<Event> {
    if !RateLimited(w.reply(k)) then [Request(k)]
    else if k == MAX_RETRIES then [Request(k), CloseBody(k)]
    else FullRound(w, k)
  }

  /** Everything a call does, in order. */
  ghost function RetryTrace(w: World): seq<Event> {
    var k := StopAt(w, 0);
    Rounds(w, k) + LastRound(w, k)
  }

  /** What a call returns: it depends on the stopping attempt alone. */
  ghost function RetryResult(w: World): Result<Response, Error> {
    ResultAt(w, StopAt(w, 0))
  }

  ghost function ResultAt(w: World, k: nat): Result<Response, Error>
    requires k <= MAX_RETRIES && Stops(w, k)
  {
    match w.reply(k)
    case Failed(f) =>
      if IsNetworkError(Library(f)) then Err(RetriableError(Wrapped("network error on attempt", Library(f))))
      else Err(Library(f))
    case Replied(status, _, body) =>
      if status != TOO_MANY_REQUESTS then Ok(Response(k, body))
      else if k == MAX_RETRIES then
        Err(RetriableError(Library(Foreign(NotNetwork, "rate limited after retries", None))))
      else Err(Wrapped("context cancelled during rate-limit wait", Library(w.interrupt(k).value)))
  }

  /** The wait before the next attempt. */
  method WaitDuration(attempt: nat, retryAfter: string, draw: nat) returns (wait: int)
    ensures wait == Wait(attempt, retryAfter, draw)
  {
    BackoffRange(attempt);
    if retryAfter != "" {
      var seconds := Atoi(retryAfter);
      if seconds.Some? && seconds.value > 0 {
        return Wrap64(seconds.value * SECOND);
      }
    }
    var drawn := CalculateBackoff(attempt, draw);
    wait := drawn.value;
  }

  /** A call that began with trace `start` is about to make attempt `k`. */
  ghost predicate Retrying(w: World, start: seq<Event>, trace: seq<Event>, k: nat) {
    k <= MAX_RETRIES && (forall i :: 0 <= i < k ==> !Stops(w, i)) && trace == start + Rounds(w, k)
  }

  lemma Stopped(w: World, start: seq<Event>, trace: seq<Event>, k: nat)
    requires Retrying(w, start, trace, k) && Stops(w, k)
    ensures RetryResult(w) == ResultAt(w, k)
    ensures start + RetryTrace(w) == start + (Rounds(w, k) + LastRound(w, k))
  {
    StopsFirstAt(w, k);
    hide ResultAt, StopAt, Rounds, LastRound;
  }

  /** An attempt that is not rate limited ends the call. */
  lemma AnswerEnds(w: World, start: seq<Event>, trace: seq<Event>, k: nat)
    requires Retrying(w, start, trace, k) && !RateLimited(w.reply(k))
    ensures trace + [Request(k)] == start + RetryTrace(w) && RetryResult(w) == ResultAt(w, k)
  {
    Stopped(w, start, trace, k);
    RoundsGrow(w, start, k);
    hide ResultAt, RetryResult, RetryTrace, StopAt, Rounds;
  }

  /** The last retry ends the call with its body closed. */
  lemma LastRetryEnds(w: World, start: seq<Event>, trace: seq<Event>, k: nat)
    requires Retrying(w, start, trace, k) && RateLimited(w.reply(k)) && k == MAX_RETRIES
    ensures trace + [Request(k)] + [CloseBody(k)] == start + RetryTrace(w) && RetryResult(w) == ResultAt(w, k)
  {
    Stopped(w, start, trace, k);
    RoundsGrow(w, start, k);
    hide ResultAt, RetryResult, RetryTrace, StopAt, Rounds;
  }

  /** A wait that is cut short ends the call; one that is not leads to the next attempt. */
  lemma WaitEndsOrGoesOn(w: World, start: seq<Event>, trace: seq<Event>, k: nat)
    requires Retrying(w, start, trace, k) && RateLimited(w.reply(k)) && k < MAX_RETRIES
    ensures var waited := trace + [Request(k)] + [CloseBody(k)] + [Sleep(WaitAfter(w, k))];
            if w.interrupt(k).Some? then waited == start + RetryTrace(w) && RetryResult(w) == ResultAt(w, k)
            else Retrying(w, start, waited, k + 1)
  {
    if Stops(w, k) { Stopped(w, start, trace, k); }
    RoundsGrow(w, start, k);
    hide ResultAt, RetryResult, RetryTrace, StopAt, Rounds, WaitAfter;
  }

  lemma StopsFirstAt(w: World, k: nat)
    requires k <= MAX_RETRIES && Stops(w, k) && forall i :: 0 <= i < k ==> !Stops(w, i)
    ensures StopAt(w, 0) == k
  {
    var at := StopAt(w, 0);
    hide StopAt;
    assert !(at < k) && !(k < at);
  }

  /** The trace of the rounds before attempt `k` goes on with the events of that attempt. */
  lemma RoundsGrow(w: World, start: seq<Event>, k: nat)
    ensures var trace := start + Rounds(w, k);
            && trace + [Request(k)] == start + (Rounds(w, k) + [Request(k)])
            && trace + [Request(k)] + [CloseBody(k)] == start + (Rounds(w, k) + [Request(k), CloseBody(k)])
            && trace + [Request(k)] + [CloseBody(k)] + [Sleep(WaitAfter(w, k))]
               == start + (Rounds(w, k) + FullRound(w, k))
            && Rounds(w, k + 1) == Rounds(w, k) + FullRound(w, k)
  {
    var so := Rounds(w, k);
    assert Rounds(w, k + 1) == so + FullRound(w, k);
    hide Wait, Rounds;
    assert so + [Request(k)] + [CloseBody(k)] == so + [Request(k), CloseBody(k)];
    assert so + [Request(k)] + [CloseBody(k)] + [Sleep(WaitAfter(w, k))] == so + FullRound(w, k);
  }

  lemma RetryBegins(w: World, start: seq<Event>)
    ensures Retrying(w, start, start, 0)
  {
    assert Rounds(w, 0) == [];
    assert start + Rounds(w, 0) == start;
  }

  method DoWithRetry(wire: Wire) returns (r: Result<Response, Error>)
    modifies wire
    ensures wire.trace == old(wire.trace) + RetryTrace(wire.world)
    ensures r == RetryResult(wire.world)
  {
    var w := wire.world;
    ghost var start := wire.trace;
    var attempt := 0;
    RetryBegins(w, start);
    hide Wait, IsNetworkError, RetryTrace, RetryResult, Retrying;
    while attempt <= MAX_RETRIES
      invariant 0 <= attempt <= MAX_RETRIES
      invariant Retrying(w, start, wire.trace, attempt)
      decreases MAX_RETRIES - attempt
    {
      ghost var before := wire.trace;
      var reply := w.reply(attempt);
      wire.trace := wire.trace + [Request(attempt)];
      if reply.Failed? {
        AnswerEnds(w, start, before, attempt);
        if IsNetworkError(Library(reply.err)) {
          return Err(RetriableError(Wrapped("network error on attempt", Library(reply.err))));
        }
        return Err(Library(reply.err));
      }
      if reply.status != TOO_MANY_REQUESTS {
        AnswerEnds(w, start, before, attempt);
        return Ok(Response(attempt, reply.body));
      }
      wire.trace := wire.trace + [CloseBody(attempt)];
      if attempt == MAX_RETRIES {
        LastRetryEnds(w, start, before, attempt);
        return Err(RetriableError(Library(Foreign(NotNetwork, "rate limited after retries", None))));
      }
      var wait := WaitDuration(attempt, reply.retryAfter, w.draw(attempt));
      wire.trace := wire.trace + [Sleep(wait)];
      WaitEndsOrGoesOn(w, start, before, attempt);
      var interrupted := w.interrupt(attempt);
      if interrupted.Some? {
        return Err(Wrapped("context cancelled during rate-limit wait", Library(interrupted.value)));
      }
      attempt := attempt + 1;
    }
    assert false;
  }

  // ---------- What every call keeps ----------

  lemma FullRoundCount(w: World, k: nat, i: nat)
    ensures multiset(FullRound(w, k))[Request(i)] == if i == k then 1 else 0
    ensures multiset(FullRound(w, k))[CloseBody(i)] == if i == k then 1 else 0
  {
    hide Wait;
  }

  lemma {:induction false} RoundsCount(w: World, k: nat, i: nat)
    ensures multiset(Rounds(w, k))[Request(i)] == if i < k then 1 else 0
    ensures multiset(Rounds(w, k))[CloseBody(i)] == if i < k then 1 else 0
    decreases k
  {
    hide Wait, FullRound;
    if k > 0 {
      RoundsCount(w, k - 1, i);
      FullRoundCount(w, k - 1, i);
    }
  }

  function TotalSleep(t: seq<Event>): (r: int) {
    if t == [] then 0 else TotalSleep(t[..|t| - 1]) + if t[|t| - 1].Sleep? then t[|t| - 1].duration else 0
  }

  function Sleeps(t: seq<Event>): (r: nat) {
    if t == [] then 0 else Sleeps(t[..|t| - 1]) + if t[|t| - 1].Sleep? then 1 else 0
  }

  lemma {:induction false} SleepsAppend(t: seq<Event>, u: seq<Event>)
    ensures Sleeps(t + u) == Sleeps(t) + Sleeps(u) && TotalSleep(t + u) == TotalSleep(t) + TotalSleep(u)
    decreases |u|
  {
    if u == [] {
      assert t + u == t;
    } else {
      SleepsAppend(t, u[..|u| - 1]);
      assert (t + u)[..|t + u| - 1] == t + u[..|u| - 1];
    }
  }

  lemma RoundSleeps(w: World, k: nat)
    ensures Sleeps(FullRound(w, k)) == 1 && TotalSleep(FullRound(w, k)) == WaitAfter(w, k)
    ensures LastRound(w, k) != FullRound(w, k) ==> Sleeps(LastRound(w, k)) == 0 == TotalSleep(LastRound(w, k))
  {
    hide Wait;
    var one, two, three := [Request(k)], [Request(k), CloseBody(k)], FullRound(w, k);
    assert one[..|one| - 1] == [];
    assert Sleeps(one) == 0 == TotalSleep(one);
    assert two[..|two| - 1] == one;
    assert Sleeps(two) == 0 == TotalSleep(two);
    assert three[..|three| - 1] == two;
  }

  lemma {:induction false} RoundsSleeps(w: World, k: nat)
    ensures Sleeps(Rounds(w, k)) == k
    decreases k
  {
    hide FullRound, Wait;
    if k > 0 {
      RoundsSleeps(w, k - 1);
      RoundSleeps(w, k - 1);
      SleepsAppend(Rounds(w, k - 1), FullRound(w, k - 1));
    }
  }

  /** Body ownership and effort, for every sequence of responses: each attempt is made once, at most
      four are made and at most three waits; every 429 body is closed exactly once and no other body
      is closed here. */
  lemma RetryEffects(w: World, i: nat)
    ensures var n := StopAt(w, 0) + 1;
            && n <= 4
            && multiset(RetryTrace(w))[Request(i)] == (if i < n then 1 else 0)
            && multiset(RetryTrace(w))[CloseBody(i)] == (if i < n && RateLimited(w.reply(i)) then 1 else 0)
    ensures Sleeps(RetryTrace(w)) <= 3
  {
    hide Wait, FullRound, Rounds;
    var k := StopAt(w, 0);
    RoundsCount(w, k, i);
    FullRoundCount(w, k, i);
    RetrySleeps(w);
  }

  lemma RetrySleeps(w: World)
    ensures var k := StopAt(w, 0);
            Sleeps(RetryTrace(w)) == if RateLimited(w.reply(k)) && k < MAX_RETRIES then k + 1 else k
  {
    var k := StopAt(w, 0);
    RoundsSleeps(w, k);
    RoundSleeps(w, k);
    SleepsAppend(Rounds(w, k), LastRound(w, k));
  }

  /** The call succeeds exactly when some attempt among the first four gets a response other than 429
      after uninterrupted waits, and then returns the first such response, body still open. */
  lemma RetryReturnsFirstResponse(w: World, k: nat)
    ensures (k <= MAX_RETRIES && w.reply(k).Replied? && !RateLimited(w.reply(k))
             && forall i :: 0 <= i < k ==> RateLimited(w.reply(i)) && w.interrupt(i).None?)
            <==> RetryResult(w) == Ok(Response(k,
              if w.reply(k).Replied? then w.reply(k).body else ReadFails(w.reply(k).err)))
    ensures RetryResult(w).Ok? ==> multiset(RetryTrace(w))[CloseBody(RetryResult(w).value.attempt)] == 0
  {
    hide Rounds, LastRound, Wait;
    if RetryResult(w).Ok? {
      RetryEffects(w, RetryResult(w).value.attempt);
    }
  }

  /** Attempt `i` is answered with a 429, and the wait after it runs its course. */
  predicate TurnedAway(w: World, i: nat) {
    w.reply(i).Replied? && w.reply(i).status == 429 && w.interrupt(i).None?
  }

  lemma {:induction false} RoundsAt(w: World, k: nat, i: nat)
    requires i < k && w.reply(i).Replied?
    ensures |Rounds(w, k)| == 3 * k
    ensures Rounds(w, k)[3 * i] == Request(i) && Rounds(w, k)[3 * i + 1] == CloseBody(i)
    ensures Rounds(w, k)[3 * i + 2] == Sleep(Wait(i, w.reply(i).retryAfter, w.draw(i)))
    decreases k
  {
    hide Wait;
    RoundsLength(w, k - 1);
    if i < k - 1 { RoundsAt(w, k - 1, i); }
  }

  lemma {:induction false} RoundsLength(w: World, k: nat)
    ensures |Rounds(w, k)| == 3 * k
    decreases k
  {
    if k > 0 { RoundsLength(w, k - 1); }
  }

  /** The order of events, and what the waits are: after every 429 but the fourth comes, in place, the closing
      of its body and a wait computed from its own Retry-After header, attempt number and random draw. */
  lemma HeaderSetsTheWait(w: World, i: nat)
    requires i < 3 && (forall j :: 0 <= j < i ==> TurnedAway(w, j)) && RateLimited(w.reply(i))
    ensures var trace := RetryTrace(w);
            && |trace| > 3 * i + 2 && trace[3 * i] == Request(i) && trace[3 * i + 1] == CloseBody(i)
            && trace[3 * i + 2] == Sleep(Wait(i, w.reply(i).retryAfter, w.draw(i)))
  {
    var k := StopAt(w, 0);
    assert k < i ==> TurnedAway(w, k);
    assert k >= i;
    RoundsLength(w, k);
    if i < k { RoundsAt(w, k, i); }
    hide StopAt, Rounds, Wait;
  }

  /** A header that asks for a whole number of seconds, up to 9223372036, is waited for in nanoseconds. */
  lemma HeaderIsWaitedFor(w: World, i: nat, seconds: int)
    requires i < 3 && (forall j :: 0 <= j < i ==> TurnedAway(w, j)) && RateLimited(w.reply(i))
    requires w.reply(i).retryAfter == Itoa(seconds) && 0 < seconds <= 9_223_372_036
    ensures |RetryTrace(w)| > 3 * i + 2 && RetryTrace(w)[3 * i + 2] == Sleep(seconds * 1_000_000_000)
  {
    HeaderSetsTheWait(w, i);
    RetryAfterIsHonouredIff(i, seconds, w.draw(i));
    hide RetryTrace, Wait, Itoa;
  }

  /** A transport failure ends the call with that failure, retriable exactly if it is a network one. */
  lemma TransportFailureIsReturned(w: World, k: nat, f: Foreign)
    requires k <= MAX_RETRIES && (forall j :: 0 <= j < k ==> TurnedAway(w, j)) && w.reply(k) == Failed(f)
    ensures RetryResult(w).Err? && Root(RetryResult(w).error) == Library(f)
    ensures AsRetriableError(RetryResult(w).error) <==> Networked(f)
  {
    assert forall j :: 0 <= j < k && TurnedAway(w, j) ==> !Stops(w, j);
    StopsFirstAt(w, k);
    NetworkErrorIsTheRoot(Library(f));
    hide StopAt, Networked, IsNetworkError;
  }

  /** A wait that is cut short ends the call with the context's error, never retriable here. */
  lemma CutShortWaitIsReturned(w: World, k: nat, f: Foreign)
    requires k < MAX_RETRIES && (forall j :: 0 <= j < k ==> TurnedAway(w, j)) && RateLimited(w.reply(k))
    requires w.interrupt(k) == Some(f)
    ensures RetryResult(w).Err? && Root(RetryResult(w).error) == Library(f) && !AsRetriableError(RetryResult(w).error)
  {
    assert forall j :: 0 <= j < k && TurnedAway(w, j) ==> !Stops(w, j);
    StopsFirstAt(w, k);
    hide StopAt;
  }

  /** Four rate-limited responses, all waits completed, give a retriable error. */
  lemma ExhaustedRetriesAreRetriable(w: World)
    requires forall i :: 0 <= i <= MAX_RETRIES ==> RateLimited(w.reply(i))
    requires forall i :: 0 <= i < MAX_RETRIES ==> w.interrupt(i).None?
    ensures RetryResult(w).Err? && IsRetriableError(RetryResult(w).error)
    ensures multiset(RetryTrace(w))[Request(3)] == 1 && Sleeps(RetryTrace(w)) == 3
  {
    RetryEffects(w, 3);
    RetrySleeps(w);
  }

  /** With no Retry-After header in any response a whole call waits less than seven seconds. */
  lemma BackoffCallIsUnderSevenSeconds(w: World)
    requires forall i :: w.reply(i).Replied? ==> w.reply(i).retryAfter == ""
    ensures 0 <= TotalSleep(RetryTrace(w)) < 7 * SECOND
  {
    var k := StopAt(w, 0);
    BackoffSum(w, k);
    RoundSleeps(w, k);
    SleepsAppend(Rounds(w, k), LastRound(w, k));
    assert Pow2(2) == 4 && Pow2(3) == 8;
    OtherwiseBackoff(k, "", w.draw(k));
    if k < MAX_RETRIES { Pow2Doubles(k, 2); }
  }

  lemma {:induction false} BackoffSum(w: World, k: nat)
    requires forall i :: w.reply(i).Replied? ==> w.reply(i).retryAfter == ""
    ensures 0 <= TotalSleep(Rounds(w, k)) <= (Pow2(k) - 1) * SECOND - k
    decreases k
  {
    if k > 0 {
      BackoffSum(w, k - 1);
      OtherwiseBackoff(k - 1, "", w.draw(k - 1));
      RoundSleeps(w, k - 1);
      SleepsAppend(Rounds(w, k - 1), FullRound(w, k - 1));
    }
  }
}
