// The numbers of the retry loop and the circuit breaker: when an attempt is made, when a dropped one is
// repeated, how long the pauses are, and that the bound on failing attempts is reached.
module Breaker {
  import opened Basics
  import opened ChainReader
  import opened Pacing
  import opened RpcGuard

  // ----- When an attempt is made -----

  /** A call makes an attempt if and only if fewer than five failures are on record or 60 seconds have passed. */
  lemma AttemptIff<T>(g: Guard, script: seq<EthCall<T>>)
    ensures |Execute(g, script).attempts| > 0 <==> script != [] && (g.failures < 5 || g.clock - g.lastFailure >= 60.0)
    ensures g.failures >= 5 && g.clock - g.lastFailure < 60.0 ==>
              Execute(g, script) == Trace(g, ConnectionError(CircuitOpen), [], 0.0)
  {
    RetryRefines(g, script);
  }

  /** The first `j` attempts are dropped. */
  predicate DroppedUpTo<T>(script: seq<EthCall<T>>, j: nat) {
    j <= |script| && forall i :: 0 <= i < j ==> script[i].outcome.Dropped?
  }

  lemma {:induction false} FromDropped<T>(g: Guard, attempt: nat, script: seq<EthCall<T>>, j: nat)
    requires 1 <= attempt <= j <= |script| && DroppedUpTo(script, j - 1) && g.failures + j - attempt < 5
    ensures
      var trace, call := From(g, attempt, script), script[j - 1];
      if !call.outcome.Dropped? then
        && |trace.attempts| == j + 1 - attempt
        && trace.guard.failures == (if call.outcome.Returned? then 0 else g.failures + j + 1 - attempt)
        && trace.reply == (match call.outcome
                           case Returned(v) => Value(v)
                           case Reverted => ContractError
                           case _ => TimeoutError)
      else
        && |trace.attempts| >= j + 1 - attempt
        && (j == |script| ==> trace.reply == ConnectionError(RetriesExhausted))
    decreases j - attempt
  {
    if attempt < j {
      FromDropped(AfterRound(g, attempt, true, script[attempt - 1]).0, attempt + 1, script, j);
    }
  }

  /**
   * Dropped attempts are repeated as long as fewer than five failures are on record: if all before the
   * `j`-th are dropped, the `j`-th is made, and unless it is dropped too, its outcome is the reply. A
   * success clears the count and anything else adds to it.
   */
  lemma DroppedIsRepeated<T>(g: Guard, script: seq<EthCall<T>>, j: nat)
    requires 1 <= j <= |script| && DroppedUpTo(script, j - 1) && g.failures + j - 1 < 5
    ensures
      var trace, call := Execute(g, script), script[j - 1];
      if !call.outcome.Dropped? then
        && |trace.attempts| == j
        && trace.guard.failures == (if call.outcome.Returned? then 0 else g.failures + j)
        && trace.reply == (match call.outcome
                           case Returned(v) => Value(v)
                           case Reverted => ContractError
                           case _ => TimeoutError)
      else
        && |trace.attempts| >= j
        && (j == |script| ==> |trace.attempts| == j && trace.reply == ConnectionError(RetriesExhausted))
  {
    FromDropped(g, 1, script, j);
    RetryRefines(g, script);
  }

  /** With the breaker's threshold reached a dropped attempt is the last, unless its back-off outlasts the pause. */
  lemma FifthFailureEnds<T>(g: Guard, script: seq<EthCall<T>>, j: nat)
    requires 1 <= j < |script| && DroppedUpTo(script, j)
    requires g.failures + j - 1 < 5 || (j == 1 && g.clock - g.lastFailure >= 60.0)
    requires g.failures + j >= 5
    ensures
      var trace := Execute(g, script);
      if Pow2(j - 1) as real + script[j - 1].overslept < 60.0 then
        |trace.attempts| == j && trace.reply == ConnectionError(CircuitOpen)
      else |trace.attempts| > j
  {
    RetryRefines(g, script);
    var m := |Execute(g, script).attempts|;
    if g.failures + j - 1 < 5 {
      DroppedIsRepeated(g, script, j);
    }
    assert m > j ==> GoesOn(g, script, j);
  }

  // ----- The back-off -----

  /** One second before the second attempt, and twice as long each time. */
  lemma BackoffDoubles(n: nat)
    requires n >= 1
    ensures Backoff(1) == 1 && Backoff(2) == 2 && Backoff(3) == 4 && Backoff(n + 1) == 2 * Backoff(n)
  {
    assert Pow2(2) == 2 * Pow2(1) == 4;
  }

  /** When the `i`-th attempt of a trace starts and ends. */
  ghost predicate Spaced<T>(attempts: seq<Attempt>, first: nat, script: seq<EthCall<T>>, clock: real) {
    && 1 <= first && first - 1 + |attempts| <= |script|
    && (attempts != [] ==> attempts[0].span.start == clock)
    && (forall i :: 0 <= i < |attempts| ==>
          && attempts[i].span.end == attempts[i].span.start + script[first - 1 + i].took
          && (attempts[i].succeeded <==> script[first - 1 + i].outcome.Returned?))
    && (forall i :: 0 < i < |attempts| ==>
          attempts[i].span.start ==
            attempts[i - 1].span.end + Backoff(first + i - 1) as real + script[first + i - 2].overslept)
  }

  lemma SpacedCons<T>(x: Attempt, rest: seq<Attempt>, first: nat, script: seq<EthCall<T>>, start: real, next: real)
    requires 1 <= first <= |script| && Spaced(rest, first + 1, script, next)
    requires x == Attempt(Interval(start, start + script[first - 1].took), script[first - 1].outcome.Returned?)
    requires rest != [] ==> next == x.span.end + Backoff(first) as real + script[first - 1].overslept
    ensures Spaced([x] + rest, first, script, start)
  {
    var all := [x] + rest;
    forall i | 0 < i < |all|
      ensures all[i] == rest[i - 1]
      ensures all[i].span.start ==
                all[i - 1].span.end + Backoff(first + i - 1) as real + script[first + i - 2].overslept
      ensures all[i].span.end == all[i].span.start + script[first - 1 + i].took
      ensures all[i].succeeded <==> script[first - 1 + i].outcome.Returned?
    {
      if i > 1 {
        assert all[i - 1] == rest[i - 2];
        assert rest[i - 1].span.start ==
               rest[i - 2].span.end + Backoff(first + 1 + (i - 1) - 1) as real +
                 script[first + 1 + (i - 1) - 2].overslept;
      }
      assert rest[i - 1].span.end == rest[i - 1].span.start + script[first + 1 - 1 + (i - 1)].took;
    }
  }

  lemma {:induction false} FromSpaced<T>(g: Guard, attempt: nat, script: seq<EthCall<T>>)
    requires attempt >= 1 && attempt <= |script| + 1
    ensures Spaced(From(g, attempt, script).attempts, attempt, script, g.clock)
    decreases |script| + 1 - attempt
  {
    if attempt <= |script| {
      var call := script[attempt - 1];
      var (next, settled) := AfterRound(g, attempt, attempt < |script|, call);
      var rest := if settled.Some? then [] else From(next, attempt + 1, script).attempts;
      if settled.None? {
        FromSpaced(next, attempt + 1, script);
      }
      assert From(g, attempt, script).attempts == [Made(g, call)] + rest;
      SpacedCons(Made(g, call), rest, attempt, script, g.clock, next.clock);
    }
  }

  /**
   * The attempts of a call follow each other by exactly the back-off and what the sleep overruns: the
   * first starts at once, and the one after the `i`-th starts 2^(i - 1) seconds and that excess after its end.
   */
  lemma AttemptsAreSpaced<T>(g: Guard, script: seq<EthCall<T>>)
    ensures Spaced(Execute(g, script).attempts, 1, script, g.clock)
  {
    if !Open(g) {
      FromSpaced(g, 1, script);
    }
  }

  /** The configured limit is used up: three dropped attempts with three seconds of back-off. */
  lemma ConfiguredLimit<T>(g: Guard, script: seq<EthCall<T>>)
    requires |script| == BLOCKCHAIN_MAX_RETRIES && DroppedUpTo(script, |script|) && g.failures < 3
    ensures |Execute(g, script).attempts| == 3 && Execute(g, script).slept == 3.0
    ensures Execute(g, script).reply == ConnectionError(RetriesExhausted)
  {
    DroppedIsRepeated(g, script, 3);
    BackoffDoubles(1);
    var second := AfterRound(g, 1, true, script[0]).0;
    var third := AfterRound(second, 2, true, script[1]).0;
    assert From(third, 3, script).slept == 0.0;
    assert From(second, 2, script).slept == 2.0;
  }

  // ----- The rate bound is reached -----

  /** A call whose every attempt would time out at once, so that only the first is made. */
  function Failing<T>(limit: nat): (script: seq<EthCall<T>>)
    ensures |script| == limit && forall i :: 0 <= i < limit ==> script[i] == EthCall(TimedOut, 0.0, 0.0)
  {
    seq(limit, i => EthCall(TimedOut, 0.0, 0.0))
  }

  /** Five such calls at once, and then one a minute. */
  function Drumming<T>(limit: nat, n: nat): (requests: seq<Request<T>>)
    ensures |requests| == n
  {
    if n == 0 then []
    else Drumming(limit, n - 1) + [Request(if n <= 5 then 0.0 else 60.0, Failing(limit))]
  }

  /** When the `i`-th beat falls. */
  function Beat(start: real, i: int): real {
    start + if i <= 5 then 0.0 else (i - 5) as real * 60.0
  }

  ghost predicate Drummed(start: real, n: nat, done: Served) {
    && |done.attempts| == n && done.guard.failures == n && done.guard.clock == Beat(start, n)
    && (n > 0 ==> done.guard.lastFailure == Beat(start, n))
    && forall i :: 0 <= i < n ==> done.attempts[i] == Attempt(Interval(Beat(start, i + 1), Beat(start, i + 1)), false)
  }

  lemma OneBeat<T>(g: Guard, script: seq<EthCall<T>>)
    requires script != [] && script[0] == EthCall(TimedOut, 0.0, 0.0) && !Open(g)
    ensures
      var trace := Execute(g, script);
      && trace.guard == Guard(g.failures + 1, g.clock, g.clock)
      && trace.attempts == [Attempt(Interval(g.clock, g.clock), false)]
  {
  }

  lemma {:induction false} DrummingServed<T>(start: real, limit: nat, n: nat, requests: seq<Request<T>>)
    requires limit >= 1 && requests == Drumming(limit, n)
    ensures Drummed(start, n, ServeAll(start, requests))
  {
    if n > 0 {
      var init: seq<Request<T>>, r := Drumming(limit, n - 1), requests[n - 1];
      assert requests[..n - 1] == init;
      DrummingServed(start, limit, n - 1, init);
      var done := ServeAll(start, init);
      OneBeat(done.guard.(clock := done.guard.clock + r.wait), r.script);
    }
  }

  lemma {:induction false} DrummingLimit<T>(limit: nat, n: nat, requests: seq<Request<T>>)
    requires requests == Drumming(limit, n)
    ensures forall i :: 0 <= i < |requests| ==> |requests[i].script| == limit
  {
    if n > 0 {
      DrummingLimit<T>(limit, n - 1, Drumming(limit, n - 1));
    }
  }

  /**
   * The rate bound is tight: under every retry limit and for every window, some run has exactly
   * 5 + floor(window / 60) failing attempts in it.
   */
  lemma RateBoundIsReached<T>(start: real, limit: nat, window: real) returns (requests: seq<Request<T>>)
    requires limit >= 1 && window >= 0.0
    ensures forall i :: 0 <= i < |requests| ==> |requests[i].script| == limit
    ensures
      var attempts := ServeAll(start, requests).attempts;
      |attempts| == 5 + (window / 60.0).Floor && FailingWithin(attempts, 0, |attempts|, start, window)
  {
    var n := 5 + (window / 60.0).Floor;
    requests := Drumming(limit, n);
    DrummingServed(start, limit, n, requests);
    DrummingLimit(limit, n, requests);
  }
}
