// Retries and the circuit breaker of the chain client: _execute_with_retry, _check_circuit_breaker
// and _record_failure of backend/blockchain/blockchain_service.py.
module RpcGuard {
  import opened Basics
  import opened ChainReader
  import opened Pacing

  const BLOCKCHAIN_MAX_RETRIES: nat := 3
  const BLOCKCHAIN_CIRCUIT_BREAKER_THRESHOLD: nat := 5
  const BLOCKCHAIN_CIRCUIT_BREAKER_PAUSE_SECONDS: real := 60.0

  /** How one eth_call ends. */
  datatype Outcome<+T> =
    | Returned(value: T)
    | Reverted           // ContractLogicError
    | TimedOut           // TimeExhausted
    | Dropped            // a connection error, or any other exception

  /** One eth_call: how it ends, how long it takes, and how much a sleep after it overruns. */
  datatype EthCall<+T> = EthCall(outcome: Outcome<T>, took: Duration, overslept: Duration)

  datatype Why = CircuitOpen | RetriesExhausted

  datatype CallReply<+T> = Value(value: T) | ContractError | TimeoutError | ConnectionError(why: Why)

  datatype Guard = Guard(failures: nat, lastFailure: real, clock: real)

  /** An attempt that was made. */
  datatype Attempt = Attempt(span: Interval, succeeded: bool)

  datatype Trace<+T> = Trace(guard: Guard, reply: CallReply<T>, attempts: seq<Attempt>, slept: real)

  predicate Open(g: Guard) {
    && g.failures >= BLOCKCHAIN_CIRCUIT_BREAKER_THRESHOLD
    && g.clock - g.lastFailure < BLOCKCHAIN_CIRCUIT_BREAKER_PAUSE_SECONDS
  }

  function Pow2(n: nat): nat {
    if n == 0 then 1 else 2 * Pow2(n - 1)
  }

  function Backoff(attempt: nat): nat
    requires attempt >= 1
  {
    Pow2(attempt - 1)
  }

  function Failed(g: Guard, end: real): Guard {
    Guard(g.failures + 1, end, end)
  }

  /** The guard right after an attempt. */
  function Noted(g: Guard, end: real, succeeded: bool): Guard {
    if succeeded then Guard(0, g.lastFailure, end) else Failed(g, end)
  }

  /** The attempt that making `call` in state `g` is. */
  function Made<T>(g: Guard, call: EthCall<T>): Attempt {
    Attempt(Interval(g.clock, g.clock + call.took), call.outcome.Returned?)
  }

  function Asleep<T>(g: Guard, attempt: nat, call: EthCall<T>): Guard
    requires attempt >= 1
  {
    g.(clock := g.clock + Backoff(attempt) as real + call.overslept)
  }

  /** The reply to an outcome that is not retried. */
  function Settled<T>(outcome: Outcome<T>): CallReply<T>
    requires !outcome.Dropped?
  {
    match outcome
    case Returned(v) => Value(v)
    case Reverted => ContractError
    case TimedOut => TimeoutError
  }

  /** One round of the loop: the attempt and, when a dropped one may be retried, the sleep and the breaker. */
  function AfterRound<T>(g: Guard, attempt: nat, more: bool, call: EthCall<T>): (Guard, Option<CallReply<T>>)
    requires attempt >= 1
  {
    var noted := Noted(g, g.clock + call.took, call.outcome.Returned?);
    if !call.outcome.Dropped? then (noted, Some(Settled(call.outcome)))
    else if !more then (noted, None)
    else
      var awake := Asleep(noted, attempt, call);
      (awake, if Open(awake) then Some(ConnectionError(CircuitOpen)) else None)
  }

  /**
   * The loop from its `attempt`-th round on. `script` says how each of the eth_calls that the retry
   * limit allows would go, so its length is the limit.
   */
  function From<T>(g: Guard, attempt: nat, script: seq<EthCall<T>>): Trace<T>
    requires attempt >= 1
    decreases |script| + 1 - attempt
  {
    if attempt > |script| then Trace(g, ConnectionError(RetriesExhausted), [], 0.0)
    else
      var call := script[attempt - 1];
      var (next, settled) := AfterRound(g, attempt, attempt < |script|, call);
      var nap := if call.outcome.Dropped? && attempt < |script| then Backoff(attempt) as real else 0.0;
      match settled
      case Some(reply) => Trace(next, reply, [Made(g, call)], nap)
      case None =>
        var rest := From(next, attempt + 1, script);
        Trace(rest.guard, rest.reply, [Made(g, call)] + rest.attempts, nap + rest.slept)
  }

  /** After the attempts `done`, `rest` is what is left of the call `all`. */
  ghost predicate Continues<T>(all: Trace<T>, done: seq<Attempt>, rest: Trace<T>) {
    all.guard == rest.guard && all.reply == rest.reply && all.attempts == done + rest.attempts
  }

  lemma Snoc(a: seq<Attempt>, b: seq<Attempt>, x: Attempt)
    ensures a + b + [x] == a + (b + [x])
  {
  }

  lemma RoundContinues<T>(all: Trace<T>, done: seq<Attempt>, g: Guard, attempt: nat, script: seq<EthCall<T>>)
    requires 1 <= attempt <= |script| && Continues(all, done, From(g, attempt, script))
    ensures
      var call := script[attempt - 1];
      var (next, settled) := AfterRound(g, attempt, attempt < |script|, call);
      if settled.Some? then all.guard == next && all.reply == settled.value && all.attempts == done + [Made(g, call)]
      else Continues(all, done + [Made(g, call)], From(next, attempt + 1, script))
  {
  }

  function Execute<T>(g: Guard, script: seq<EthCall<T>>): Trace<T> {
    if Open(g) then Trace(g, ConnectionError(CircuitOpen), [], 0.0) else From(g, 1, script)
  }

  class BlockchainService {
    var consecutiveFailures: nat
    var lastFailureTime: real
    var clock: real               // time.monotonic()
    ghost var history: seq<Attempt>

    constructor (start: real)
      ensures Now() == Guard(0, 0.0, start) && history == []
    {
      consecutiveFailures, lastFailureTime, clock, history := 0, 0.0, start, [];
    }

    function Now(): Guard
      reads this
    {
      Guard(consecutiveFailures, lastFailureTime, clock)
    }

    /** True when the breaker refuses the call. */
    method CheckCircuitBreaker() returns (refused: bool)
      ensures refused == (consecutiveFailures >= 5 && clock - lastFailureTime < 60.0)
    {
      if consecutiveFailures < BLOCKCHAIN_CIRCUIT_BREAKER_THRESHOLD {
        return false;
      }
      var elapsed := clock - lastFailureTime;
      refused := elapsed < BLOCKCHAIN_CIRCUIT_BREAKER_PAUSE_SECONDS;
    }

    method RecordFailure()
      modifies this`consecutiveFailures, this`lastFailureTime
      ensures Now() == Failed(old(Now()), clock)
    {
      consecutiveFailures := consecutiveFailures + 1;
      lastFailureTime := clock;
    }

    /** The eth_call, what its end does to the two fields, and the sleep before the next round. */
    method TryOnce<T>(attempt: nat, more: bool, call: EthCall<T>) returns (settled: Option<CallReply<T>>)
      requires attempt >= 1
      modifies this
      ensures (Now(), settled) == AfterRound(old(Now()), attempt, more, call)
      ensures history == old(history) + [Made(old(Now()), call)]
    {
      history := history + [Made(Now(), call)];
      clock := clock + call.took;
      match call.outcome {
        case Returned(v) =>
          consecutiveFailures := 0;
          return Some(Value(v));
        case Reverted =>
          RecordFailure();
          return Some(ContractError);
        case TimedOut =>
          RecordFailure();
          return Some(TimeoutError);
        case Dropped =>
          RecordFailure();
          if more {
            clock := clock + Backoff(attempt) as real + call.overslept;
            var refused := CheckCircuitBreaker();
            return if refused then Some(ConnectionError(CircuitOpen)) else None;
          }
          return None;
      }
    }

    method ExecuteWithRetry<T>(script: seq<EthCall<T>>) returns (reply: CallReply<T>)
      modifies this
      ensures Now() == Execute(old(Now()), script).guard
      ensures reply == Execute(old(Now()), script).reply
      ensures history == old(history) + Execute(old(Now()), script).attempts
    {
      var refused := CheckCircuitBreaker();
      if refused {
        return ConnectionError(CircuitOpen);
      }
      ghost var all, done := From(Now(), 1, script), [];
      var attempt := 1;
      while attempt <= |script|
        invariant 1 <= attempt <= |script| + 1
        invariant history == old(history) + done
        invariant Continues(all, done, From(Now(), attempt, script))
      {
        ghost var g := Now();
        var settled := TryOnce(attempt, attempt < |script|, script[attempt - 1]);
        RoundContinues(all, done, g, attempt, script);
        Snoc(old(history), done, Made(g, script[attempt - 1]));
        done := done + [Made(g, script[attempt - 1])];
        if settled.Some? {
          return settled.value;
        }
        attempt := attempt + 1;
      }
      return ConnectionError(RetriesExhausted);
    }
  }

  // ----- What one call returns -----

  /** After `j` dropped attempts the breaker refuses the next one. */
  predicate Blocked<T>(g: Guard, script: seq<EthCall<T>>, j: nat)
    requires 1 <= j <= |script|
  {
    g.failures + j >= 5 && Backoff(j) as real + script[j - 1].overslept < 60.0
  }

  /** The `j`-th attempt is dropped and another one follows. */
  predicate GoesOn<T>(g: Guard, script: seq<EthCall<T>>, j: nat)
    requires 1 <= j <= |script|
  {
    script[j - 1].outcome.Dropped? && !Blocked(g, script, j)
  }

  /** `m` attempts were made: the first to settle, or the limit, or as many as the breaker let through. */
  ghost predicate Explains<T>(g: Guard, first: nat, script: seq<EthCall<T>>, m: nat, reply: CallReply<T>)
    requires first >= 1
  {
    && first <= m <= |script|
    && (forall j :: first <= j < m ==> GoesOn(g, script, j))
    && (if !script[m - 1].outcome.Dropped? then reply == Settled(script[m - 1].outcome)
        else if m == |script| then reply == ConnectionError(RetriesExhausted)
        else Blocked(g, script, m) && reply == ConnectionError(CircuitOpen))
  }

  lemma {:induction false} FromExplained<T>(start: Guard, g: Guard, attempt: nat, script: seq<EthCall<T>>)
    requires 1 <= attempt <= |script| && g.failures == start.failures + attempt - 1
    ensures
      var trace := From(g, attempt, script);
      && Explains(start, attempt, script, attempt - 1 + |trace.attempts|, trace.reply)
      && trace.guard.failures == (if trace.reply.Value? then 0 else g.failures + |trace.attempts|)
    decreases |script| - attempt
  {
    var call := script[attempt - 1];
    var (next, settled) := AfterRound(g, attempt, attempt < |script|, call);
    assert attempt < |script| && call.outcome.Dropped? ==> (Open(next) <==> Blocked(start, script, attempt));
    if settled.None? && attempt < |script| {
      FromExplained(start, next, attempt + 1, script);
    }
  }

  /**
   * The retry loop, for every retry limit and every sequence of outcomes. With the breaker open nothing
   * is tried. Otherwise the call ends as its first outcome that is not retried does; failing that, with
   * the exhaustion error after `limit` attempts, or with the breaker's error as soon as the failures so
   * far have reached the threshold and the back-off was shorter than the pause. The failure counter
   * grows by the attempts made, or is reset by a success.
   */
  lemma RetryRefines<T>(g: Guard, script: seq<EthCall<T>>)
    ensures
      var trace := Execute(g, script);
      var m := |trace.attempts|;
      && m <= |script|
      && (if g.failures >= 5 && g.clock - g.lastFailure < 60.0 then
            m == 0 && trace.reply == ConnectionError(CircuitOpen)
          else if |script| == 0 then m == 0 && trace.reply == ConnectionError(RetriesExhausted)
          else Explains(g, 1, script, m, trace.reply))
      && trace.guard.failures == if trace.reply.Value? then 0 else g.failures + m
  {
    if !Open(g) && |script| > 0 {
      FromExplained(g, g, 1, script);
    }
  }

  /** What a service sees of a call: connection and timeout errors are caught together. */
  function AsRpc<T>(reply: CallReply<T>): Rpc<T> {
    match reply
    case Value(v) => Answer(v)
    case ContractError => ContractFault
    case _ => Unreachable
  }

  /** A service gets an answer exactly when some attempt returned it, and only the last one can have. */
  lemma AnswersAreReturned<T>(g: Guard, script: seq<EthCall<T>>, value: T)
    ensures
      var trace := Execute(g, script);
      var m := |trace.attempts|;
      && m <= |script|
      && (AsRpc(trace.reply) == Answer(value) <==> m > 0 && script[m - 1].outcome == Returned(value))
      && (forall j :: 0 <= j < m - 1 ==> script[j].outcome.Dropped?)
  {
    RetryRefines(g, script);
    var m := |Execute(g, script).attempts|;
    forall j | 0 <= j < m - 1
      ensures script[j].outcome.Dropped?
    {
      assert GoesOn(g, script, j + 1);
    }
  }

  lemma {:induction false} FromSleeps<T>(g: Guard, attempt: nat, script: seq<EthCall<T>>)
    requires 1 <= attempt <= |script|
    ensures 0.0 <= From(g, attempt, script).slept <= (Pow2(|script| - 1) - Pow2(attempt - 1)) as real
    decreases |script| - attempt
  {
    Pow2Grows(attempt - 1, |script| - 1);
    var (next, settled) := AfterRound(g, attempt, attempt < |script|, script[attempt - 1]);
    if attempt < |script| {
      Pow2Grows(attempt, |script| - 1);
      assert Pow2(attempt) == 2 * Pow2(attempt - 1);
      if settled.None? {
        FromSleeps(next, attempt + 1, script);
      }
    }
  }

  lemma {:induction false} Pow2Grows(a: nat, b: nat)
    requires a <= b
    ensures Pow2(a) <= Pow2(b)
    decreases b - a
  {
    if a < b {
      Pow2Grows(a, b - 1);
    }
  }

  /** All the back-offs of one call together are at most 2^(limit - 1) - 1 seconds. */
  lemma SleepBound<T>(g: Guard, script: seq<EthCall<T>>)
    requires |script| >= 1
    ensures Execute(g, script).slept <= (Pow2(|script| - 1) - 1) as real
  {
    if Open(g) {
      Pow2Grows(0, |script| - 1);
    } else {
      FromSleeps(g, 1, script);
    }
  }

  /** With the limit the service is configured with: three attempts and three seconds. */
  lemma AsConfigured<T>(g: Guard, script: seq<EthCall<T>>)
    requires |script| == BLOCKCHAIN_MAX_RETRIES
    ensures |Execute(g, script).attempts| <= 3 && Execute(g, script).slept <= 3.0
  {
    RetryRefines(g, script);
    SleepBound(g, script);
    assert Pow2(2) == 2 * Pow2(1) == 4;
  }

  // ----- Whole runs -----

  /** A call to one of the public readers, some time after the previous one ended. */
  datatype Request<!T> = Request(wait: Duration, script: seq<EthCall<T>>)

  datatype Served = Served(guard: Guard, attempts: seq<Attempt>)

  function Serve<T>(done: Served, r: Request<T>): Served {
    var trace := Execute(done.guard.(clock := done.guard.clock + r.wait), r.script);
    Served(trace.guard, done.attempts + trace.attempts)
  }

  function ServeAll<T>(start: real, requests: seq<Request<T>>): Served {
    if requests == [] then Served(Guard(0, 0.0, start), [])
    else Serve(ServeAll(start, requests[..|requests| - 1]), requests[|requests| - 1])
  }

  /** The number of failed attempts since the last success. */
  function Trailing(attempts: seq<Attempt>): nat {
    if attempts == [] || attempts[|attempts| - 1].succeeded then 0
    else 1 + Trailing(attempts[..|attempts| - 1])
  }

  /** How long the breaker makes an attempt wait after so many failures in a row. */
  function PauseAfter(failures: nat): Duration {
    if failures >= BLOCKCHAIN_CIRCUIT_BREAKER_THRESHOLD then BLOCKCHAIN_CIRCUIT_BREAKER_PAUSE_SECONDS else 0.0
  }

  /** Each attempt starts after the one before it ended, and after five failures in a row a pause later. */
  predicate Gated(attempts: seq<Attempt>) {
    attempts == [] ||
    var init, last := attempts[..|attempts| - 1], attempts[|attempts| - 1];
    && Gated(init) && last.span.start <= last.span.end
    && (init != [] ==>
          last.span.start >= init[|init| - 1].span.end +
            PauseAfter(Trailing(init)))
  }

  ghost predicate Tracks(g: Guard, attempts: seq<Attempt>) {
    && g.failures == Trailing(attempts)
    && (g.failures > 0 ==> g.lastFailure == attempts[|attempts| - 1].span.end)
    && (attempts != [] ==> attempts[|attempts| - 1].span.end <= g.clock)
    && Gated(attempts)
  }

  /** One attempt that the breaker lets through. */
  lemma AttemptTracked(g: Guard, attempts: seq<Attempt>, end: real, succeeded: bool)
    requires Tracks(g, attempts) && !Open(g) && g.clock <= end
    ensures Tracks(Noted(g, end, succeeded), attempts + [Attempt(Interval(g.clock, end), succeeded)])
  {
    var all := attempts + [Attempt(Interval(g.clock, end), succeeded)];
    assert all[..|all| - 1] == attempts;
  }

  lemma WaitingTracked(g: Guard, attempts: seq<Attempt>, clock: real)
    requires Tracks(g, attempts) && g.clock <= clock
    ensures Tracks(g.(clock := clock), attempts)
  {
  }

  /** One round keeps track, however long it sleeps. */
  lemma RoundTracked<T>(g: Guard, attempts: seq<Attempt>, attempt: nat, more: bool, call: EthCall<T>)
    requires attempt >= 1 && Tracks(g, attempts) && !Open(g)
    ensures
      var (next, settled) := AfterRound(g, attempt, more, call);
      Tracks(next, attempts + [Made(g, call)]) && (settled.None? && more ==> !Open(next))
  {
    var noted := Noted(g, g.clock + call.took, call.outcome.Returned?);
    AttemptTracked(g, attempts, g.clock + call.took, call.outcome.Returned?);
    WaitingTracked(noted, attempts + [Made(g, call)], AfterRound(g, attempt, more, call).0.clock);
  }

  /** How the loop goes on after its `attempt`-th round. */
  lemma FromUnrolled<T>(g: Guard, attempts: seq<Attempt>, attempt: nat, script: seq<EthCall<T>>)
    requires 1 <= attempt <= |script|
    ensures
      var (next, settled) := AfterRound(g, attempt, attempt < |script|, script[attempt - 1]);
      var done, trace := attempts + [Made(g, script[attempt - 1])], From(g, attempt, script);
      if settled.Some? then trace.guard == next && attempts + trace.attempts == done
      else
        var rest := From(next, attempt + 1, script);
        trace.guard == rest.guard && attempts + trace.attempts == done + rest.attempts
  {
  }

  lemma {:induction false} FromTracked<T>(g: Guard, attempts: seq<Attempt>, attempt: nat, script: seq<EthCall<T>>)
    requires attempt >= 1 && Tracks(g, attempts) && (attempt <= |script| ==> !Open(g))
    ensures Tracks(From(g, attempt, script).guard, attempts + From(g, attempt, script).attempts)
    decreases |script| + 1 - attempt
  {
    if attempt > |script| {
      assert attempts + [] == attempts;
    } else {
      var call := script[attempt - 1];
      FromUnrolled(g, attempts, attempt, script);
      RoundTracked(g, attempts, attempt, attempt < |script|, call);
      var (next, settled) := AfterRound(g, attempt, attempt < |script|, call);
      if settled.None? {
        FromTracked(next, attempts + [Made(g, call)], attempt + 1, script);
      }
    }
  }

  /** In every run the counter is the length of the trailing run of failed attempts. */
  lemma {:induction false} CounterIsTrailing<T>(start: real, requests: seq<Request<T>>)
    ensures Tracks(ServeAll(start, requests).guard, ServeAll(start, requests).attempts)
  {
    if requests == [] {
    } else {
      var done, r := ServeAll(start, requests[..|requests| - 1]), requests[|requests| - 1];
      CounterIsTrailing(start, requests[..|requests| - 1]);
      var g := done.guard.(clock := done.guard.clock + r.wait);
      assert Tracks(g, done.attempts);
      if Open(g) {
        assert done.attempts + [] == done.attempts;
      } else {
        FromTracked(g, done.attempts, 1, r.script);
      }
    }
  }

  lemma {:induction false} TrailingAtLeast(attempts: seq<Attempt>, from: nat, i: nat)
    requires from <= i <= |attempts| && forall j :: from <= j < i ==> !attempts[j].succeeded
    ensures Trailing(attempts[..i]) >= i - from
    decreases i - from
  {
    if i > from {
      TrailingAtLeast(attempts, from, i - 1);
      assert attempts[..i][..i - 1] == attempts[..i - 1];
    }
  }

  lemma {:induction false} GatedAt(attempts: seq<Attempt>, i: nat)
    requires Gated(attempts) && i < |attempts|
    ensures attempts[i].span.start <= attempts[i].span.end
    ensures i > 0 ==>
              attempts[i].span.start >= attempts[i - 1].span.end +
                PauseAfter(Trailing(attempts[..i]))
  {
    if i < |attempts| - 1 {
      GatedAt(attempts[..|attempts| - 1], i);
      assert attempts[..|attempts| - 1][..i] == attempts[..i];
    }
  }

  /** The spans of failed attempts in a row are paced. */
  lemma FailuresArePaced(attempts: seq<Attempt>, lo: nat, hi: nat, xs: seq<Interval>)
    requires Gated(attempts) && lo <= hi <= |attempts| && |xs| == hi - lo
    requires forall j :: lo <= j < hi ==> xs[j - lo] == attempts[j].span && !attempts[j].succeeded
    ensures Paced(xs, BLOCKCHAIN_CIRCUIT_BREAKER_THRESHOLD, BLOCKCHAIN_CIRCUIT_BREAKER_PAUSE_SECONDS)
  {
    forall i | 0 <= i < |xs|
      ensures xs[i].start <= xs[i].end
      ensures i > 0 ==> xs[i - 1].end <= xs[i].start
      ensures i >= 5 ==> xs[i].start >= xs[i - 1].end + BLOCKCHAIN_CIRCUIT_BREAKER_PAUSE_SECONDS
    {
      GatedAt(attempts, lo + i);
      TrailingAtLeast(attempts, lo, lo + i);
    }
  }

  lemma FailuresBound(attempts: seq<Attempt>, lo: nat, hi: nat, from: real, window: real)
    requires Gated(attempts) && lo <= hi <= |attempts| && window >= 0.0
    requires FailingWithin(attempts, lo, hi, from, window)
    ensures hi - lo <= 5 + (window / 60.0).Floor
  {
    var xs := SpansOf(attempts, lo, hi);
    FailuresArePaced(attempts, lo, hi, xs);
    FailuresWithin(attempts, lo, hi, from, window);
    PacedBound(xs, BLOCKCHAIN_CIRCUIT_BREAKER_THRESHOLD, BLOCKCHAIN_CIRCUIT_BREAKER_PAUSE_SECONDS, from, window);
  }

  function SpansOf(attempts: seq<Attempt>, lo: nat, hi: nat): (xs: seq<Interval>)
    requires lo <= hi <= |attempts|
    ensures |xs| == hi - lo && forall j :: lo <= j < hi ==> xs[j - lo] == attempts[j].span
  {
    seq(hi - lo, i requires 0 <= i < hi - lo => attempts[lo + i].span)
  }

  lemma FailuresWithin(attempts: seq<Attempt>, lo: nat, hi: nat, from: real, window: real)
    requires lo <= hi <= |attempts| && FailingWithin(attempts, lo, hi, from, window)
    ensures Within(SpansOf(attempts, lo, hi), from, window)
  {
    var xs := SpansOf(attempts, lo, hi);
    forall i | 0 <= i < |xs|
      ensures from <= xs[i].start <= from + window
    {
      assert xs[(lo + i) - lo] == attempts[lo + i].span;
    }
  }

  /** The attempts from `lo` to `hi` all fail and start within `window` seconds from `from` on. */
  predicate FailingWithin(attempts: seq<Attempt>, lo: nat, hi: nat, from: real, window: real)
    requires lo <= hi <= |attempts|
  {
    forall i :: lo <= i < hi ==> !attempts[i].succeeded && from <= attempts[i].span.start <= from + window
  }

  /**
   * Rate bound. In any run, a stretch of attempts none of which succeeds and which all start within
   * `window` seconds has at most 5 + floor(window / 60) attempts.
   */
  lemma RateBound<T>(start: real, requests: seq<Request<T>>, lo: nat, hi: nat, from: real, window: real)
    requires lo <= hi <= |ServeAll(start, requests).attempts| && window >= 0.0
    requires FailingWithin(ServeAll(start, requests).attempts, lo, hi, from, window)
    ensures hi - lo <= 5 + (window / 60.0).Floor
  {
    CounterIsTrailing(start, requests);
    FailuresBound(ServeAll(start, requests).attempts, lo, hi, from, window);
  }
}
