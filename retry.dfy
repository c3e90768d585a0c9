/**
 * `fetchWithRetry`: calls the generation service up to `maxRetries` times.
 * The service's answers are supplied as a sequence of outcomes, one per call,
 * and the random part of each back-off delay as a sequence of jitter values.
 * As written, an error whose message mentions 503 or UNAVAILABLE ends the
 * loop at once, and every other error is retried until the last attempt.
 */
module RetryPolicy {
  import opened Text

  /** `Math.floor(Math.random() * 1000)`. */
  type Jitter = j: int | 0 <= j < 1000

  /** One call of the service: a response, or an error with its message. */
  datatype Outcome<T> = Success(response: T) | Failure(message: string)

  /** What the function ends with: a response, a thrown error, or `undefined`. */
  datatype RetryResult<T> = Returned(response: T) | Thrown(message: string) | NoResult

  /** A whole run: its result, how many calls it made, and the delays it slept. */
  datatype RetryRun<T> = RetryRun(result: RetryResult<T>, invocations: nat, delays: seq<int>)

  /** The only error the function throws; the cause is logged, never passed on. */
  const OverloadedMessage := "El servicio de IA está temporalmente sobrecargado. Intente de nuevo más tarde."

  const DefaultMaxRetries := 5

  /** The message test that ends the loop immediately. */
  predicate IsUnavailable(message: string)
  {
    Contains(message, "503") || Contains(message, "UNAVAILABLE")
  }

  /** A failure that the loop answers with another attempt (unless it is the last). */
  predicate Retryable<T>(o: Outcome<T>)
  {
    o.Failure? && !IsUnavailable(o.message)
  }

  function Pow2(n: nat): (r: nat)
    ensures r >= 1
  {
    if n == 0 then 1 else 2 * Pow2(n - 1)
  }

  /** The wait after failed attempt `attempt`, in milliseconds. */
  function Delay(attempt: nat, jitter: Jitter): int
  {
    Pow2(attempt) * 1000 + jitter
  }

  /** Enough outcomes for every possible call, and a jitter for every possible wait. */
  predicate Supplied<T>(outcomes: seq<Outcome<T>>, jitter: seq<Jitter>, maxRetries: int)
  {
    maxRetries <= |outcomes| && maxRetries - 1 <= |jitter|
  }

  /** The run from attempt `attempt` on. */
  function RunFrom<T>(outcomes: seq<Outcome<T>>, jitter: seq<Jitter>, maxRetries: int, attempt: nat): RetryRun<T>
    requires Supplied(outcomes, jitter, maxRetries)
    decreases maxRetries - attempt
  {
    if attempt >= maxRetries then RetryRun(NoResult, 0, [])
    else match outcomes[attempt]
      case Success(r) => RetryRun(Returned(r), 1, [])
      case Failure(m) =>
        if IsUnavailable(m) || attempt == maxRetries - 1 then RetryRun(Thrown(OverloadedMessage), 1, [])
        else
          var rest := RunFrom(outcomes, jitter, maxRetries, attempt + 1);
          RetryRun(rest.result, rest.invocations + 1, [Delay(attempt, jitter[attempt])] + rest.delays)
  }

  /** The whole run, from attempt 0. */
  function Run<T>(outcomes: seq<Outcome<T>>, jitter: seq<Jitter>, maxRetries: int): RetryRun<T>
    requires Supplied(outcomes, jitter, maxRetries)
  {
    RunFrom(outcomes, jitter, maxRetries, 0)
  }

  /**
   * The loop itself; it makes the calls the specification `Run` describes and
   * returns what it describes.
   */
  method FetchWithRetry<T>(outcomes: seq<Outcome<T>>, jitter: seq<Jitter>, maxRetries: int)
    returns (result: RetryResult<T>, invocations: nat, delays: seq<int>)
    requires Supplied(outcomes, jitter, maxRetries)
    ensures RetryRun(result, invocations, delays) == Run(outcomes, jitter, maxRetries)
  {
    var attempt: nat := 0;
    invocations, delays := 0, [];
    while attempt < maxRetries
      invariant invocations == attempt
      invariant var rest := RunFrom(outcomes, jitter, maxRetries, attempt);
        Run(outcomes, jitter, maxRetries) == RetryRun(rest.result, attempt + rest.invocations, delays + rest.delays)
      decreases maxRetries - attempt
    {
      invocations := invocations + 1;
      match outcomes[attempt]
      case Success(response) =>
        return Returned(response), invocations, delays;
      case Failure(message) =>
        if Contains(message, "503") || Contains(message, "UNAVAILABLE") || attempt == maxRetries - 1 {
          return Thrown(OverloadedMessage), invocations, delays;
        }
        delays := delays + [Delay(attempt, jitter[attempt])];
        attempt := attempt + 1;
    }
    result := NoResult;
  }

  /**
   * The shape of every run from `attempt` on: it makes between one call and
   * the remaining number of calls (none when no attempt is left), every call
   * but the last met a retryable failure, the last call decides the result,
   * and one delay follows each retried call.
   */
  lemma {:induction false} RunFromShape<T>(outcomes: seq<Outcome<T>>, jitter: seq<Jitter>, maxRetries: int, attempt: nat)
    requires Supplied(outcomes, jitter, maxRetries)
    decreases maxRetries - attempt
    ensures var run := RunFrom(outcomes, jitter, maxRetries, attempt);
      && (attempt >= maxRetries ==> run == RetryRun(NoResult, 0, []))
      && (attempt < maxRetries ==>
           && 1 <= run.invocations <= maxRetries - attempt
           && |run.delays| == run.invocations - 1
           && (forall i :: 0 <= i < |run.delays| ==> run.delays[i] == Delay(attempt + i, jitter[attempt + i]))
           && (forall i :: attempt <= i < attempt + run.invocations - 1 ==> Retryable(outcomes[i]))
           && (var last := attempt + run.invocations - 1;
               && (run.result.Returned? <==> outcomes[last].Success?)
               && (run.result.Returned? ==> run.result.response == outcomes[last].response)
               && (run.result.Thrown? <==>
                     outcomes[last].Failure? && (IsUnavailable(outcomes[last].message) || last == maxRetries - 1)))
           && (run.result.Thrown? ==> run.result.message == OverloadedMessage)
           && !run.result.NoResult?)
  {
    if attempt < maxRetries && Retryable(outcomes[attempt]) && attempt != maxRetries - 1 {
      RunFromShape(outcomes, jitter, maxRetries, attempt + 1);
    }
  }

  /**
   * The loop body never runs when `maxRetries <= 0`: no call, and the result
   * is `undefined`. Otherwise the result is never `undefined`.
   */
  lemma NoAttemptsNoCall<T>(outcomes: seq<Outcome<T>>, jitter: seq<Jitter>, maxRetries: int)
    requires Supplied(outcomes, jitter, maxRetries)
    ensures var run := Run(outcomes, jitter, maxRetries);
      (run.result.NoResult? <==> maxRetries <= 0) && (maxRetries <= 0 ==> run.invocations == 0)
  {
    RunFromShape(outcomes, jitter, maxRetries, 0);
  }

  /** At most `maxRetries` calls, and every thrown error is the fixed message. */
  lemma CallsBoundedAndMessageFixed<T>(outcomes: seq<Outcome<T>>, jitter: seq<Jitter>, maxRetries: int)
    requires Supplied(outcomes, jitter, maxRetries)
    ensures var run := Run(outcomes, jitter, maxRetries);
      && run.invocations <= (if maxRetries < 0 then 0 else maxRetries)
      && (run.result.Thrown? ==> run.result.message == OverloadedMessage)
  {
    RunFromShape(outcomes, jitter, maxRetries, 0);
  }

  /** Success on attempt `k` after `k` retryable failures: that response, after `k + 1` calls. */
  lemma FirstSuccessReturned<T>(outcomes: seq<Outcome<T>>, jitter: seq<Jitter>, maxRetries: int, k: nat)
    requires Supplied(outcomes, jitter, maxRetries)
    requires k < maxRetries && outcomes[k].Success?
    requires forall i :: 0 <= i < k ==> Retryable(outcomes[i])
    ensures Run(outcomes, jitter, maxRetries) == RetryRun(Returned(outcomes[k].response), k + 1, Run(outcomes, jitter, maxRetries).delays)
  {
    RunFromShape(outcomes, jitter, maxRetries, 0);
  }

  /** An unavailable-service error on attempt `k` throws at once, after `k + 1` calls. */
  lemma UnavailableStopsAtOnce<T>(outcomes: seq<Outcome<T>>, jitter: seq<Jitter>, maxRetries: int, k: nat)
    requires Supplied(outcomes, jitter, maxRetries)
    requires k < maxRetries && outcomes[k].Failure? && IsUnavailable(outcomes[k].message)
    requires forall i :: 0 <= i < k ==> Retryable(outcomes[i])
    ensures var run := Run(outcomes, jitter, maxRetries);
      run.result == Thrown(OverloadedMessage) && run.invocations == k + 1
  {
    RunFromShape(outcomes, jitter, maxRetries, 0);
  }

  /**
   * As written, a 503 is not retried even when the next call would succeed:
   * one call, and the overload error.
   */
  lemma UnavailableNotRetried(response: string, jitter: seq<Jitter>)
    requires |jitter| >= DefaultMaxRetries - 1
    ensures var outcomes := [Failure("503 Service Unavailable")] + seq(DefaultMaxRetries - 1, _ => Success(response));
      Run(outcomes, jitter, DefaultMaxRetries) == RetryRun(Thrown(OverloadedMessage), 1, [])
  {
    var outcomes := [Failure("503 Service Unavailable")] + seq(DefaultMaxRetries - 1, _ => Success(response));
    assert OccursAt(outcomes[0].message, "503", 0);
    ContainsMeaning(outcomes[0].message, "503");
  }

  /** A service that keeps failing in a retryable way is called exactly `maxRetries` times. */
  lemma PersistentFailureExhausts<T>(outcomes: seq<Outcome<T>>, jitter: seq<Jitter>, maxRetries: int)
    requires Supplied(outcomes, jitter, maxRetries) && maxRetries > 0
    requires forall i :: 0 <= i < maxRetries ==> Retryable(outcomes[i])
    ensures var run := Run(outcomes, jitter, maxRetries);
      run.result == Thrown(OverloadedMessage) && run.invocations == maxRetries && |run.delays| == maxRetries - 1
  {
    RunFromShape(outcomes, jitter, maxRetries, 0);
  }

  /** A delay exceeds the one before it: the exponential part doubles by more than any jitter. */
  lemma DelayIncreasing(a: nat, j1: Jitter, j2: Jitter)
    ensures Delay(a, j1) < Delay(a + 1, j2)
  {
  }

  /** The delays of a run are `2^a * 1000 + jitter[a]`, strictly increasing. */
  lemma DelaysOfRun<T>(outcomes: seq<Outcome<T>>, jitter: seq<Jitter>, maxRetries: int)
    requires Supplied(outcomes, jitter, maxRetries)
    ensures var d := Run(outcomes, jitter, maxRetries).delays;
      && (forall a :: 0 <= a < |d| ==> a < |jitter| && d[a] == Delay(a, jitter[a]))
      && (forall a, b :: 0 <= a < b < |d| ==> d[a] < d[b])
  {
    RunFromShape(outcomes, jitter, maxRetries, 0);
    var d := Run(outcomes, jitter, maxRetries).delays;
    forall a, b | 0 <= a < b < |d| ensures d[a] < d[b] {
      DelaysGrow(jitter, a, b);
    }
  }

  lemma {:induction false} DelaysGrow(jitter: seq<Jitter>, a: nat, b: nat)
    requires a < b < |jitter|
    decreases b - a
    ensures Delay(a, jitter[a]) < Delay(b, jitter[b])
  {
    DelayIncreasing(a, jitter[a], jitter[a + 1]);
    if a + 1 < b {
      DelaysGrow(jitter, a + 1, b);
    }
  }
}
