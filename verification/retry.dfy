/** The call wrappers of decorators.py: `retry` re-invokes a failing call
    with exponential back-off and re-raises the last failure; `logcall`
    passes a call's result or exception through unchanged. The wrapped call
    is a function from the attempt number to its outcome; sleeping and the
    clock are left out, the waits are returned instead. */
module Retry {

  /** What one invocation of the wrapped function did. */
  datatype Outcome<T> = Returned(value: T) | Raised(error: string)

  /** What the retry wrapper hands back to its caller: a value, the last
      exception re-raised, the `ValueError` that `time.sleep` raises for a
      negative length, or Python's `None` when the loop never runs. */
  datatype RetryResult<T> = Value(value: T) | Reraised(error: string) | SleepRaised | NoResult

  const DefaultMaxAttempts: int := 3
  const DefaultDelay: real := 1.0

  function Pow2(n: nat): (p: nat)
    ensures p >= 1
  {
    if n == 0 then 1 else 2 * Pow2(n - 1)
  }

  /** The sleep before retry number attempt + 1: `delay * 2 ** attempt`. */
  function Backoff(delay: real, attempt: nat): real {
    delay * Pow2(attempt) as real
  }

  /** A back-off is negative, and so makes `time.sleep` raise, exactly when
      the delay is. */
  lemma BackoffNegative(delay: real, attempt: nat)
    ensures Backoff(delay, attempt) < 0.0 <==> delay < 0.0
  {
    var p := Pow2(attempt) as real;
    assert p >= 1.0;
    if delay < 0.0 {
      assert delay * p <= delay * 1.0;
    } else {
      assert delay * p >= 0.0;
    }
  }

  /** `retry(max_attempts, delay)` applied to `call`: stops at the first
      success, sleeps after every failure but the last, and re-raises the
      last failure. A negative delay makes the first sleep raise, which ends
      the loop after one call. */
  method RunRetry<T>(maxAttempts: int, delay: real, call: nat -> Outcome<T>)
    returns (result: RetryResult<T>, calls: nat, waits: seq<real>)
    ensures maxAttempts <= 0 ==> result == NoResult && calls == 0 && waits == []
    ensures maxAttempts > 0 ==> 1 <= calls <= maxAttempts
    ensures forall k :: 0 <= k < calls - 1 ==> call(k).Raised?
    ensures calls > 0 && call(calls - 1).Returned? ==> result == Value(call(calls - 1).value)
    ensures calls > 0 && call(calls - 1).Raised? && calls == maxAttempts ==> result == Reraised(call(calls - 1).error)
    ensures calls > 0 && call(calls - 1).Raised? && calls < maxAttempts ==>
              result == SleepRaised && Backoff(delay, calls - 1) < 0.0
    ensures delay >= 0.0 && calls > 0 && call(calls - 1).Raised? ==> calls == maxAttempts
    ensures delay < 0.0 ==> calls <= 1
    ensures |waits| == if calls == 0 then 0 else calls - 1
    ensures forall j :: 0 <= j < |waits| ==> waits[j] == Backoff(delay, j) && waits[j] >= 0.0
  {
    result := NoResult;
    calls := 0;
    waits := [];
    var attempt := 0;
    while attempt < maxAttempts
      invariant 0 <= attempt && (attempt == 0 || attempt < maxAttempts)
      invariant calls == attempt && |waits| == attempt
      invariant forall k :: 0 <= k < attempt ==> call(k).Raised?
      invariant forall j :: 0 <= j < |waits| ==> waits[j] == Backoff(delay, j) && waits[j] >= 0.0
      invariant delay < 0.0 ==> attempt == 0
      decreases maxAttempts - attempt
    {
      var outcome := call(attempt);
      calls := attempt + 1;
      if outcome.Returned? {
        result := Value(outcome.value);
        return;
      }
      if attempt == maxAttempts - 1 {
        result := Reraised(outcome.error);
        return;
      }
      BackoffNegative(delay, attempt);
      if Backoff(delay, attempt) < 0.0 {
        result := SleepRaised;
        return;
      }
      waits := waits + [Backoff(delay, attempt)];
      attempt := attempt + 1;
    }
  }

  /** A negative delay: the first failure's sleep raises, so a call that
      would succeed on its second attempt is never made again. */
  method NegativeDelaySleepRaises() returns (result: RetryResult<int>, calls: nat, waits: seq<real>)
    ensures result == SleepRaised && calls == 1 && waits == []
  {
    result, calls, waits := RunRetry(3, -1.0, k => if k == 0 then Raised("boom") else Returned(7));
  }

  /** The sum of a sequence of waits. */
  function Total(waits: seq<real>): real {
    if waits == [] then 0.0 else Total(waits[..|waits| - 1]) + waits[|waits| - 1]
  }

  /** The back-off doubles: n retries sleep `delay * (2**n - 1)` in all. */
  lemma {:induction false} BackoffTotal(delay: real, waits: seq<real>)
    requires forall j :: 0 <= j < |waits| ==> waits[j] == Backoff(delay, j)
    ensures Total(waits) == delay * (Pow2(|waits|) - 1) as real
  {
    if waits != [] {
      var n := |waits| - 1;
      BackoffTotal(delay, waits[..n]);
      assert Total(waits) == delay * (Pow2(n) - 1) as real + delay * Pow2(n) as real;
      assert Pow2(n + 1) == 2 * Pow2(n);
    }
  }

  /** `retry()` with its defaults (3 attempts, a 1 second delay): at most
      three calls, waits of 1 and then 2 seconds, 3 seconds of sleep at most. */
  method RunRetryDefault<T>(call: nat -> Outcome<T>)
    returns (result: RetryResult<T>, calls: nat, waits: seq<real>)
    ensures 1 <= calls <= 3
    ensures |waits| == calls - 1
    ensures forall j :: 0 <= j < |waits| ==> waits[j] == [1.0, 2.0][j]
    ensures Total(waits) <= 3.0
    ensures call(calls - 1).Returned? ==> result == Value(call(calls - 1).value)
    ensures call(calls - 1).Raised? ==> calls == 3 && result == Reraised(call(calls - 1).error)
  {
    result, calls, waits := RunRetry(DefaultMaxAttempts, DefaultDelay, call);
    assert Pow2(1) == 2 && Pow2(2) == 4;
    BackoffTotal(DefaultDelay, waits);
  }

  /** `logcall`: the wrapped call's return value or exception, unchanged,
      with the duration it logs measured between the two clock readings. */
  method LogCall<T>(call: () -> Outcome<T>, start: real, finish: real) returns (r: Outcome<T>, duration: real)
    ensures r == call()
    ensures duration + start == finish
  {
    r := call();
    duration := finish - start;
  }
}
