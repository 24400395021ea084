/** Retrying with capped exponential backoff (internal/client/gwaihir/client.go and types.go), with the
    wrap-around of 64-bit durations written out. */
module Retry {
  import opened Prelude

  const TWO_62: int := 0x4000_0000_0000_0000
  const TWO_63: int := 0x8000_0000_0000_0000
  const TWO_64: int := 0x1_0000_0000_0000_0000

  /** Sixty seconds. */
  const MAX_BACKOFF: int := 60_000_000_000

  /** The value of an int64 expression whose mathematical value is x. */
  function Wrap64(x: int): int {
    (x + TWO_63) % TWO_64 - TWO_63
  }

  /** The doubling loop with its break: at most times doublings, stopping at the cap. */
  function Doubled(delay: int, times: nat): int
    decreases times
  {
    if times == 0 then delay
    else if Wrap64(delay * 2) > MAX_BACKOFF then MAX_BACKOFF
    else Doubled(Wrap64(delay * 2), times - 1)
  }

  /** The delay before jitter. */
  function Delay(baseDelay: int, retry: int): int {
    Min(Doubled(baseDelay, if retry > 1 then retry - 1 else 0), MAX_BACKOFF)
  }

  /** Conversion of a float to an integer drops the fraction. */
  function Truncate(x: real): int {
    if x >= 0.0 then x.Floor else -((-x).Floor)
  }

  /** The float64 nearest to 0.1. */
  const TENTH: real := 3602879701896397.0 / 36028797018963968.0

  /** The relative error of one float64 operation, 2 to the -53. */
  const EPSILON: real := 1.0 / 9007199254740992.0

  function Abs(x: real): real { if x < 0.0 then -x else x }

  /** Rounding to float64, in the range where numbers are normal. */
  ghost predicate Rounds(round: real -> real) {
    forall x :: x - Abs(x) * EPSILON <= round(x) <= x + Abs(x) * EPSILON
  }

  function Times(a: real, b: real): real { a * b }

  /** The fraction of d that a draw u selects, with each operation rounded. */
  function Fraction(u: real, d: real, round: real -> real): real {
    round(Times(round(Times(u, TENTH)), round(d)))
  }

  /** Up to a tenth of the delay, for a random u with 0 <= u < 1. */
  function Jitter(delay: int, u: real, round: real -> real): int {
    Truncate(Fraction(u, delay as real, round))
  }

  method Backoff(baseDelay: int, retry: int, u: real, round: real -> real) returns (wait: int)
    ensures wait == Wrap64(Delay(baseDelay, retry) + Jitter(Delay(baseDelay, retry), u, round))
  {
    var delay := baseDelay;
    ghost var times: nat := if retry > 1 then retry - 1 else 0;
    for i := 1 to if retry > 1 then retry else 1
      invariant Doubled(baseDelay, times) == Doubled(delay, times - (i - 1))
    {
      delay := Wrap64(delay * 2);
      if delay > MAX_BACKOFF {
        delay := MAX_BACKOFF;
        break;
      }
    }
    if delay > MAX_BACKOFF {
      delay := MAX_BACKOFF;
    }
    wait := Wrap64(delay + Jitter(delay, u, round));
  }

  function Pow2(n: nat): nat {
    if n == 0 then 1 else 2 * Pow2(n - 1)
  }

  /** What the documentation promises: the base delay doubled for each retry after the first, capped. */
  function Ideal(baseDelay: int, retry: nat): int
    requires retry >= 1
  {
    Min(baseDelay * Pow2(retry - 1), 60_000_000_000)
  }

  lemma Regroup(delay: int, power: int)
    ensures delay * (2 * power) == delay * 2 * power == 2 * (delay * power)
  {}

  lemma {:induction false} DoubledIsCapped(delay: int, times: nat)
    requires 0 < delay < TWO_62
    ensures Min(Doubled(delay, times), MAX_BACKOFF) == Min(delay * Pow2(times), MAX_BACKOFF)
    decreases times
  {
    if times > 0 {
      NoOverflow(delay * 2);
      Regroup(delay, Pow2(times - 1));
      Pow2Positive(times - 1);
      if delay * 2 > MAX_BACKOFF {
        Grows(delay * 2, Pow2(times - 1));
      } else {
        DoubledIsCapped(delay * 2, times - 1);
      }
    }
  }

  lemma Grows(a: int, b: nat)
    requires a > 0 && b > 0
    ensures a * b >= a
  {}

  lemma {:induction false} Pow2Positive(n: nat)
    ensures Pow2(n) > 0
  {
    if n > 0 { Pow2Positive(n - 1); }
  }

  /** For every positive base delay a Duration can hold, the backoff follows the promised schedule at
      every retry exactly when doubling the base once does not overflow. */
  lemma BackoffScheduleExact(baseDelay: int)
    requires 0 < baseDelay <= MAX_DURATION
    ensures (forall retry: nat | retry >= 1 :: Delay(baseDelay, retry) == Ideal(baseDelay, retry)) <==> baseDelay < TWO_62
  {
    if baseDelay < TWO_62 {
      forall retry: nat | retry >= 1
        ensures Delay(baseDelay, retry) == Ideal(baseDelay, retry)
      {
        DoubledIsCapped(baseDelay, retry - 1);
      }
    } else {
      assert Wrap64(baseDelay * 2) == baseDelay * 2 - TWO_64;
      assert Doubled(baseDelay, 1) == Doubled(baseDelay * 2 - TWO_64, 0);
      assert Pow2(1) == 2 * Pow2(0);
      assert Delay(baseDelay, 2) < 0 < Ideal(baseDelay, 2);
    }
  }

  /** x lies within tolerance of y. */
  predicate Near(x: real, y: real, tolerance: real) { y - tolerance <= x <= y + tolerance }

  lemma ProductSign(v: real, e: real)
    requires 0.0 <= v && 0.0 <= e
    ensures 0.0 <= Times(v, e)
  {}

  lemma Distribute(x: real, y: real, e: real)
    ensures Times(x + y, e) == Times(x, e) + Times(y, e)
  {}

  lemma SmallProduct(x: real, bound: real, e: real)
    requires Near(x, 0.0, bound) && 0.0 <= e
    ensures Near(Times(x, e), 0.0, Times(bound, e))
  {
    ProductSign(bound - x, e);
    ProductSign(bound + x, e);
    Distribute(bound - x, x, e);
    Distribute(bound, x, e);
  }

  lemma Difference(v: real, a: real, e: real, d: real)
    ensures Times(v, e) == Times(a, d) + Times(v - a, e) + Times(e - d, a)
  {}

  /** Small errors in the factors make a small error in the product. */
  lemma ProductError(v: real, a: real, e: real, d: real)
    requires 0.0 <= v && 0.0 <= a <= 0.1 && Near(v, a, 0.0000000000000001)
    requires 0.0 <= e && 0.0 <= d <= MAX_BACKOFF as real && Near(e, d, 0.0001)
    ensures 0.0 <= Times(v, e) && Near(Times(v, e), Times(a, d), 0.0001)
  {
    Difference(v, a, e, d);
    SmallProduct(v - a, 0.0000000000000001, e);
    SmallProduct(e - d, 0.0001, a);
    ProductSign(v, e);
  }

  lemma FactorErrors(u: real, d: real, round: real -> real)
    requires Rounds(round) && 0.0 <= u < 1.0 && 0.0 <= d <= MAX_BACKOFF as real
    ensures 0.0 <= round(Times(u, TENTH)) && Near(round(Times(u, TENTH)), u / 10.0, 0.0000000000000001)
    ensures 0.0 <= round(d) && Near(round(d), d, 0.0001)
  {
    assert 0.0 <= Times(u, TENTH) <= TENTH;
    assert Near(Times(u, TENTH), u / 10.0, 0.00000000000000001);
  }

  lemma TenthOf(u: real, d: real)
    requires 0.0 <= u < 1.0 && 0.0 <= d
    ensures Times(u / 10.0, d) == Times(u, d) / 10.0 && 0.0 <= Times(u, d) <= d
  {
    TenthScales(u, d);
    ProductSign(u, d);
    ProductSign(1.0 - u, d);
    Distribute(u, 1.0 - u, d);
  }

  lemma TenthScales(u: real, d: real)
    ensures Times(u / 10.0, d) == Times(u, d) / 10.0
  {}

  lemma RoundedNear(y: real, round: real -> real)
    requires Rounds(round) && 0.0 <= y <= MAX_BACKOFF as real
    ensures 0.0 <= round(y) && Near(round(y), y, 0.00001)
  {}

  /** The roundings together move the fraction by less than a thousandth of a nanosecond. */
  lemma FractionError(u: real, d: real, round: real -> real)
    requires Rounds(round) && 0.0 <= u < 1.0 && 0.0 <= d <= MAX_BACKOFF as real
    ensures 0.0 <= Fraction(u, d, round) && Near(Fraction(u, d, round), Times(u, d) / 10.0, 0.001)
  {
    var v, e := round(Times(u, TENTH)), round(d);
    FactorErrors(u, d, round);
    ProductError(v, u / 10.0, e, d);
    TenthOf(u, d);
    RoundedNear(Times(v, e), round);
  }

  lemma TruncateNear(x: real, y: real, delay: int)
    requires 0.0 <= x && Near(x, y / 10.0, 0.001) && y <= delay as real
    ensures 0 <= Truncate(x) && 10 * Truncate(x) <= delay
    ensures y / 10.0 - 1.001 <= Truncate(x) as real <= y / 10.0 + 0.001
  {
    var j := x.Floor;
    assert j as real <= x < j as real + 1.0;
    assert (10 * j) as real <= delay as real + 0.01;
  }

  lemma NoOverflow(x: int)
    requires -TWO_63 <= x < TWO_63
    ensures Wrap64(x) == x
  {}

  lemma JitterRange(delay: int, u: real, round: real -> real)
    requires Rounds(round) && 0 <= delay <= MAX_BACKOFF && 0.0 <= u < 1.0
    ensures 0 <= Jitter(delay, u, round) && 10 * Jitter(delay, u, round) <= delay
    ensures Near(Jitter(delay, u, round) as real, Times(u, delay as real) / 10.0, 1.001)
  {
    FractionError(u, delay as real, round);
    TenthOf(u, delay as real);
    TruncateNear(Fraction(u, delay as real, round), Times(u, delay as real), delay);
  }

  /** However its floating-point operations round, jitter is at most a tenth of the delay, and within a
      nanosecond, up to rounding, of the tenth that u selects; and nothing overflows. */
  lemma JitterBound(delay: int, u: real, round: real -> real)
    requires Rounds(round) && 0 <= delay <= MAX_BACKOFF && 0.0 <= u < 1.0
    ensures 0 <= Jitter(delay, u, round) && 10 * Jitter(delay, u, round) <= delay
    ensures Near(Jitter(delay, u, round) as real, Times(u, delay as real) / 10.0, 1.001)
    ensures Wrap64(delay + Jitter(delay, u, round)) == delay + Jitter(delay, u, round)
  {
    JitterRange(delay, u, round);
    NoOverflow(delay + Jitter(delay, u, round));
  }

  /** One execution of the request: the status code, and whether it ended in an error. A body that
      cannot be read is an error with a status code other than 0. */
  datatype Attempt = Attempt(status: int, failed: bool)

  datatype SendResult =
    | Sent
    | AuthenticationFailed
    | MachineNotFound
    | RequestFailed(status: int)
    | RequestError(attempt: nat)       // the error of that attempt
    | BackoffInterrupted

  predicate IsSuccessStatus(status: int) { 200 <= status < 300 }

  predicate IsNonRetryableStatus(status: int) { 400 <= status < 500 }

  function HandleWoLResponse(status: int): SendResult {
    if status == 401 then AuthenticationFailed
    else if status == 404 then MachineNotFound
    else if status < 200 || status >= 300 then RequestFailed(status)
    else Sent
  }

  /** An attempt after which the loop does not go on. */
  predicate Conclusive(a: Attempt) {
    !a.failed && (IsSuccessStatus(a.status) || IsNonRetryableStatus(a.status))
  }

  /** The outcome when attempt number n was the last one. */
  function Outcome(n: nat, a: Attempt): SendResult {
    if a.failed && a.status == 0 then RequestError(n) else HandleWoLResponse(a.status)
  }

  /** What the loop waited before attempt i + 2. */
  function WaitAt(baseDelay: int, i: nat, u: real, round: real -> real): int {
    Wrap64(Delay(baseDelay, i + 1) + Jitter(Delay(baseDelay, i + 1), u, round))
  }

  /** The waits so far are the backoffs of the first retries. */
  ghost predicate WaitsAre(waits: seq<int>, baseDelay: int, u: nat -> real, round: real -> real) {
    forall i | 0 <= i < |waits| :: waits[i] == WaitAt(baseDelay, i, u(i + 2), round)
  }

  lemma WaitsSnoc(waits: seq<int>, wait: int, baseDelay: int, u: nat -> real, round: real -> real)
    requires WaitsAre(waits, baseDelay, u, round) && wait == WaitAt(baseDelay, |waits|, u(|waits| + 2), round)
    ensures WaitsAre(waits + [wait], baseDelay, u, round)
  {}

  /** The result of a call whose last attempt was number n: success exactly for a 2xx status, which
      includes an attempt that failed, and then it was the very last one allowed; a kind of error of
      its own for 401, 404 and a request that got no status; the status itself for all others. */
  predicate ResultFits(result: SendResult, n: nat, final: bool, last: Attempt) {
    && (result.Sent? <==> 200 <= last.status <= 299)
    && (result.Sent? && last.failed <==> final && last.failed && 200 <= last.status <= 299)
    && (result.AuthenticationFailed? <==> last.status == 401)
    && (result.MachineNotFound? <==> last.status == 404)
    && (result.RequestError? <==> last.failed && last.status == 0)
    && (result.RequestError? ==> result.attempt == n)
    && (result.RequestFailed? ==> result.status == last.status)
    && !result.BackoffInterrupted?
  }

  lemma LastAttemptDecides(n: nat, final: bool, last: Attempt)
    requires Conclusive(last) || final
    ensures ResultFits(Outcome(n, last), n, final, last)
  {}

  /** The retry loop. It reports success exactly when the last attempt met a 2xx status, even if that
      attempt failed because the body could not be read; that happens only on the very last attempt,
      and contradicts the call's documentation, which promises an error. A failed attempt and a status
      outside 2xx and 4xx are retried, and nothing else is. attempts(n) is what attempt n meets,
      interrupted(n) whether the context ends during the wait before it, u(n) the random draw for that
      wait. */
  method SendWithRetry(maxAttempts: int, baseDelay: int, attempts: nat -> Attempt, interrupted: nat -> bool, u: nat -> real,
                       round: real -> real)
    returns (result: SendResult, executed: nat, waits: seq<int>)
    ensures forall n: nat | 1 <= n < executed :: !Conclusive(attempts(n))
    ensures executed <= (if maxAttempts > 0 then maxAttempts else 0)
    ensures maxAttempts < 1 ==> result == RequestFailed(0)
    ensures maxAttempts >= 1 ==> executed >= 1
    ensures maxAttempts >= 1 && result.BackoffInterrupted? ==>
              executed < maxAttempts && interrupted(executed + 1) && !Conclusive(attempts(executed)) && |waits| == executed
    ensures maxAttempts >= 1 && !result.BackoffInterrupted? ==>
              && (Conclusive(attempts(executed)) || executed == maxAttempts)
              && result == Outcome(executed, attempts(executed)) && |waits| == executed - 1
    ensures maxAttempts >= 1 && !result.BackoffInterrupted? ==>
              ResultFits(result, executed, executed == maxAttempts, attempts(executed))
    ensures forall n: nat | 1 <= n < executed :: attempts(n).failed || !(200 <= attempts(n).status <= 299 || 400 <= attempts(n).status <= 499)
    ensures maxAttempts >= 1 && !result.BackoffInterrupted? && executed < maxAttempts ==>
              !attempts(executed).failed && (200 <= attempts(executed).status <= 299 || 400 <= attempts(executed).status <= 499)
    ensures result.BackoffInterrupted? && maxAttempts >= 1 ==>
              attempts(executed).failed || !(200 <= attempts(executed).status <= 299 || 400 <= attempts(executed).status <= 499)
    ensures forall n: nat | 2 <= n <= executed :: !interrupted(n)
    ensures WaitsAre(waits, baseDelay, u, round)
  {
    var lastErr: Option<SendResult> := None;
    var statusCode := 0;
    executed, waits := 0, [];
    var attempt: nat := 1;
    while attempt <= maxAttempts
      invariant executed == attempt - 1 && (maxAttempts >= 1 ==> attempt <= maxAttempts + 1)
      invariant maxAttempts < 1 ==> attempt == 1
      invariant forall n: nat | 1 <= n < attempt :: !Conclusive(attempts(n))
      invariant forall n: nat | 2 <= n < attempt :: !interrupted(n)
      invariant |waits| == if attempt > 1 then attempt - 2 else 0
      invariant WaitsAre(waits, baseDelay, u, round)
      invariant attempt == 1 ==> lastErr.None? && statusCode == 0
      invariant attempt > 1 ==>
                  && statusCode == attempts(attempt - 1).status && lastErr.Some?
                  && (statusCode == 0 ==> lastErr.value == Outcome(attempt - 1, attempts(attempt - 1)))
    {
      if attempt > 1 {
        var wait := Backoff(baseDelay, attempt - 1, u(attempt), round);
        WaitsSnoc(waits, wait, baseDelay, u, round);
        waits := waits + [wait];
        if interrupted(attempt) {
          return BackoffInterrupted, executed, waits;
        }
      }
      var a := attempts(attempt);
      executed := attempt;
      statusCode := a.status;
      if a.failed {
        lastErr := Some(RequestError(attempt));
      } else {
        if IsSuccessStatus(statusCode) || IsNonRetryableStatus(statusCode) {
          LastAttemptDecides(executed, executed == maxAttempts, a);
          return HandleWoLResponse(statusCode), executed, waits;
        }
        lastErr := Some(RequestFailed(statusCode));
      }
      attempt := attempt + 1;
    }
    if maxAttempts >= 1 {
      LastAttemptDecides(executed, true, attempts(executed));
    }
    if lastErr.Some? && statusCode == 0 {
      return lastErr.value, executed, waits;
    }
    result := HandleWoLResponse(statusCode);
  }

  /** The failing input: every attempt fails, the last one with a 2xx status and an unreadable body. */
  method UnreadableBodyIsSent(maxAttempts: nat, status: int, baseDelay: int, u: nat -> real, round: real -> real)
    returns (result: SendResult, last: Attempt)
    requires maxAttempts >= 1 && IsSuccessStatus(status)
    ensures result.Sent? && last.failed && last.status == status
  {
    var attempts := (n: nat) => if n == maxAttempts then Attempt(status, true) else Attempt(0, true);
    var executed, waits;
    result, executed, waits := SendWithRetry(maxAttempts, baseDelay, attempts, n => false, u, round);
    last := attempts(executed);
    assert executed == maxAttempts;
  }

  function Total(waits: seq<int>): int {
    if waits == [] then 0 else Total(waits[..|waits| - 1]) + waits[|waits| - 1]
  }

  function IdealTotal(baseDelay: int, retries: nat): int {
    if retries == 0 then 0 else IdealTotal(baseDelay, retries - 1) + Ideal(baseDelay, retries)
  }

  lemma WaitBound(baseDelay: int, i: nat, u: real, round: real -> real)
    requires Rounds(round) && 0 < baseDelay < TWO_62 && 0.0 <= u < 1.0
    ensures Ideal(baseDelay, i + 1) <= WaitAt(baseDelay, i, u, round)
    ensures 10 * WaitAt(baseDelay, i, u, round) <= 11 * Ideal(baseDelay, i + 1)
  {
    DoubledIsCapped(baseDelay, i);
    Pow2Positive(i);
    Grows(baseDelay, Pow2(i));
    assert Delay(baseDelay, i + 1) == Ideal(baseDelay, i + 1);
    JitterBound(Ideal(baseDelay, i + 1), u, round);
  }

  /** The total wait of a run lies between the promised schedule and a tenth more. */
  lemma {:induction false} TotalWait(waits: seq<int>, baseDelay: int, u: nat -> real, round: real -> real)
    requires 0 < baseDelay < TWO_62
    requires Rounds(round) && forall n :: 0.0 <= u(n) < 1.0
    requires WaitsAre(waits, baseDelay, u, round)
    ensures IdealTotal(baseDelay, |waits|) <= Total(waits)
    ensures 10 * Total(waits) <= 11 * IdealTotal(baseDelay, |waits|)
  {
    if waits != [] {
      var i := |waits| - 1;
      TotalWait(waits[..i], baseDelay, u, round);
      WaitBound(baseDelay, i, u(i + 2), round);
    }
  }

  function Twice(delay: int, times: nat): int {
    if times == 0 then delay else 2 * Twice(delay, times - 1)
  }

  lemma {:induction false} TwiceIsPower(delay: int, times: nat)
    ensures Twice(delay, times) == delay * Pow2(times)
  {
    if times > 0 {
      TwiceIsPower(delay, times - 1);
      Regroup(delay, Pow2(times - 1));
    }
  }

  lemma {:induction false} TwicePositive(delay: int, times: nat)
    requires delay > 0
    ensures Twice(delay, times) > 0
  {
    if times > 0 {
      TwicePositive(delay, times - 1);
    }
  }

  lemma {:induction false} ScheduledSum(baseDelay: int, retries: nat)
    requires 0 < baseDelay && (retries > 0 ==> Twice(baseDelay, retries - 1) <= MAX_BACKOFF)
    ensures IdealTotal(baseDelay, retries) == Twice(baseDelay, retries) - baseDelay
  {
    if retries > 0 {
      TwiceIsPower(baseDelay, retries - 1);
      if retries > 1 {
        TwicePositive(baseDelay, retries - 2);
      }
      ScheduledSum(baseDelay, retries - 1);
    }
  }

  /** As long as the cap is not reached, the schedule is geometric. */
  lemma {:induction false} UncappedTotal(baseDelay: int, retries: nat)
    requires 0 < baseDelay && (retries > 0 ==> baseDelay * Pow2(retries - 1) <= MAX_BACKOFF)
    ensures IdealTotal(baseDelay, retries) == baseDelay * (Pow2(retries) - 1)
  {
    if retries > 0 {
      TwiceIsPower(baseDelay, retries - 1);
    }
    TwiceIsPower(baseDelay, retries);
    ScheduledSum(baseDelay, retries);
  }
}
