/** RetrierOnCodes and _sleep of utils/util.go: bounded retries with exponential backoff on 429. */
module Retrier {
  import opened Common

  const MILLISECOND := 1_000_000
  const MAX_BACKOFF := 80_000 * MILLISECOND
  const TOO_MANY_REQUESTS := 429
  const MAX_INT64 := 0x7fff_ffff_ffff_ffff

  function Pow2(n: nat): (p: int)
    ensures p >= 1
  {
    if n == 0 then 1 else 2 * Pow2(n - 1)
  }

  function Min(a: int, b: int): int {
    if a < b then a else b
  }

  function Max(a: int, b: int): int {
    if a < b then b else a
  }

  /** jitterBase * (GenerateRandomInRange(100) + 100), for the random number drawn. */
  function Jitter(drawn: int): int {
    MILLISECOND * (drawn + 100)
  }

  /** The backoff without machine integers. */
  function ExactDelay(retryDelay: int, attempt: nat, drawn: int): int {
    Pow2(attempt) * retryDelay + Jitter(drawn)
  }

  /** What _sleep sleeps: int64 shift, product and sum, each wrapping. */
  function WaitFor(retryDelay: int, code: int, attempt: nat, drawn: int): int {
    if code == TOO_MANY_REQUESTS then
      var nextRetry := Wrap64(Pow2(attempt));
      Min(MAX_BACKOFF, Wrap64(Wrap64(nextRetry * retryDelay) + Jitter(drawn)))
    else retryDelay
  }

  lemma {:induction false} WrapDifference(n: int) returns (k: int)
    ensures Wrap64(n) == n + k * TWO64
  {
    k := -((n + 0x8000_0000_0000_0000) / TWO64);
  }

  lemma WrapIgnoresMultiples(n: int, k: int)
    ensures Wrap64(n + k * TWO64) == Wrap64(n)
  {
    var a := WrapDifference(n + k * TWO64);
    var b := WrapDifference(n);
    assert Wrap64(n + k * TWO64) - Wrap64(n) == (k + a - b) * TWO64;
  }

  lemma Distribute(p: int, a: int, r: int)
    ensures (p + a * TWO64) * r == p * r + (a * r) * TWO64
  {
  }

  lemma AddMultiples(x: int, a: int, b: int)
    ensures x + a * TWO64 + b * TWO64 == x + (a + b) * TWO64
  {
  }

  /** Wrapping at every step is wrapping once at the end. */
  lemma WrapOnce(retryDelay: int, attempt: nat, drawn: int)
    ensures Wrap64(Wrap64(Wrap64(Pow2(attempt)) * retryDelay) + Jitter(drawn))
            == Wrap64(ExactDelay(retryDelay, attempt, drawn))
  {
    WrapProductOnce(Pow2(attempt), retryDelay, Jitter(drawn));
  }

  lemma WrapProductOnce(p: int, r: int, j: int)
    ensures Wrap64(Wrap64(Wrap64(p) * r) + j) == Wrap64(p * r + j)
  {
    var a := WrapDifference(p);
    var b := WrapDifference(Wrap64(p) * r);
    Distribute(p, a, r);
    AddMultiples(p * r + j, a * r, b);
    WrapIgnoresMultiples(p * r + j, a * r + b);
  }

  /** What a 429 waits: the exact exponential delay as an int64, capped at 80 s. */
  lemma WaitIsWrapped(retryDelay: int, attempt: nat, drawn: int)
    ensures WaitFor(retryDelay, TOO_MANY_REQUESTS, attempt, drawn)
            == Min(MAX_BACKOFF, Wrap64(ExactDelay(retryDelay, attempt, drawn)))
  {
    WrapOnce(retryDelay, attempt, drawn);
  }

  lemma ExactIsPositive(retryDelay: int, attempt: nat, drawn: int)
    requires retryDelay > 0 && 0 <= drawn
    ensures ExactDelay(retryDelay, attempt, drawn) > 100 * MILLISECOND
  {
    ProductIsPositive(Pow2(attempt), retryDelay);
  }

  lemma ProductIsPositive(p: int, d: int)
    requires p >= 1 && d >= 1
    ensures p * d >= 1
  {
  }

  /** The exact delay fits an int64. */
  predicate Fits(retryDelay: int, attempt: nat, drawn: int) {
    ExactDelay(retryDelay, attempt, drawn) <= MAX_INT64
  }

  lemma DelayDoubles(retryDelay: int, attempt: nat)
    ensures Pow2(attempt + 1) * retryDelay == 2 * (Pow2(attempt) * retryDelay)
  {
    assert Pow2(attempt + 1) == 2 * Pow2(attempt);
  }

  lemma {:induction false} DelayGrows(retryDelay: int, k: nat, n: nat)
    requires retryDelay > 0 && k < n
    ensures Pow2(n) * retryDelay >= 2 * (Pow2(k) * retryDelay)
    decreases n
  {
    DelayDoubles(retryDelay, n - 1);
    ProductIsPositive(Pow2(k), retryDelay);
    if k < n - 1 { DelayGrows(retryDelay, k, n - 1); }
  }

  /** Once a delay does not fit, no later one does, whatever the jitter. */
  lemma FitsEarlier(retryDelay: int, k: nat, n: nat, drawnK: int, drawnN: int)
    requires retryDelay > 0 && k <= n && 0 <= drawnK < 100 && 0 <= drawnN < 100
    requires k == n ==> drawnK == drawnN
    requires Fits(retryDelay, n, drawnN)
    ensures Fits(retryDelay, k, drawnK)
  {
    if k < n { DelayGrows(retryDelay, k, n); }
  }

  /** The first delay that does not fit has lost exactly its sign: it comes out negative. */
  lemma FirstOverflowIsNegative(retryDelay: int, n: nat, before: int, drawn: int)
    requires retryDelay > 0 && 0 <= before < 100 && 0 <= drawn < 100
    requires Fits(retryDelay, n, before) && !Fits(retryDelay, n + 1, drawn)
    ensures WaitFor(retryDelay, TOO_MANY_REQUESTS, n + 1, drawn) < 0
  {
    DelayDoubles(retryDelay, n);
    WaitIsWrapped(retryDelay, n + 1, drawn);
    WrapsNegative(ExactDelay(retryDelay, n + 1, drawn));
  }

  lemma WrapsNegative(n: int)
    requires MAX_INT64 < n < TWO64
    ensures Wrap64(n) < 0
  {
  }

  ghost predicate DrawnInRange(drawn: nat -> int) {
    forall k: nat :: 0 <= drawn(k) < 100
  }

  /** A wait as intended: positive and at most 80 s. */
  predicate Sound(wait: int) {
    0 < wait <= MAX_BACKOFF
  }

  lemma {:induction false} FirstOverflow(retryDelay: int, drawn: nat -> int, n: nat) returns (k: nat)
    requires retryDelay > 0 && DrawnInRange(drawn)
    requires Fits(retryDelay, 0, drawn(0)) && !Fits(retryDelay, n, drawn(n))
    ensures k < n && Fits(retryDelay, k, drawn(k)) && !Fits(retryDelay, k + 1, drawn(k + 1))
    decreases n
  {
    if Fits(retryDelay, n - 1, drawn(n - 1)) {
      k := n - 1;
    } else {
      k := FirstOverflow(retryDelay, drawn, n - 1);
    }
  }

  /**
   In a run of 429s all waits are positive and at most 80 s, and all are the
   exact capped delays, if and only if the exact delay of the last one fits an
   int64.  The retry delay itself has to fit with the shortest jitter.
   */
  lemma BackoffIsSoundIff(retryDelay: int, drawn: nat -> int, n: nat)
    requires retryDelay > 0 && DrawnInRange(drawn) && Fits(retryDelay, 0, drawn(0))
    ensures (forall k: nat :: 1 <= k <= n ==> Sound(WaitFor(retryDelay, TOO_MANY_REQUESTS, k, drawn(k))))
            <==> Fits(retryDelay, n, drawn(n))
    ensures (forall k: nat :: 1 <= k <= n ==>
               WaitFor(retryDelay, TOO_MANY_REQUESTS, k, drawn(k))
               == Min(MAX_BACKOFF, ExactDelay(retryDelay, k, drawn(k))))
            <==> Fits(retryDelay, n, drawn(n))
  {
    if Fits(retryDelay, n, drawn(n)) {
      forall k: nat | 1 <= k <= n
        ensures var w := WaitFor(retryDelay, TOO_MANY_REQUESTS, k, drawn(k));
                Sound(w) && w == Min(MAX_BACKOFF, ExactDelay(retryDelay, k, drawn(k)))
      {
        FitsEarlier(retryDelay, k, n, drawn(k), drawn(n));
        BackoffIsBounded(retryDelay, k, drawn(k));
      }
    } else {
      var k := FirstOverflow(retryDelay, drawn, n);
      FirstOverflowIsNegative(retryDelay, k, drawn(k), drawn(k + 1));
      ExactIsPositive(retryDelay, k + 1, drawn(k + 1));
    }
  }

  /** A delay that fits is waited exactly, capped: positive and at most 80 s. */
  lemma BackoffIsBounded(retryDelay: int, attempt: nat, drawn: int)
    requires retryDelay > 0 && 0 <= drawn < 100 && Fits(retryDelay, attempt, drawn)
    ensures var w := WaitFor(retryDelay, TOO_MANY_REQUESTS, attempt, drawn);
            Sound(w) && w == Min(MAX_BACKOFF, ExactDelay(retryDelay, attempt, drawn))
  {
    WaitIsWrapped(retryDelay, attempt, drawn);
    ExactIsPositive(retryDelay, attempt, drawn);
  }

  /** With a delay of five seconds the 31st backoff overflows to a negative wait, which is no wait. */
  lemma BackoffCanOverflow(drawn: int)
    requires 0 <= drawn < 100
    ensures WaitFor(5_000 * MILLISECOND, TOO_MANY_REQUESTS, 31, drawn) < 0
  {
    assert Pow2(31) == 0x8000_0000 by {
      assert Pow2(8) == 256;
      assert Pow2(16) == 65_536;
      assert Pow2(24) == 0x100_0000;
    }
  }

  // ---------------------------------------------------------------------
  // The loop
  // ---------------------------------------------------------------------

  /** One call of fn; quota marks the message that is never retried, connection the inner network errors. */
  datatype Call = Success | Failure(code: int, quota: bool, connection: bool)

  predicate Retried(call: Call, retryCodes: set<int>) {
    && call.Failure?
    && !(call.code == TOO_MANY_REQUESTS && call.quota)
    && (call.code in retryCodes || call.connection)
  }

  /** Time slept: a negative wait returns at once. */
  function Total(waits: seq<int>): int {
    if waits == [] then 0 else Total(waits[..|waits| - 1]) + Max(0, waits[|waits| - 1])
  }

  lemma {:induction false} TotalIsBounded(waits: seq<int>, bound: int)
    requires bound >= 0 && forall k :: 0 <= k < |waits| ==> waits[k] <= bound
    ensures Total(waits) <= |waits| * bound
  {
    if waits != [] {
      TotalIsBounded(waits[..|waits| - 1], bound);
      assert |waits| * bound == (|waits| - 1) * bound + bound;
    }
  }

  lemma WaitIsCapped(retryDelay: int, code: int, attempt: nat, drawn: int)
    ensures WaitFor(retryDelay, code, attempt, drawn) <= Max(MAX_BACKOFF, retryDelay)
  {
  }

  /** The waits between the first n calls. */
  ghost predicate WaitsMatch(fn: nat -> Call, drawn: nat -> int, retryDelay: int, waits: seq<int>) {
    forall k: nat :: k < |waits| ==>
      fn(k).Failure? && waits[k] == WaitFor(retryDelay, fn(k).code, k + 1, drawn(k))
  }

  lemma WaitsAreCapped(fn: nat -> Call, drawn: nat -> int, retryDelay: int, waits: seq<int>)
    requires WaitsMatch(fn, drawn, retryDelay, waits)
    ensures Total(waits) <= |waits| * Max(MAX_BACKOFF, retryDelay)
  {
    forall k | 0 <= k < |waits| ensures waits[k] <= Max(MAX_BACKOFF, retryDelay) {
      WaitIsCapped(retryDelay, fn(k).code, k + 1, drawn(k));
    }
    TotalIsBounded(waits, Max(MAX_BACKOFF, retryDelay));
  }

  /**
   The waits of a run of 429s, as the loop makes them, are all positive and at
   most 80 s if and only if the exact delay of the last one fits an int64.
   */
  lemma QuotaWaitsAreSoundIff(fn: nat -> Call, drawn: nat -> int, retryDelay: int, waits: seq<int>)
    requires WaitsMatch(fn, drawn, retryDelay, waits) && waits != []
    requires forall k: nat :: k < |waits| ==> fn(k).code == TOO_MANY_REQUESTS
    requires retryDelay > 0 && DrawnInRange(drawn) && Fits(retryDelay, 0, 0)
    ensures (forall k :: 0 <= k < |waits| ==> Sound(waits[k]))
            <==> Fits(retryDelay, |waits|, drawn(|waits| - 1))
  {
    var n := |waits|;
    if Fits(retryDelay, n, drawn(n - 1)) {
      forall k | 0 <= k < n ensures Sound(waits[k]) {
        assert fn(k).code == TOO_MANY_REQUESTS;
        FitsEarlier(retryDelay, k + 1, n, drawn(k), drawn(n - 1));
        BackoffIsBounded(retryDelay, k + 1, drawn(k));
      }
    } else {
      var k := OverflowingWait(drawn, retryDelay, n);
      assert fn(k).code == TOO_MANY_REQUESTS && !Sound(waits[k]);
    }
  }

  lemma {:induction false} OverflowingWait(drawn: nat -> int, retryDelay: int, n: nat) returns (k: nat)
    requires retryDelay > 0 && DrawnInRange(drawn) && Fits(retryDelay, 0, 0)
    requires n > 0 && !Fits(retryDelay, n, drawn(n - 1))
    ensures k < n && WaitFor(retryDelay, TOO_MANY_REQUESTS, k + 1, drawn(k)) < 0
  {
    var before := if n == 1 then 0 else drawn(n - 2);
    if Fits(retryDelay, n - 1, before) {
      k := n - 1;
      FirstOverflowIsNegative(retryDelay, n - 1, before, drawn(n - 1));
    } else {
      k := OverflowingWait(drawn, retryDelay, n - 1);
    }
  }

  /** What is known when the retries are over. */
  ghost predicate Retries(fn: nat -> Call, retryCodes: set<int>, maxRetries: int, calls: nat, result: Call) {
    && calls <= Max(0, maxRetries)
    && result == (if calls == 0 then Success else fn(calls - 1))
    && (forall i: nat :: i + 1 < calls ==> Retried(fn(i), retryCodes))
    && (calls < maxRetries ==> calls > 0 && !Retried(fn(calls - 1), retryCodes))
  }

  /** A success, a 429 over the quota limit, and errors neither listed nor of the network end the retries. */
  lemma FirstFinalCallIsReturned(fn: nat -> Call, retryCodes: set<int>, maxRetries: int, calls: nat, result: Call,
                                 i: nat)
    requires Retries(fn, retryCodes, maxRetries, calls, result) && i < calls
    requires match fn(i)
             case Success => true
             case Failure(code, quota, connection) => (code == 429 && quota) || (code !in retryCodes && !connection)
    ensures calls == i + 1 && result == fn(i)
  {
    assert !Retried(fn(i), retryCodes);
  }

  /** Listed codes and network errors are retried while attempts remain, a 429 over the quota limit excepted. */
  lemma OtherCallsAreRetried(fn: nat -> Call, retryCodes: set<int>, maxRetries: int, calls: nat, result: Call,
                             i: nat)
    requires Retries(fn, retryCodes, maxRetries, calls, result) && i < calls
    requires match fn(i)
             case Success => false
             case Failure(code, quota, connection) => !(code == 429 && quota) && (code in retryCodes || connection)
    requires i + 1 < maxRetries
    ensures i + 1 < calls
  {
  }

  /** After a failure with another code than 429 the wait is the plain retry delay. */
  lemma OtherWaitsArePlain(fn: nat -> Call, drawn: nat -> int, retryDelay: int, waits: seq<int>, k: nat)
    requires WaitsMatch(fn, drawn, retryDelay, waits) && k < |waits| && fn(k).Failure? && fn(k).code != 429
    ensures waits[k] == retryDelay
  {
  }

  /** Hence a run without a 429 sleeps the retry delay once a wait. */
  lemma PlainRunSleeps(fn: nat -> Call, drawn: nat -> int, retryDelay: int, waits: seq<int>)
    requires WaitsMatch(fn, drawn, retryDelay, waits) && retryDelay >= 0
    requires forall k: nat :: k < |waits| ==> fn(k).Failure? && fn(k).code != 429
    ensures Total(waits) == |waits| * retryDelay
  {
    forall k | 0 <= k < |waits| ensures waits[k] == retryDelay {
      OtherWaitsArePlain(fn, drawn, retryDelay, waits, k);
    }
    EqualWaits(waits, retryDelay);
  }

  lemma {:induction false} EqualWaits(waits: seq<int>, delay: int)
    requires delay >= 0 && forall k :: 0 <= k < |waits| ==> waits[k] == delay
    ensures Total(waits) == |waits| * delay
  {
    if waits != [] {
      EqualWaits(waits[..|waits| - 1], delay);
      assert |waits| * delay == (|waits| - 1) * delay + delay;
    }
  }

  /** 2^attempt times the delay. */
  function Doubled(retryDelay: int, attempt: nat): int {
    if attempt == 0 then retryDelay else 2 * Doubled(retryDelay, attempt - 1)
  }

  lemma {:induction false} DoubledIsProduct(retryDelay: int, attempt: nat)
    ensures Doubled(retryDelay, attempt) == Pow2(attempt) * retryDelay
  {
    if attempt > 0 {
      DoubledIsProduct(retryDelay, attempt - 1);
      DelayDoubles(retryDelay, attempt - 1);
    }
  }

  /**
   After a 429 the wait in nanoseconds is the delay doubled once per call so far
   with 100 to 199 ms of jitter, or 80 s, whichever is shorter, while that fits.
   */
  lemma QuotaWaitsDouble(fn: nat -> Call, drawn: nat -> int, retryDelay: int, waits: seq<int>, k: nat)
    requires WaitsMatch(fn, drawn, retryDelay, waits) && k < |waits| && fn(k).Failure? && fn(k).code == 429
    requires retryDelay > 0 && 0 <= drawn(k) < 100
    requires Doubled(retryDelay, k + 1) + 1_000_000 * (100 + drawn(k)) < 0x8000_0000_0000_0000
    ensures var exact := Doubled(retryDelay, k + 1) + 1_000_000 * (100 + drawn(k));
            waits[k] == if exact < 80_000_000_000 then exact else 80_000_000_000
  {
    DoubledIsProduct(retryDelay, k + 1);
    BackoffIsBounded(retryDelay, k + 1, drawn(k));
  }

  method Sleep(retryDelay: int, result: Call, attempt: nat, number: int) returns (wait: int)
    requires result.Failure?
    ensures wait == WaitFor(retryDelay, result.code, attempt, number)
  {
    wait := WaitFor(retryDelay, result.code, attempt, number);
  }

  /**
   fn is called until a call is not retried or the attempts are used up; the
   result is that of the last call, and there is one wait fewer than calls.
   */
  method RetrierOnCodes(fn: nat -> Call, retryCodes: set<int>, maxRetries: int, retryDelay: int, drawn: nat -> int)
    returns (result: Call, calls: nat, waits: seq<int>)
    ensures Retries(fn, retryCodes, maxRetries, calls, result)
    ensures |waits| == Max(0, calls - 1)
    ensures WaitsMatch(fn, drawn, retryDelay, waits)
    ensures Total(waits) <= |waits| * Max(MAX_BACKOFF, retryDelay)
  {
    var shouldSleep := false;
    result, calls, waits := Success, 0, [];
    var i := 0;
    while i < maxRetries
      invariant 0 <= i == calls && calls <= Max(0, maxRetries)
      invariant shouldSleep <==> i > 0
      invariant result == if calls == 0 then Success else fn(calls - 1)
      invariant forall k: nat :: k < calls ==> Retried(fn(k), retryCodes)
      invariant |waits| == Max(0, calls - 1)
      invariant WaitsMatch(fn, drawn, retryDelay, waits)
    {
      if shouldSleep {
        var wait := Sleep(retryDelay, result, i, drawn(i - 1));
        waits := waits + [wait];
      }
      shouldSleep := true;
      result := fn(i);
      calls := calls + 1;
      if !Retried(result, retryCodes) {
        break;
      }
      i := i + 1;
    }
    WaitsAreCapped(fn, drawn, retryDelay, waits);
  }
}
