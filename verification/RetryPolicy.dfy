/** Exponential backoff with full jitter: the cap on each delay, and what all of them can add up to. */
module RetryPolicy {
  import opened Prelude

  /** INITIAL_RETRY_DELAY_SECONDS and MAX_RETRY_DELAY_SECONDS. */
  datatype Backoff = Backoff(base: nat, cap: nat)

  function Pow2(n: nat): nat {
    if n == 0 then 1 else 2 * Pow2(n - 1)
  }

  function ExponentialDelay(b: Backoff, attemptNumber: nat): nat
    requires attemptNumber >= 1
  {
    b.base * Pow2(attemptNumber - 1)
  }

  function CappedDelay(b: Backoff, attemptNumber: nat): nat
    requires attemptNumber >= 1
  {
    Min(ExponentialDelay(b, attemptNumber), b.cap)
  }

  /** The largest total that retries after attempts 1..n can wait. */
  function TotalDelay(b: Backoff, n: nat): nat {
    if n == 0 then 0 else TotalDelay(b, n - 1) + CappedDelay(b, n)
  }

  lemma {:induction false} ExponentialMonotone(b: Backoff, m: nat, n: nat)
    requires 1 <= m <= n
    ensures ExponentialDelay(b, m) <= ExponentialDelay(b, n)
    decreases n
  {
    if m < n {
      ExponentialMonotone(b, m, n - 1);
      assert ExponentialDelay(b, n) == 2 * ExponentialDelay(b, n - 1) by {
        assert b.base * (2 * Pow2(n - 2)) == 2 * (b.base * Pow2(n - 2));
      }
    }
  }

  /** Waiting longer is never shorter: the cap on a delay never shrinks from one attempt to a later one. */
  lemma CappedDelayMonotone(b: Backoff, m: nat, n: nat)
    requires 1 <= m <= n
    ensures CappedDelay(b, m) <= CappedDelay(b, n) <= b.cap
  {
    ExponentialMonotone(b, m, n);
  }

  /** `k` is the last attempt, among the first `n`, whose delay the cap does not cut. */
  ghost predicate Saturates(b: Backoff, n: nat, k: nat) {
    && k <= n
    && (k >= 1 ==> ExponentialDelay(b, k) <= b.cap)
    && (k < n ==> ExponentialDelay(b, k + 1) > b.cap)
  }

  /** There is exactly one saturation index. */
  lemma {:induction false} SaturationIndexExists(b: Backoff, n: nat) returns (k: nat)
    ensures Saturates(b, n, k)
    ensures forall other: nat :: Saturates(b, n, other) ==> other == k
  {
    k := 0;
    while k < n && ExponentialDelay(b, k + 1) <= b.cap
      invariant k <= n
      invariant k >= 1 ==> ExponentialDelay(b, k) <= b.cap
    {
      k := k + 1;
    }
    forall other: nat | Saturates(b, n, other)
      ensures other == k
    {
      if other < k {
        ExponentialMonotone(b, other + 1, k);
      } else if k < other {
        ExponentialMonotone(b, k + 1, other);
      }
    }
  }

  lemma OneMoreDoubling(base: nat, p: int)
    ensures base * (p - 1) + base * p == base * (2 * p - 1)
  {
  }

  lemma {:induction false} GeometricPrefix(b: Backoff, k: nat)
    requires k >= 1 ==> ExponentialDelay(b, k) <= b.cap
    ensures TotalDelay(b, k) == b.base * (Pow2(k) - 1)
  {
    if k >= 1 {
      if k >= 2 {
        ExponentialMonotone(b, k - 1, k);
      }
      GeometricPrefix(b, k - 1);
      OneMoreDoubling(b.base, Pow2(k - 1));
    }
  }

  /** The total is a geometric sum up to the saturation index and a multiple of the cap after it. */
  lemma {:induction false} TotalDelayClosedForm(b: Backoff, n: nat, k: nat)
    requires Saturates(b, n, k)
    ensures TotalDelay(b, n) == b.base * (Pow2(k) - 1) + (n - k) * b.cap
    decreases n
  {
    if k == n {
      GeometricPrefix(b, k);
    } else {
      ExponentialMonotone(b, k + 1, n);
      assert CappedDelay(b, n) == b.cap;
      assert Saturates(b, n - 1, k);
      TotalDelayClosedForm(b, n - 1, k);
      assert (n - 1 - k) * b.cap + b.cap == (n - k) * b.cap;
    }
  }

  /** Timestamps are counted in microseconds, delays in seconds. */
  const SECOND := 1000000

  /** The draws `random.randint(0, capped_delay)` can return. */
  predicate JitterDraw(b: Backoff, attemptNumber: int, draw: nat) {
    attemptNumber >= 1 ==> draw <= CappedDelay(b, attemptNumber)
  }

  /** calculate_next_retry_time, given the caller's clock reading and its jitter draw. */
  function NextRetryTime(b: Backoff, attemptNumber: int, now: int, draw: nat): (at: Option<int>)
    requires JitterDraw(b, attemptNumber, draw)
    ensures at.None? <==> attemptNumber < 1
    ensures at.Some? ==> now <= at.value <= now + b.cap * SECOND
  {
    if attemptNumber < 1 then None
    else
      assert draw * SECOND <= b.cap * SECOND;
      Some(now + draw * SECOND)
  }
}
