/** Retry timing: capped exponential backoff with full jitter, and what it adds up to. */
module Backoff {
  import opened Basics

  // RETRY_BASE_MS and RETRY_MAX_MS; the environment schema makes both positive.
  datatype Options = Options(baseMs: nat, maxMs: nat)

  const MAX_EXPONENT := 30

  function Pow2(n: nat): (p: nat)
    ensures p >= 1
  {
    if n == 0 then 1 else 2 * Pow2(n - 1)
  }

  /** The delay before jitter. */
  function Ceiling(attempt: nat, options: Options): nat {
    var exponent := Max(0, attempt - 1);
    Min(options.baseMs * Pow2(Min(exponent, MAX_EXPONENT)), options.maxMs)
  }

  function Scale(draw: real, ceiling: real): (r: real)
    requires 0.0 <= draw < 1.0 && 0.0 <= ceiling
    ensures 0.0 <= r <= ceiling
    ensures ceiling > 0.0 ==> r < ceiling
  {
    ScaledDown(draw, ceiling);
    draw * ceiling
  }

  lemma ScaledDown(draw: real, ceiling: real)
    requires 0.0 <= draw < 1.0 && 0.0 <= ceiling
    ensures 0.0 <= draw * ceiling
    ensures draw * ceiling <= ceiling
    ensures 0.0 < ceiling ==> draw * ceiling < ceiling
  {
  }

  function Floor(x: real): (n: nat)
    requires 0.0 <= x
    ensures n as real <= x < n as real + 1.0
  {
    x.Floor
  }

  lemma FloorBelow(x: real, n: nat)
    requires 0.0 <= x <= n as real
    ensures Floor(x) <= n
    ensures x < n as real ==> Floor(x) < n
  {
  }

  /** Math.floor(random() * ceiling), with the random draw as an argument in [0, 1). */
  function Jitter(draw: real, ceiling: nat): nat
    requires 0.0 <= draw < 1.0
  {
    Floor(Scale(draw, ceiling as real))
  }

  /** A delay lands in [0, ceiling], and strictly below the ceiling unless that is 0. */
  lemma JitterInRange(draw: real, ceiling: nat)
    requires 0.0 <= draw < 1.0
    ensures Jitter(draw, ceiling) <= ceiling
    ensures ceiling > 0 ==> Jitter(draw, ceiling) < ceiling
  {
    FloorBelow(Scale(draw, ceiling as real), ceiling);
  }

  /** The delay is the draw's share of the ceiling, rounded down. */
  lemma JitterIsShare(draw: real, ceiling: nat)
    requires 0.0 <= draw < 1.0
    ensures Jitter(draw, ceiling) as real <= draw * ceiling as real < Jitter(draw, ceiling) as real + 1.0
  {
  }

  lemma LargerShare(low: real, high: real, ceiling: nat)
    requires 0.0 <= low <= high < 1.0
    ensures low * ceiling as real <= high * ceiling as real
  {
  }

  lemma LargerDrawIsNotShorter(low: real, high: real, ceiling: nat)
    requires 0.0 <= low <= high < 1.0
    ensures Jitter(low, ceiling) <= Jitter(high, ceiling)
  {
    var x, y := Scale(low, ceiling as real), Scale(high, ceiling as real);
    assert x <= y by {
      LargerShare(low, high, ceiling);
    }
    FloorsInOrder(x, y);
  }

  lemma FloorsInOrder(x: real, y: real)
    requires 0.0 <= x <= y
    ensures Floor(x) <= Floor(y)
  {
  }

  /** Full jitter: every whole delay below the ceiling is reached by some draw. */
  lemma JitterReachesAll(n: nat, ceiling: nat) returns (draw: real)
    requires n < ceiling
    ensures 0.0 <= draw < 1.0 && Jitter(draw, ceiling) == n
  {
    draw := n as real / ceiling as real;
    assert draw * ceiling as real == n as real;
    assert draw < 1.0 by {
      if draw >= 1.0 {
        AtLeast(draw, ceiling as real);
        assert false;
      }
    }
  }

  lemma AtLeast(draw: real, ceiling: real)
    requires draw >= 1.0 && ceiling >= 0.0
    ensures draw * ceiling >= ceiling
  {
  }

  function Compute(attempt: nat, options: Options, draw: real): nat
    requires 0.0 <= draw < 1.0
  {
    Jitter(draw, Ceiling(attempt, options))
  }

  predicate ShouldRetry(attempt: nat, maxAttempts: nat) {
    attempt < maxAttempts
  }

  predicate IsSuccessStatus(status: int) {
    200 <= status < 300
  }

  predicate IsRetryableStatus(status: int) {
    status >= 500 || status == 408 || status == 425 || status == 429
  }

  // ---- The curve the capped exponent stands for -----------------------------------------

  lemma {:induction false} Pow2Grows(m: nat, n: nat)
    requires m <= n
    ensures Pow2(m) <= Pow2(n)
  {
    if m < n {
      Pow2Grows(m, n - 1);
    }
  }

  lemma {:induction false} PowersMultiply(m: nat, n: nat)
    ensures Pow2(m + n) == Pow2(m) * Pow2(n)
  {
    if m > 0 {
      PowersMultiply(m - 1, n);
      assert Pow2(m + n) == 2 * (Pow2(m - 1) * Pow2(n)) == (2 * Pow2(m - 1)) * Pow2(n);
    }
  }

  /** The cap multiplies the base delay by 2^30. */
  lemma HighestPower()
    ensures Pow2(1) == 2 && Pow2(10) == 1024 && Pow2(30) == 1073741824
  {
    assert Pow2(1) == 2;
    PowersMultiply(1, 1);
    PowersMultiply(2, 2);
    PowersMultiply(4, 1);
    PowersMultiply(5, 5);
    PowersMultiply(10, 10);
    PowersMultiply(20, 10);
  }

  /** min(base * 2^(i-1), max): the curve without the exponent cap. */
  function Uncapped(attempt: nat, options: Options): nat
    requires attempt >= 1
  {
    Min(options.baseMs * Pow2(attempt - 1), options.maxMs)
  }

  /** Capping the exponent only ever lowers the delay, and changes nothing at all exactly when the
      curve has met its ceiling by the cap, or the attempt has not reached it. */
  lemma CapIsInvisibleIff(attempt: nat, options: Options)
    requires attempt >= 1
    ensures Ceiling(attempt, options) <= Uncapped(attempt, options)
    ensures Ceiling(attempt, options) == Uncapped(attempt, options) <==>
            attempt <= MAX_EXPONENT + 1 || options.baseMs == 0 || options.maxMs <= options.baseMs * Pow2(MAX_EXPONENT)
  {
    if attempt > MAX_EXPONENT + 1 {
      Pow2Grows(MAX_EXPONENT + 1, attempt - 1);
      var cap, full := Pow2(MAX_EXPONENT), Pow2(attempt - 1);
      assert cap < full;
      if options.baseMs > 0 {
        assert options.baseMs * cap < options.baseMs * full by { ScaleStrict(options.baseMs, cap, full); }
      }
    }
  }

  lemma ScaleStrict(k: nat, a: nat, b: nat)
    requires k > 0 && a < b
    ensures k * a < k * b
  {
  }

  lemma ScaleOrdered(k: nat, a: nat, b: nat)
    requires a <= b
    ensures k * a <= k * b
  {
  }

  /** Later attempts wait no less than earlier ones, before jitter. */
  lemma CeilingGrows(attempt: nat, later: nat, options: Options)
    requires attempt <= later
    ensures Ceiling(attempt, options) <= Ceiling(later, options) <= options.maxMs
  {
    var a, b := Min(Max(0, attempt - 1), MAX_EXPONENT), Min(Max(0, later - 1), MAX_EXPONENT);
    Pow2Grows(a, b);
    ScaleOrdered(options.baseMs, Pow2(a), Pow2(b));
  }

  // ---- A whole epoch -------------------------------------------------------------------

  /** The most that the retries numbered 1..n can wait between them. */
  function Budget(n: nat, options: Options): nat {
    if n == 0 then 0 else Budget(n - 1, options) + Uncapped(n, options)
  }

  lemma OneMore(n: nat, k: nat)
    requires n > 0
    ensures n * k == (n - 1) * k + k
  {
  }

  lemma Doubled(k: nat, p: nat)
    ensures k * (2 * p - 1) == k * (p - 1) + k * p
  {
  }

  /** However many retries there are, waiting between them stays within the maximum for each, and within
      the sum of the doubling base. */
  lemma {:induction false} BudgetIsAtMost(n: nat, options: Options)
    ensures Budget(n, options) <= n * options.maxMs
    ensures Budget(n, options) <= options.baseMs * (Pow2(n) - 1)
  {
    if n > 0 {
      BudgetIsAtMost(n - 1, options);
      OneMore(n, options.maxMs);
      Doubled(options.baseMs, Pow2(n - 1));
    }
  }

  lemma {:induction false} BudgetGrows(m: nat, n: nat, options: Options)
    requires m <= n
    ensures Budget(m, options) <= Budget(n, options)
  {
    if m < n {
      BudgetGrows(m, n - 1, options);
    }
  }
}
