/** The waiting schedule of `await_ghost_lock_release`. */
module Backoff {
  const LOCK_TTL_SECS: nat := 30
  const RETRY_MAX: nat := 8
  const BASE_MS: nat := 50

  function Pow2(n: nat): (p: nat)
    ensures p >= 1
  {
    if n == 0 then 1 else 2 * Pow2(n - 1)
  }

  /** Sleep before the given attempt: base * (1 << min(attempt, 6)). */
  function BackoffMs(base: nat, attempt: nat): nat { base * Pow2(if attempt < 6 then attempt else 6) }

  /** Milliseconds slept after n retries. */
  function TotalWait(base: nat, n: nat): nat {
    if n == 0 then 0 else TotalWait(base, n - 1) + BackoffMs(base, n - 1)
  }

  /** Closed form, for every base and every number of retries. */
  lemma {:induction false} TotalWaitClosed(base: nat, n: nat)
    ensures TotalWait(base, n) == base * (Pow2(if n < 7 then n else 7) - 1 + 64 * (if n < 7 then 0 else n - 7))
  {
    if n > 0 {
      TotalWaitClosed(base, n - 1);
      assert Pow2(6) == 64;
      if n <= 7 {
        Distribute(base, Pow2(n - 1) - 1, Pow2(n - 1));
      } else {
        Distribute(base, Pow2(7) - 1 + 64 * (n - 8), 64);
      }
    }
  }

  lemma Distribute(a: int, b: int, c: int)
    ensures a * b + a * c == a * (b + c)
  {}

  lemma {:induction false} TotalWaitMonotone(base: nat, m: nat, n: nat)
    requires m <= n
    ensures TotalWait(base, m) <= TotalWait(base, n)
  {
    if m < n { TotalWaitMonotone(base, m, n - 1); }
  }

  /** While the sleep still doubles, each wake-up comes by twice the last one plus the base. */
  lemma NextWake(base: nat, n: nat)
    ensures TotalWait(base, n + 1) <= 2 * TotalWait(base, n) + base
  {
    TotalWaitClosed(base, n);
    TotalWaitClosed(base, n + 1);
    var p := Pow2(if n < 7 then n else 7);
    if n < 7 {
      assert TotalWait(base, n) == base * (p - 1) && TotalWait(base, n + 1) == base * (2 * p - 1);
      Distribute(base, p - 1, p);
    } else {
      TotalWaitMonotone(base, 7, n);
      assert Pow2(7) == 128;
      TotalWaitClosed(base, 7);
      assert BackoffMs(base, n) == base * 64;
    }
  }
}
