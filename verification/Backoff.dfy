/** The retry-delay formula shared by the durable queue, the worker and the one-shot loop. */
module Backoff {
  import opened Numbers

  /** Go's time.Duration: a signed 64-bit count of nanoseconds. */
  newtype Duration = d: int | -0x8000_0000_0000_0000 <= d < 0x8000_0000_0000_0000

  const SECOND: int := 1_000_000_000

  function Pow2(n: nat): (p: nat)
    ensures p >= 1
  {
    if n == 0 then 1 else 2 * Pow2(n - 1)
  }

  lemma {:induction false} Pow2Monotone(m: nat, n: nat)
    requires m <= n
    ensures Pow2(m) <= Pow2(n)
    decreases n
  {
    if m < n {
      Pow2Monotone(m, n - 1);
    }
  }

  /** The closed form on unbounded integers: the capped geometric sequence. */
  function Wait(attempts: int, base: int, max: int): int {
    if base <= 0 || max <= 0 then
      0
    else
      Min(base * Pow2(if attempts < 1 then 0 else attempts - 1), max)
  }

  lemma ScaleMonotone(base: int, p: int, q: int)
    requires 0 <= base && p <= q
    ensures base * p <= base * q
  {
  }

  lemma CappedFromHere(i: nat, n: nat, base: int, max: int)
    requires 0 < base && 0 < max && 1 <= i < n
    requires max / 2 < base * Pow2(i - 1)
    ensures Wait(n, base, max) == max
  {
    Pow2Monotone(i, n - 1);
    ScaleMonotone(base, Pow2(i), Pow2(n - 1));
    Double(base, Pow2(i - 1));
  }

  lemma Double(base: int, p: int)
    ensures base * (2 * p) == 2 * (base * p)
  {
  }

  /** The bounded doubling loop. Every intermediate `delay` is a Duration, so its arithmetic
      never leaves 64 bits; the loop stops after logarithmically many doublings. */
  method Geometric(attempts: int, base: Duration, max: Duration) returns (delay: Duration, ghost doublings: nat)
    ensures delay as int == Wait(attempts, base as int, max as int)
    ensures 0 < doublings ==> base as int * Pow2(doublings) <= max as int
    ensures doublings == 0 || doublings < attempts
  {
    doublings := 0;
    if base <= 0 || max <= 0 {
      return 0, 0;
    }
    var n := if attempts < 1 then 1 else attempts;
    delay := base;
    var i := 1;
    while i < n
      invariant 1 <= i <= n && doublings == i - 1
      invariant 0 < delay
      invariant delay as int == base as int * Pow2(i - 1)
      invariant 0 < doublings ==> delay <= max
    {
      if delay >= max || delay > max / 2 {
        CappedFromHere(i, n, base as int, max as int);
        return max, doublings;
      }
      Double(base as int, Pow2(i - 1));
      delay := delay * 2;
      doublings := doublings + 1;
      i := i + 1;
    }
    if delay > max {
      return max, doublings;
    }
  }

  /** More failures never shorten the wait. */
  lemma WaitMonotone(m: int, n: int, base: int, max: int)
    requires m <= n
    ensures Wait(m, base, max) <= Wait(n, base, max)
  {
    if 0 < base && 0 < max {
      var p, q := if m < 1 then 0 else m - 1, if n < 1 then 0 else n - 1;
      Pow2Monotone(p, q);
      ScaleMonotone(base, Pow2(p), Pow2(q));
    }
  }

  /** The wait always lies between the smaller of base and cap, and the cap. */
  lemma WaitBounds(n: int, base: int, max: int)
    requires 0 < base && 0 < max
    ensures Min(base, max) <= Wait(n, base, max) <= max
  {
  }

  /** The first wait is the base, or the cap if that is smaller, and each further attempt doubles
      the wait up to the cap. Without a positive base and cap there is none. */
  lemma WaitDoublesUntilCapped(n: int, base: int, max: int)
    ensures 0 < base && 0 < max && n <= 1 ==> Wait(n, base, max) == if base <= max then base else max
    ensures 0 < base && 0 < max && 1 <= n ==>
      Wait(n + 1, base, max) == if 2 * Wait(n, base, max) <= max then 2 * Wait(n, base, max) else max
    ensures base <= 0 || max <= 0 ==> Wait(n, base, max) == 0
  {
    if 0 < base && 0 < max && 1 <= n {
      Double(base, Pow2(n - 1));
    }
  }

  /** Nothing else starts and continues like that. */
  lemma {:induction false} WaitIsTheDoubling(f: int -> int, n: int, base: int, max: int)
    requires 0 < base && 0 < max && 1 <= n
    requires f(1) == if base <= max then base else max
    requires forall i :: 1 <= i ==> f(i + 1) == if 2 * f(i) <= max then 2 * f(i) else max
    ensures f(n) == Wait(n, base, max)
  {
    if 1 < n {
      WaitIsTheDoubling(f, n - 1, base, max);
      WaitDoublesUntilCapped(n - 1, base, max);
      assert f(n) == f((n - 1) + 1);
    }
  }
}
