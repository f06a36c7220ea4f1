/**
 BackoffDelay of internal/session: exponential backoff in int64 nanoseconds.
 */
module Backoff {
  const TWO62: int := 0x4000_0000_0000_0000
  const TWO63: int := 0x8000_0000_0000_0000

  /** What an int64 keeps of an integer. */
  function Wrap64(x: int): (r: int)
    ensures -TWO63 <= r < TWO63
    ensures -TWO63 <= x < TWO63 ==> r == x
  {
    (x + TWO63) % (2 * TWO63) - TWO63
  }

  function Pow2(n: nat): (r: nat)
    ensures r >= 1
  {
    if n == 0 then 1 else 2 * Pow2(n - 1)
  }

  function Min(a: int, b: int): int {
    if a <= b then a else b
  }

  /** The delay the retry loop is meant to ask for. */
  function Ideal(attempt: nat, initial: int, max: int): int {
    if attempt == 0 then initial else Min(initial * Pow2(attempt), max)
  }

  lemma Doubled(initial: int, n: nat)
    ensures initial * Pow2(n + 1) == 2 * (initial * Pow2(n))
  {}

  lemma {:induction false} PowGrows(initial: int, i: nat, j: nat)
    requires 0 <= initial && i <= j
    ensures initial * Pow2(i) <= initial * Pow2(j)
  {
    if i < j {
      PowGrows(initial, i, j - 1);
      Doubled(initial, j - 1);
    }
  }

  /** The loop of the code, wrapping at 64 bits. */
  method BackoffDelay(attempt: int, initial: int, max: int) returns (delay: int)
    ensures 0 <= initial < TWO62 && max < TWO62 ==>
      delay == Ideal(if attempt < 0 then 0 else attempt, initial, max)
    // the bound is sharp: at 2^62 the first doubling overflows and the delay comes out negative
    ensures attempt == 1 && initial == TWO62 && 0 < max ==> delay == -2 * TWO62
  {
    delay := initial;
    ghost var sane := 0 <= initial < TWO62 && max < TWO62;
    for i := 0 to if attempt < 0 then 0 else attempt
      invariant sane ==> delay == initial * Pow2(i) && 0 <= delay < TWO62
      invariant sane && i > 0 ==> delay < max
      invariant i == 0 ==> delay == initial
      invariant i == 1 == attempt ==> delay == Wrap64(initial * 2)
    {
      if sane { Doubled(initial, i); }
      delay := Wrap64(delay * 2);
      if delay >= max {
        if sane { PowGrows(initial, i + 1, attempt); }
        return max;
      }
    }
  }

  lemma IdealMonotone(i: nat, j: nat, initial: int, max: int)
    requires 0 <= initial <= max && i <= j
    ensures Ideal(i, initial, max) <= Ideal(j, initial, max) <= max
  {
    PowGrows(initial, 0, i);
    PowGrows(initial, i, j);
  }

  /** The waits of one reconnect loop, added up. */
  function TotalWait(retries: nat, initial: int, max: int): int {
    if retries == 0 then 0 else TotalWait(retries - 1, initial, max) + Ideal(retries - 1, initial, max)
  }

  lemma {:induction false} TotalWaitBounded(retries: nat, initial: int, max: int)
    requires 0 <= initial <= max
    ensures 0 <= TotalWait(retries, initial, max) <= retries * max
  {
    if retries > 0 {
      TotalWaitBounded(retries - 1, initial, max);
      IdealMonotone(0, retries - 1, initial, max);
      assert retries * max == (retries - 1) * max + max;
    }
  }
}
