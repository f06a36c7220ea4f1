/**
 Values that may be missing, calls that may fail, and loops that stop early.
 */
module Wrappers {

  datatype Option<+T> = None | Some(value: T)

  datatype Result<+T, +E> = Ok(value: T) | Err(error: E)

  /** The turn at which a loop from n to limit stops: the first bad one, or the limit. */
  function Stop(bad: nat -> bool, n: nat, limit: nat): (k: nat)
    requires n <= limit
    ensures n <= k <= limit
    ensures forall j :: n <= j < k ==> !bad(j)
    ensures k < limit ==> bad(k)
    decreases limit - n
  {
    if n == limit || bad(n) then n else Stop(bad, n + 1, limit)
  }

  /** The contract of Stop leaves one answer. */
  lemma StopIs(bad: nat -> bool, n: nat, limit: nat, k: nat)
    requires n <= k <= limit && (forall j :: n <= j < k ==> !bad(j)) && (k < limit ==> bad(k))
    ensures Stop(bad, n, limit) == k
  {}
}
