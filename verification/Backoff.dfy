/** Bounded exponential backoff (backoff.hpp). */
module Backoffs {

  function Min(a: int, b: int): int {
    if a <= b then a else b
  }

  function Pow2(k: nat): (r: nat)
    ensures r >= 1
  {
    if k == 0 then 1 else 2 * Pow2(k - 1)
  }

  /** The delay, in milliseconds, handed out after `k` earlier failures since the
      last reset. The first is `initial` even when that exceeds `max`. */
  function Delay(initial: nat, max: nat, k: nat): nat {
    if k == 0 then initial else Min(max, initial * Pow2(k))
  }

  lemma {:induction false} DoublingFollowsDelay(initial: nat, max: nat, k: nat)
    ensures Delay(initial, max, k + 1) == Min(max, Delay(initial, max, k) * 2)
  {
    var p := Pow2(k);
    assert initial * Pow2(k + 1) == 2 * (initial * p);
  }

  /** With `initial <= max` the delays are exactly min(max, initial * 2^k), they
      never shrink, and none is below `initial`. */
  lemma {:induction false} DelayShape(initial: nat, max: nat, k: nat)
    requires initial <= max
    ensures Delay(initial, max, k) == Min(max, initial * Pow2(k))
    ensures initial <= Delay(initial, max, k) <= Delay(initial, max, k + 1) <= max
    decreases k
  {
    assert initial * Pow2(k + 1) == 2 * (initial * Pow2(k));
    if k > 0 {
      DelayShape(initial, max, k - 1);
    }
  }

  class Backoff {
    const initial: nat
    const max: nat
    var current: nat
    ghost var failures: nat

    ghost predicate Valid()
      reads this
    {
      current == Delay(initial, max, failures)
    }

    constructor (initial: nat, max: nat)
      ensures Valid() && failures == 0 && this.initial == initial && this.max == max
    {
      this.initial, this.max, current, failures := initial, max, initial, 0;
    }

    method Next() returns (delay: nat)
      requires Valid()
      modifies this
      ensures Valid() && failures == old(failures) + 1
      ensures delay == Delay(initial, max, old(failures))
    {
      delay := current;
      DoublingFollowsDelay(initial, max, failures);
      current := if max <= current * 2 then max else current * 2;
      failures := failures + 1;
    }

    method Reset()
      modifies this
      ensures Valid() && failures == 0
    {
      current := initial;
      failures := 0;
    }
  }
}
