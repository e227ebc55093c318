/** Wrapping counters: what a counter kept modulo m says about the unbounded count behind it. */
module Wrapping {

  /** The value of a counter of m states after count increments. */
  function Wrap(count: nat, m: nat): (x: nat)
    requires m > 0
    ensures x < m
  {
    if count < m then count else Wrap(count - m, m)
  }

  /** One increment of a counter of m states. */
  function Next(x: nat, m: nat): nat {
    if x + 1 == m then 0 else x + 1
  }

  /** Advancing by at most one lap wraps at most once. */
  lemma {:induction false} WrapAdvance(count: nat, d: nat, m: nat)
    requires 0 < m && d <= m
    ensures Wrap(count + d, m) == if Wrap(count, m) + d < m then Wrap(count, m) + d else Wrap(count, m) + d - m
  {
    if count >= m {
      WrapAdvance(count - m, d, m);
    } else if count + d >= m {
      assert Wrap(count + d, m) == Wrap(count + d - m, m);
    }
  }

  lemma WrapNext(count: nat, m: nat)
    requires 0 < m
    ensures Wrap(count + 1, m) == Next(Wrap(count, m), m)
  {
    WrapAdvance(count, 1, m);
  }

  /** Distinct counts less than a lap apart stay distinct. */
  lemma WrapDistinct(i: nat, j: nat, m: nat)
    requires i < j < i + m
    ensures Wrap(i, m) != Wrap(j, m)
  {
    WrapAdvance(i, j - i, m);
  }

  /** A pointer without its top bit. */
  function Low(x: nat, half: nat): nat {
    if x < half then x else x - half
  }

  /** Dropping the top bit of a pointer leaves the address. */
  lemma {:induction false} WrapLow(count: nat, half: nat)
    requires 0 < half
    ensures Low(Wrap(count, 2 * half), half) == Wrap(count, half)
  {
    if count >= 2 * half {
      WrapLow(count - 2 * half, half);
    }
  }
}
