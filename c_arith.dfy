/**
 The two pieces of C integer semantics the controller depends on: the
 remainder operator `%` on `int`, which truncates the quotient toward zero so
 that the remainder takes the sign of the dividend, and the `(int)` cast of a
 `double`, which also truncates toward zero. Dafny's own `%` is Euclidean and
 `.Floor` rounds down, so both are written out here.
 */
module CArith {

  /** C's `a / n` for a positive divisor: the quotient truncated toward zero. */
  function Quot(a: int, n: int): int
    requires n > 0
  {
    if a >= 0 then a / n else -((-a) / n)
  }

  /**
   C's `a % n` for a positive divisor: together with `Quot` it satisfies
   `(a/n)*n + a%n == a`; it has the sign of `a` and a magnitude below `n`.
   */
  function Rem(a: int, n: int): (m: int)
    requires n > 0
    ensures a == Quot(a, n) * n + m
    ensures 0 <= a ==> 0 <= m < n
    ensures a < 0 ==> -n < m <= 0
    ensures -n < a < n ==> m == a
  {
    if a >= 0 then
      EuclidSmall(a, n);
      a % n
    else
      EuclidSmall(-a, n);
      -((-a) % n)
  }

  /** Dafny's `%` leaves a non-negative value below the divisor unchanged. */
  lemma EuclidSmall(a: nat, n: int)
    requires n > 0
    ensures a < n ==> a % n == a
  {
  }

  /** C's `(int)x` for a `double` x that fits in an `int`. */
  function Trunc(x: real): (i: int)
    ensures 0.0 <= x ==> 0 <= i && i as real <= x < i as real + 1.0
    ensures x < 0.0 ==> i <= 0 && i as real - 1.0 < x <= i as real
  {
    if x >= 0.0 then x.Floor else -((-x).Floor)
  }

  /** Truncation never decreases as its argument grows. */
  lemma TruncMonotone(x: real, y: real)
    requires x <= y
    ensures Trunc(x) <= Trunc(y)
  {
  }

  /** An integral value is left as it is by truncation. */
  lemma TruncOfInt(k: int)
    ensures Trunc(k as real) == k
  {
  }
}
