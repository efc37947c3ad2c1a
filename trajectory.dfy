/**
 The point emission of `display`. Both of its drawing loops start from the
 same initial point, advance it by one explicit Euler step of the Lorenz
 system per iteration and then emit one vertex, coloured from the loop index
 and the colour frequency, for the advanced point. They differ only in the
 bound: 50000 in Explorer mode, the animation cursor in Animation mode.

 The Euler step and the colour/scale formula are floating-point arithmetic;
 here they are abstract: `step` advances a point of an abstract type `P`
 under the attractor parameters, `plot` turns the colour frequency, the loop
 index and the advanced point into a vertex of an abstract type `V`.
 */
module Trajectory {

  /** The attractor parameters the Euler step reads: s, b and r. */
  datatype Params = Params(s: real, b: real, r: real)

  /** The fixed parts of both loops: the step, the vertex formula and the starting point. */
  datatype Integrator<!P, V> = Integrator(step: (Params, P) -> P, plot: (real, int, P) -> V, origin: P)

  /** The point reached after `n` Euler steps from the origin. */
  function Orbit<P, V>(g: Integrator<P, V>, k: Params, n: nat): P
  {
    if n == 0 then g.origin else g.step(k, Orbit(g, k, n - 1))
  }

  /**
   The first `n` vertices the loops emit: vertex `i` is plotted from loop
   index `i` and the point after `i + 1` steps.
   */
  function Points<P, V>(g: Integrator<P, V>, k: Params, freq: real, n: nat): (pts: seq<V>)
    ensures |pts| == n
    ensures forall i :: 0 <= i < n ==> pts[i] == g.plot(freq, i, Orbit(g, k, i + 1))
  {
    if n == 0 then [] else Points(g, k, freq, n - 1) + [g.plot(freq, n - 1, Orbit(g, k, n))]
  }

  /**
   Emitting fewer points replays the start of a longer emission: the points
   for `n` are exactly the first `n` of the points for any `m >= n`.
   */
  lemma PointsPrefix<P, V>(g: Integrator<P, V>, k: Params, freq: real, n: nat, m: nat)
    requires n <= m
    ensures Points(g, k, freq, n) == Points(g, k, freq, m)[..n]
  {
  }

  /**
   One of the loops `for (i = 0; i < count; i++)`: it advances the point and
   emits a vertex per iteration. A non-positive bound emits nothing.
   */
  method Emit<P, V>(g: Integrator<P, V>, k: Params, freq: real, count: int) returns (pts: seq<V>)
    ensures pts == Points(g, k, freq, if count > 0 then count else 0)
  {
    var p := g.origin;
    pts := [];
    var i := 0;
    while i < count
      invariant if count > 0 then i <= count else i == 0
      invariant 0 <= i
      invariant p == Orbit(g, k, i)
      invariant pts == Points(g, k, freq, i)
    {
      p := g.step(k, p);
      pts := pts + [g.plot(freq, i, p)];
      i := i + 1;
    }
  }
}
