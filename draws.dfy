/** Random draws. Every `Math.random()` of the game is a value passed in by the
    caller; `Math.floor(Math.random() * n)` becomes `Pick(u, n)`. */
module Draws {

  /** A value `Math.random()` can return: the half-open unit interval. */
  predicate IsUnit(u: real) {
    0.0 <= u < 1.0
  }

  /** `Math.floor(u * n)`: an index into a list of `n` entries. */
  function Pick(u: real, n: nat): (i: int)
    requires IsUnit(u)
    ensures n > 0 ==> 0 <= i < n
    ensures n == 0 ==> i == 0
  {
    ScaledBelow(u, n);
    (u * n as real).Floor
  }

  /** Scaling a unit draw by `n` stays in `[0, n)`. */
  lemma ScaledBelow(u: real, n: nat)
    requires IsUnit(u)
    ensures 0.0 <= u * n as real
    ensures n > 0 ==> u * n as real < n as real
  {
  }
}
