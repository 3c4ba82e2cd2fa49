/**
 * Math.random() as an injected oracle: the n-th call returns draw(n), a value in [0, 1).
 */
module Random {

  /** The value the n-th call of Math.random() returns. */
  function Draw(draw: nat -> real, n: nat): real
  {
    draw(n)
  }

  /** Every value the oracle hands out lies in [0, 1), as Math.random() promises. */
  ghost predicate ValidDraws(draw: nat -> real)
  {
    forall n: nat :: 0.0 <= Draw(draw, n) < 1.0
  }

  /** Math.floor(r * n): the index a draw r selects among n slots. */
  function Pick(r: real, n: nat): int
  {
    (r * n as real).Floor
  }

  /** A draw in [0, 1) picks one of the n slots, or slot 0 when there are none. */
  lemma PickInRange(r: real, n: nat)
    requires 0.0 <= r < 1.0
    ensures n > 0 ==> 0 <= Pick(r, n) < n
    ensures n == 0 ==> Pick(r, n) == 0
  {
    ScaleBelow(r, n);
  }

  /** The draw k / n selects slot k. */
  lemma PickSelects(k: nat, n: nat)
    requires k < n
    ensures var r := k as real / n as real;
      0.0 <= r < 1.0 && Pick(r, n) == k
  {
    var r := k as real / n as real;
    assert r * n as real == k as real;
  }

  lemma ScaleBelow(r: real, n: nat)
    requires 0.0 <= r < 1.0
    ensures 0.0 <= r * n as real <= n as real
    ensures n > 0 ==> r * n as real < n as real
  {
  }

  /** The stream of values Math.random() returns, consumed one call at a time. */
  class RandomSource {
    const draw: nat -> real
    var count: nat

    ghost predicate Valid()
    {
      ValidDraws(draw)
    }

    constructor (draw: nat -> real)
      requires ValidDraws(draw)
      ensures Valid() && this.draw == draw && count == 0
    {
      this.draw := draw;
      count := 0;
    }

  }
}
