module Numbers {
  /** Rounds to the nearest integer, halves away from zero. */
  function RoundHalfAway(x: real): int {
    if x >= 0.0 then (x + 0.5).Floor else -((-x + 0.5).Floor)
  }

  /** No integer is closer to x than i, and if another one is as close, i is the one away from zero. */
  ghost predicate IsNearest(x: real, i: int) {
    && -1.0 <= 2.0 * (x - i as real) <= 1.0
    && (2.0 * (x - i as real) == 1.0 ==> x < 0.0)
    && (2.0 * (x - i as real) == -1.0 ==> x > 0.0)
  }

  /** Rounding gives the nearest integer, and there is only one. */
  lemma RoundIsNearest(x: real, i: int)
    ensures RoundHalfAway(x) == i <==> IsNearest(x, i)
  {
    var y := RoundHalfAway(x);
    assert IsNearest(x, y);
    if IsNearest(x, i) {
      assert -2.0 <= 2.0 * (y - i) as real <= 2.0;
    }
  }
}
