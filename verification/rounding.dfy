/**
 Python's `round(x, 1)`, taken on exact reals: the nearest multiple of 0.1, ties to even.
 The rest of the model only relies on two facts about it, both proved here: it is monotone,
 and it leaves a value that already has one decimal unchanged.
 */
module Rounding {

  /** `x` is a whole number of tenths. */
  predicate OneDecimal(x: real) {
    (x * 10.0).Floor as real == x * 10.0
  }

  /** Nearest integer to `t`, ties to the even neighbour (Python's rounding rule). */
  function RoundHalfEven(t: real): (n: int)
    ensures t - 0.5 <= n as real <= t + 0.5
    ensures t.Floor as real == t ==> n == t.Floor
  {
    var f := t.Floor;
    var d := t - f as real;
    if d < 0.5 then f
    else if d > 0.5 then f + 1
    else if f % 2 == 0 then f
    else f + 1
  }

  lemma RoundHalfEvenMonotone(t: real, u: real)
    requires t <= u
    ensures RoundHalfEven(t) <= RoundHalfEven(u)
  {
    var f, g := t.Floor, u.Floor;
    assert f <= g;
    if f < g {
      assert RoundHalfEven(t) <= f + 1 <= g <= RoundHalfEven(u);
    }
  }

  function Round1(x: real): (r: real)
    ensures OneDecimal(r)
    ensures x - 0.05 <= r <= x + 0.05
  {
    var n := RoundHalfEven(x * 10.0);
    assert (n as real / 10.0) * 10.0 == n as real;
    n as real / 10.0
  }

  lemma Round1Fixed(x: real)
    requires OneDecimal(x)
    ensures Round1(x) == x
  {
    assert RoundHalfEven(x * 10.0) == (x * 10.0).Floor;
  }

  lemma Round1Monotone(x: real, y: real)
    requires x <= y
    ensures Round1(x) <= Round1(y)
  {
    RoundHalfEvenMonotone(x * 10.0, y * 10.0);
  }

  /** Adding a whole number of tenths keeps a one-decimal value one-decimal. */
  lemma OneDecimalSum(x: real, y: real)
    requires OneDecimal(x) && OneDecimal(y)
    ensures OneDecimal(x + y)
  {
    var a, b := (x * 10.0).Floor, (y * 10.0).Floor;
    assert (x + y) * 10.0 == (a + b) as real;
  }
}
