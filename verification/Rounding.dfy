/** Rounding to whole numbers, as math.Round does it. */
module Rounding {

  /** To the nearest whole number, half away from zero. */
  function Round(x: real): (n: int)
    ensures -0.5 <= n as real - x <= 0.5
  {
    if x >= 0.0 then (x + 0.5).Floor else -((-x + 0.5).Floor)
  }

  predicate IsWhole(x: real) {
    x.Floor as real == x
  }

  lemma WholeRounds(x: real)
    requires IsWhole(x)
    ensures Round(x) as real == x
  {
    assert x >= 0.0 ==> (x + 0.5).Floor == x.Floor;
    assert x < 0.0 ==> (-x + 0.5).Floor == -(x.Floor);
  }

  lemma WholeAdds(x: real, y: real)
    requires IsWhole(x) && IsWhole(y)
    ensures IsWhole(x + y)
  {
    assert x + y == (x.Floor + y.Floor) as real;
  }
}
