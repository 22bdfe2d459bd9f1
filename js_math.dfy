/** The JavaScript `Math` functions the source applies to percentages, on exact reals. */
module JsMath {

  /** `Math.round(x)`: the nearest integer, halves rounded toward +infinity. */
  function Round(x: real): (r: int)
    ensures r as real - 0.5 <= x < r as real + 0.5
  {
    (x + 0.5).Floor
  }

  /** `Math.floor(x)`. */
  function Floor(x: real): (r: int)
    ensures r as real <= x < r as real + 1.0
  {
    x.Floor
  }

  function MinReal(a: real, b: real): (r: real)
    ensures r <= a && r <= b && (r == a || r == b)
  {
    if a <= b then a else b
  }

  function MaxInt(a: int, b: int): (r: int)
    ensures r >= a && r >= b && (r == a || r == b)
  {
    if a >= b then a else b
  }

  function MinInt(a: int, b: int): (r: int)
    ensures r <= a && r <= b && (r == a || r == b)
  {
    if a <= b then a else b
  }

  /** `whole > 0 ? Math.round((part / whole) * 100) : 0`, the accuracy shown on several pages. */
  function Percent(part: int, whole: int): int
  {
    if whole > 0 then Round((part as real / whole as real) * 100.0) else 0
  }

  lemma PercentBounds(part: int, whole: int)
    requires 0 <= part <= whole
    ensures 0 <= Percent(part, whole) <= 100
  {
    if whole > 0 {
      var q := part as real / whole as real;
      assert q * whole as real == part as real;
      assert 0.0 <= q <= 1.0;
    }
  }

  lemma PercentAll(whole: int)
    requires whole > 0
    ensures Percent(whole, whole) == 100 && Percent(0, whole) == 0
  {
    assert whole as real / whole as real == 1.0;
  }
}
