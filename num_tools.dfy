/** `NumTools`: sign tests, a variadic minimum and clamping. */
module NumTools {

  /** Both arguments lie on the same side of zero (zero counts as either side). */
  predicate SameSign(x: real, y: real): (r: bool)
    ensures r <==> (x >= 0.0 && y >= 0.0) || (x <= 0.0 && y <= 0.0)
  {
    ProductSign(x, y);
    x * y >= 0.0
  }

  /** The arguments lie strictly on opposite sides of zero. */
  predicate DifferentSign(x: real, y: real): (r: bool)
    ensures r <==> (x > 0.0 && y < 0.0) || (x < 0.0 && y > 0.0)
  {
    ProductSign(x, y);
    x * y < 0.0
  }

  lemma ProductSign(x: real, y: real)
    ensures x * y >= 0.0 <==> (x >= 0.0 && y >= 0.0) || (x <= 0.0 && y <= 0.0)
  {
    if x > 0.0 && y < 0.0 {
      assert x * y < 0.0;
    } else if x < 0.0 && y > 0.0 {
      assert x * y < 0.0;
    } else if x >= 0.0 && y >= 0.0 {
      assert x * y >= 0.0;
    } else if x <= 0.0 && y <= 0.0 {
      assert x * y == (-x) * (-y);
    }
  }

  /** For any two numbers exactly one of the two sign tests holds. */
  lemma SignTestsComplementary(x: real, y: real)
    ensures SameSign(x, y) != DifferentSign(x, y)
  {
  }

  /** `Min(first, second, params rest)`: the least of all its arguments. */
  method Min(first: int, second: int, rest: seq<int>) returns (m: int)
    ensures m <= first && m <= second
    ensures forall i :: 0 <= i < |rest| ==> m <= rest[i]
    ensures m == first || m == second || m in rest
  {
    m := if first <= second then first else second;
    for k := 0 to |rest|
      invariant m <= first && m <= second
      invariant forall i :: 0 <= i < k ==> m <= rest[i]
      invariant m == first || m == second || m in rest[..k]
    {
      if rest[k] < m {
        m := rest[k];
      }
    }
    assert rest[..|rest|] == rest;
  }

  /** `Math.Min` and `Math.Max` on ints and on floats. */
  function MinInt(a: int, b: int): int { if a <= b then a else b }
  function MaxInt(a: int, b: int): int { if a >= b then a else b }
  function MinReal(a: real, b: real): real { if a <= b then a else b }
  function MaxReal(a: real, b: real): real { if a >= b then a else b }

  /** `Clamp(int value, int min, int max)` = `Max(min, Min(max, value))`. */
  function ClampInt(value: int, min: int, max: int): (r: int)
    ensures min <= max ==> min <= r <= max
    ensures min <= value <= max ==> r == value
    ensures value < min || min > max ==> r == min
    ensures min <= max < value ==> r == max
  {
    MaxInt(min, MinInt(max, value))
  }

  /** `Clamp(float value, float min, float max)`, the same formula over reals. */
  function ClampFloat(value: real, min: real, max: real): (r: real)
    ensures min <= max ==> min <= r <= max
    ensures min <= value <= max ==> r == value
    ensures value < min || min > max ==> r == min
    ensures min <= max < value ==> r == max
  {
    MaxReal(min, MinReal(max, value))
  }

  /** Clamping into a non-empty interval twice changes nothing. */
  lemma ClampIntIdempotent(value: int, min: int, max: int)
    requires min <= max
    ensures ClampInt(ClampInt(value, min, max), min, max) == ClampInt(value, min, max)
  {
  }

  lemma ClampFloatIdempotent(value: real, min: real, max: real)
    requires min <= max
    ensures ClampFloat(ClampFloat(value, min, max), min, max) == ClampFloat(value, min, max)
  {
  }
}
