/** Small shared vocabulary: error-carrying results, optional values and
    Python's float-to-int conversion. */
module Common {

  datatype Option<+T> = None | Some(value: T)

  datatype Result<+T, +E> = Ok(value: T) | Err(error: E)

  function Min(a: real, b: real): real { if a <= b then a else b }

  function Max(a: real, b: real): real { if a >= b then a else b }

  /** Python's `int()` applied to a float: truncation toward zero. */
  function Trunc(x: real): (r: int)
    ensures 0.0 <= x ==> 0 <= r && r as real <= x < r as real + 1.0
    ensures x < 0.0 ==> r <= 0 && r as real - 1.0 < x <= r as real
  {
    if x >= 0.0 then x.Floor else -((-x).Floor)
  }

  /** A real lying between two integers truncates to a value between them. */
  lemma TruncBetween(lo: int, hi: int, x: real)
    requires lo as real <= x <= hi as real
    ensures lo <= Trunc(x) <= hi
  {
  }

  /** The product of two non-negative reals is non-negative. */
  lemma MulNonneg(a: real, b: real)
    requires 0.0 <= a && 0.0 <= b
    ensures 0.0 <= a * b
  {
  }

  /** `v` lies in the closed interval spanned by `a` and `b`. */
  predicate Between(v: int, a: int, b: int) { a <= v <= b || b <= v <= a }

  /** `(1 - alpha) * a + alpha * b`: the linear mix used by every colour
      interpolation of the renderers. */
  function Lerp(a: int, b: int, alpha: real): real
  {
    (1.0 - alpha) * (a as real) + alpha * (b as real)
  }

  /** A convex mix of two integers, truncated, lies between them. */
  lemma LerpTruncBetween(a: int, b: int, alpha: real)
    requires 0.0 <= alpha <= 1.0
    ensures Between(Trunc(Lerp(a, b, alpha)), a, b)
  {
    var m := Lerp(a, b, alpha);
    assert m == a as real + alpha * ((b - a) as real);
    if a <= b {
      assert 0.0 <= alpha * ((b - a) as real) <= (b - a) as real;
      TruncBetween(a, b, m);
    } else {
      assert (a - b) as real >= alpha * ((a - b) as real) >= 0.0;
      TruncBetween(b, a, m);
    }
  }
}
