/** The random draws the dashboard makes, abstracted as parameters.

    `random.random()` is a real in [0, 1); `random.uniform(a, b)` is defined by
    Python as `a + (b - a) * random()`, so every uniform draw of the model is
    given as its unit draw `u` and mapped with `Uniform`. Integer draws
    (`random.randint(a, b)`, both ends included) and Gaussian draws
    (`random.normalvariate`) are passed in directly by the callers. */
module Draws {

  /** A value `random.random()` can return. */
  predicate IsUnit(u: real) {
    0.0 <= u < 1.0
  }

  /** `random.uniform(a, b)` for the unit draw `u`. */
  function Uniform(a: real, b: real, u: real): (r: real)
    requires a <= b
    requires IsUnit(u)
    ensures a <= r <= b
    ensures a < b ==> r < b
  {
    var w := b - a;
    ScaleBelow(w, u);
    a + w * u
  }

  /** Scaling a non-negative width by a unit draw stays within the width,
      strictly below it when the width is positive. */
  lemma ScaleBelow(w: real, u: real)
    requires 0.0 <= w && IsUnit(u)
    ensures 0.0 <= w * u <= w
    ensures 0.0 < w ==> w * u < w
  {
    MulNonneg(w, u);
    MulNonneg(w, 1.0 - u);
    assert w * (1.0 - u) == w - w * u;
  }

  lemma MulNonneg(x: real, y: real)
    requires 0.0 <= x && 0.0 <= y
    ensures 0.0 <= x * y
    ensures 0.0 < x && 0.0 < y ==> 0.0 < x * y
  {
  }

  /** Distinct unit draws give distinct values, and the unit draw can be
      recovered from the value: `Uniform` is a bijection onto [a, b). */
  lemma UniformInverse(a: real, b: real, u: real)
    requires a < b
    requires IsUnit(u)
    ensures (Uniform(a, b, u) - a) / (b - a) == u
  {
    var r := Uniform(a, b, u);
    assert r - a == (b - a) * u;
  }

  /** Every value of [a, b) is reachable by some unit draw, so the range
      stated by `Uniform` is tight. */
  lemma UniformCovers(a: real, b: real, x: real)
    requires a <= x < b
    ensures exists u :: IsUnit(u) && Uniform(a, b, u) == x
  {
    var u := Fraction(x - a, b - a);
    assert IsUnit(u);
    assert Uniform(a, b, u) == a + (x - a);
  }

  /** `p / q` for `0 <= p < q`, a unit draw that `q` scales back to `p`. */
  function Fraction(p: real, q: real): (u: real)
    requires 0.0 <= p < q
    ensures IsUnit(u)
    ensures q * u == p
  {
    DivBelowOne(p, q);
    p / q
  }

  /** A non-negative part of a positive whole is a fraction in [0, 1],
      below 1 when the part is smaller, that scales back to the part. */
  lemma DivBelowOne(p: real, q: real)
    requires 0.0 <= p <= q && 0.0 < q
    ensures 0.0 <= p / q <= 1.0
    ensures p < q ==> p / q < 1.0
    ensures q * (p / q) == p
  {
  }

  /** Dividing a scaled value by its non-zero scale recovers the factor. */
  lemma RatioBack(x: real, f: real)
    requires x != 0.0
    ensures (x * f) / x == f
  {
  }

  /** `max(lo, min(hi, x))`: the value the dashboard stores after clamping. */
  function Clamp(lo: real, hi: real, x: real): (r: real)
    requires lo <= hi
    ensures lo <= r <= hi
  {
    var capped := if hi < x then hi else x;
    if capped < lo then lo else capped
  }

  /** The clamped value is the point of [lo, hi] nearest to `x`, and it is
      `x` itself exactly when `x` already lies in [lo, hi]. */
  lemma ClampIsNearest(lo: real, hi: real, x: real, y: real)
    requires lo <= hi
    requires lo <= y <= hi
    ensures Clamp(lo, hi, x) == x <==> lo <= x <= hi
    ensures Dist(Clamp(lo, hi, x), x) <= Dist(y, x)
  {
  }

  /** Clamping twice is clamping once. */
  lemma ClampIdempotent(lo: real, hi: real, x: real)
    requires lo <= hi
    ensures Clamp(lo, hi, Clamp(lo, hi, x)) == Clamp(lo, hi, x)
  {
  }

  function Dist(a: real, b: real): real {
    if a < b then b - a else a - b
  }
}
