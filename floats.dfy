/** Floating-point numbers as the beam script uses them: an exact real or
    not-a-number. Arithmetic propagates NaN as IEEE 754 does; infinities and
    rounding are not modelled. */
module Floats {

  datatype Float = Num(r: real) | NaN

  /** A 2-vector (a numpy array of two floats in the source). */
  datatype Vec = Vec(x: Float, y: Float)

  const Zero: Vec := Vec(Num(0.0), Num(0.0))

  /** `np.any(np.isnan(v))`: the zero vector never holds a NaN. */
  predicate AnyNaN(v: Vec)
    ensures AnyNaN(v) ==> v != Zero
  {
    v.x.NaN? || v.y.NaN?
  }

  function Sub(a: Float, b: Float): (r: Float)
    ensures r.NaN? <==> a.NaN? || b.NaN?
  {
    if a.NaN? || b.NaN? then NaN else Num(a.r - b.r)
  }

  function Add(a: Float, b: Float): (r: Float)
    ensures r.NaN? <==> a.NaN? || b.NaN?
  {
    if a.NaN? || b.NaN? then NaN else Num(a.r + b.r)
  }

  /** `a ** 2` */
  function Square(a: Float): (r: Float)
    ensures r.NaN? <==> a.NaN?
    ensures r.Num? ==> r.r >= 0.0
  {
    if a.NaN? then NaN else Num(a.r * a.r)
  }

  /** `v * s` for a real scalar s, component by component; NaN * 0 stays NaN. */
  function Scale(v: Vec, s: real): (r: Vec)
    ensures AnyNaN(r) <==> AnyNaN(v)
  {
    Vec(if v.x.NaN? then NaN else Num(v.x.r * s),
        if v.y.NaN? then NaN else Num(v.y.r * s))
  }

  /** `v *= 0` zeroes a vector exactly when it holds no NaN. */
  lemma ScaleByZero(v: Vec)
    ensures Scale(v, 0.0) == Zero <==> !AnyNaN(v)
  {
    if AnyNaN(v) {
      assert AnyNaN(Scale(v, 0.0));
    }
  }

  /** `((a - b)**2).sum()` */
  function SquaredDistance(a: Vec, b: Vec): (d: Float)
    ensures d.NaN? <==> AnyNaN(a) || AnyNaN(b)
    ensures d.Num? ==> d.r >= 0.0
    ensures a == b && !AnyNaN(a) ==> d == Num(0.0)
  {
    Add(Square(Sub(a.x, b.x)), Square(Sub(a.y, b.y)))
  }

  /** The squared distance does not depend on the direction of the link. */
  lemma SquaredDistanceSymmetric(a: Vec, b: Vec)
    ensures SquaredDistance(a, b) == SquaredDistance(b, a)
  {
    if !AnyNaN(a) && !AnyNaN(b) {
      assert (a.x.r - b.x.r) * (a.x.r - b.x.r) == (b.x.r - a.x.r) * (b.x.r - a.x.r);
      assert (a.y.r - b.y.r) * (a.y.r - b.y.r) == (b.y.r - a.y.r) * (b.y.r - a.y.r);
    }
  }

  /** `d ** 0.5`, with the real square root supplied by the caller. */
  function Root(d: Float, sqrt: real -> real): (r: Float)
    ensures r.NaN? <==> d.NaN?
  {
    if d.NaN? then NaN else Num(sqrt(d.r))
  }
}
