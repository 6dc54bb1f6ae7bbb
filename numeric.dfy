/**
 * Numbers as the calculator computes with them. A C++ `double` is modelled as an
 * exact real or the single distinguished value NaN; rounding and the infinities
 * are not modelled (a non-finite result is NaN). Addition, subtraction,
 * multiplication, negation and absolute value are exact on reals and propagate
 * NaN; every other mathematical function is uninterpreted and is supplied by
 * the caller as a field of `MathLib`.
 */
module Numeric {

  datatype Double = Num(r: real) | NaN {
    /** `std::isfinite`: in this model only NaN is non-finite. */
    predicate IsFinite() { Num? }
  }

  function Add(a: Double, b: Double): Double {
    if a.Num? && b.Num? then Num(a.r + b.r) else NaN
  }

  function Sub(a: Double, b: Double): Double {
    if a.Num? && b.Num? then Num(a.r - b.r) else NaN
  }

  function Mul(a: Double, b: Double): Double {
    if a.Num? && b.Num? then Num(a.r * b.r) else NaN
  }

  function Neg(a: Double): Double {
    if a.Num? then Num(-a.r) else NaN
  }

  /** `std::fabs`. */
  function Abs(a: Double): Double {
    if a.Num? then Num(if a.r < 0.0 then -a.r else a.r) else NaN
  }

  /**
   * The library functions the evaluator calls: `/` (IEEE division, which may
   * give infinities or NaN), `std::pow`, `std::sin`, ..., `std::exp`.
   */
  datatype MathLib = MathLib(
    div: (Double, Double) -> Double,
    pow: (Double, Double) -> Double,
    sin: Double -> Double,
    cos: Double -> Double,
    tan: Double -> Double,
    asin: Double -> Double,
    acos: Double -> Double,
    atan: Double -> Double,
    sqrt: Double -> Double,
    log: Double -> Double,
    exp: Double -> Double)

  /**
   * `n * d` as n-fold addition: the value a variable starting at 0 reaches
   * after `n` steps of `+= d`, and the exact product (`TimesIsProduct`).
   */
  function Times(n: nat, d: real): real {
    if n == 0 then 0.0 else Times(n - 1, d) + d
  }

  lemma {:induction false} TimesIsProduct(n: nat, d: real)
    ensures Times(n, d) == (n as real) * d
  {
    if n > 0 {
      TimesIsProduct(n - 1, d);
    }
  }

  /** A 2-D point (`sf::Vector2f`); `NaNPt` is a point whose coordinates are NaN. */
  datatype Pt = Pt(x: real, y: real) | NaNPt
}
