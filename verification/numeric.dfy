/** Double-precision values without rounding: a finite real, one of the two infinities, or NaN.
    The operations follow the IEEE 754 rules for the special values, which is what numpy applies
    elementwise. Signed zero is not distinguished: a zero divisor counts as +0. */
module Numeric {

  datatype Num = Fin(v: real) | PosInf | NegInf | NaN

  predicate IsInf(x: Num) { x.PosInf? || x.NegInf? }

  /** A value that numpy's `nansum` can skip or add without leaving the nonnegative reals. */
  predicate Nonneg(x: Num) { x.NaN? || (x.Fin? && x.v >= 0.0) }

  /** A decay weight: NaN, or a finite value in [0, 1]. */
  predicate IsWeight(x: Num) { x.NaN? || (x.Fin? && 0.0 <= x.v <= 1.0) }

  /** -1, 0 or 1 according to the sign of a non-NaN value. */
  function Sign(x: Num): int
  {
    match x
    case Fin(a) => if a > 0.0 then 1 else if a < 0.0 then -1 else 0
    case PosInf => 1
    case NegInf => -1
    case NaN => 0
  }

  function InfWithSign(s: int): Num
  {
    if s > 0 then PosInf else if s < 0 then NegInf else NaN
  }

  function Neg(x: Num): Num
  {
    match x
    case Fin(a) => Fin(-a)
    case PosInf => NegInf
    case NegInf => PosInf
    case NaN => NaN
  }

  function Add(x: Num, y: Num): Num
  {
    if x.NaN? || y.NaN? then NaN
    else if (x.PosInf? && y.NegInf?) || (x.NegInf? && y.PosInf?) then NaN
    else if x.PosInf? || y.PosInf? then PosInf
    else if x.NegInf? || y.NegInf? then NegInf
    else Fin(x.v + y.v)
  }

  function Sub(x: Num, y: Num): Num { Add(x, Neg(y)) }

  /** Infinity times zero is NaN; otherwise an infinite factor gives an infinity of the product's sign. */
  function Mul(x: Num, y: Num): Num
  {
    if x.NaN? || y.NaN? then NaN
    else if IsInf(x) || IsInf(y) then
      (if Sign(x) == 0 || Sign(y) == 0 then NaN
       else if (Sign(x) > 0) == (Sign(y) > 0) then PosInf
       else NegInf)
    else Fin(x.v * y.v)
  }

  function Div(x: Num, y: Num): Num
  {
    if x.NaN? || y.NaN? then NaN
    else if IsInf(x) && IsInf(y) then NaN
    else if IsInf(x) then (if (Sign(x) > 0) == (Sign(y) >= 0) then PosInf else NegInf)
    else if IsInf(y) then Fin(0.0)
    else if y.v == 0.0 then InfWithSign(Sign(x))
    else Fin(x.v / y.v)
  }

  /** `np.reciprocal`. */
  function Recip(x: Num): Num { Div(Fin(1.0), x) }

  /** Python's `<=` on floats: false whenever either side is NaN. */
  predicate Le(x: Num, y: Num)
  {
    !x.NaN? && !y.NaN? && (x.NegInf? || y.PosInf? || (x.Fin? && y.Fin? && x.v <= y.v))
  }

  /** `np.maximum`: NaN if either argument is NaN. */
  function Maximum(x: Num, y: Num): Num
  {
    if x.NaN? || y.NaN? then NaN else if Le(x, y) then y else x
  }

  /** `np.minimum`: NaN if either argument is NaN. */
  function Minimum(x: Num, y: Num): Num
  {
    if x.NaN? || y.NaN? then NaN else if Le(x, y) then x else y
  }

  /** `np.clip(x, lo, hi)`, which numpy computes as `minimum(maximum(x, lo), hi)`. */
  function Clip(x: Num, lo: Num, hi: Num): Num { Minimum(Maximum(x, lo), hi) }

  /** The identity, used only to steer the solver on nonlinear terms; it models nothing. */
  function Id(x: real): real { x }

  function Sq(x: real): real { x * x }

  /** The square as a product of two distinct terms, which the solver handles better than a power. */
  lemma SqAsProduct(x: real)
    ensures Sq(x) == x * Id(x)
  {
  }

  lemma MulPos(a: real, b: real)
    requires a > 0.0 && b > 0.0
    ensures a * b > 0.0
  {
  }

  lemma SqPos(x: real)
    requires x != 0.0
    ensures Sq(x) > 0.0
  {
    SqAsProduct(x);
    if x > 0.0 {
      MulPos(x, Id(x));
    } else {
      MulPos(-x, -Id(x));
    }
  }

  lemma SqNonneg(x: real)
    ensures Sq(x) >= 0.0
  {
    if x != 0.0 {
      SqPos(x);
    }
  }

  lemma MulNonneg(a: real, b: real)
    requires a >= 0.0 && b >= 0.0
    ensures a * b >= 0.0
  {
  }

  lemma SqDiff(a: real, b: real)
    ensures Sq(a) - Sq(b) == (a - b) * (a + b)
  {
  }

  /** Squaring is monotone on the nonnegative reals, strictly so. */
  lemma SqMonotone(a: real, b: real)
    requires 0.0 <= b <= a
    ensures Sq(b) <= Sq(a)
    ensures b < a ==> Sq(b) < Sq(a)
  {
    if b < a {
      var u, v := a - b, a + b;
      SqDiff(a, b);
      MulPos(u, v);
      assert Sq(a) - Sq(b) == u * v;
    }
  }

  lemma SqNegate(x: real)
    ensures Sq(-x) == Sq(x)
  {
  }

  lemma SqScale(q: real, s: real)
    ensures Sq(q * s) == Sq(q) * Sq(s)
  {
  }

  /** `x**2`: either infinity squares to +inf. */
  function Square(x: Num): Num
  {
    match x
    case Fin(a) => Fin(Sq(a))
    case NaN => NaN
    case _ => PosInf
  }

  /** `np.power(x, n)` for a natural exponent; as in IEEE 754, `x**0` is 1 even for NaN. */
  function Pow(x: Num, n: nat): Num
  {
    if n == 0 then Fin(1.0) else Mul(Pow(x, n - 1), x)
  }

  function RPow(x: real, n: nat): real
  {
    if n == 0 then 1.0 else RPow(x, n - 1) * x
  }

  /** What `nansum` adds for an entry: NaN counts as zero. */
  function Skip(x: Num): Num { if x.NaN? then Fin(0.0) else x }

  /** `np.nansum` over a vector: NaN entries are left out, an empty or all-NaN vector sums to 0. */
  function NanSum(s: seq<Num>): (r: Num)
    ensures (forall k | 0 <= k < |s| :: Nonneg(s[k])) ==> r.Fin? && r.v >= 0.0
    ensures (forall k | 0 <= k < |s| :: !IsInf(s[k])) ==> r.Fin?
  {
    if |s| == 0 then Fin(0.0) else Add(NanSum(s[..|s| - 1]), Skip(s[|s| - 1]))
  }

  /** The finite part of a value, as `nansum` sees it when there are no infinities. */
  function Val(x: Num): real { if x.Fin? then x.v else 0.0 }

  function Vals(s: seq<Num>): seq<real> { seq(|s|, k requires 0 <= k < |s| => Val(s[k])) }

  /** Plain sum of reals, peeling the last element. */
  function Sum(s: seq<real>): real
  {
    if |s| == 0 then 0.0 else Sum(s[..|s| - 1]) + s[|s| - 1]
  }
}
