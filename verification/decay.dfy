/** The catalogue of distance-decay transforms of `aceso/decay.py`: each maps a distance to a
    weight, elementwise, and is looked up by a case-insensitive name. */
module Decay {
  import opened Numeric
  import opened Outcome

  datatype Kernel = Uniform | RaisedCosine | Gaussian | Parabolic

  /** A kernel with its one shape parameter bound: `scale`, or `sigma` for the Gaussian. */
  datatype Transform = Transform(kernel: Kernel, param: real)

  /** The transcendental pieces the transforms call: `np.exp`, `np.cos` and `math.pi`, kept abstract. */
  datatype Elementary = Elementary(exp: real -> real, cos: real -> real, pi: real)

  /** The facts about exp, cos and pi that the lemmas rely on. */
  ghost predicate Sound(m: Elementary)
  {
    && m.exp(0.0) == 1.0
    && (forall x :: x <= 0.0 ==> 0.0 < m.exp(x) <= 1.0)
    && (forall x :: -1.0 <= m.cos(x) <= 1.0)
    && m.cos(0.0) == 1.0
    && m.cos(0.5 * m.pi) == 0.0
    && m.cos(m.pi) == -1.0
    && m.pi > 0.0
    && (forall x, y :: x <= y ==> m.exp(x) <= m.exp(y))
    && (forall x, y :: 0.0 <= x <= y <= m.pi ==> m.cos(y) <= m.cos(x))
  }

  /** A rational stand-in for exp: 1 / (1 - x) up to 0 and 1 + x beyond. */
  function ExpWitness(x: real): real
  {
    if x <= 0.0 then 1.0 / (1.0 - x) else 1.0 + x
  }

  /** A piecewise-linear stand-in for cos with pi = 2: 1 up to 0, 1 - x on [0, 2], -1 beyond. */
  function CosWitness(x: real): real
  {
    if x <= 0.0 then 1.0 else if x >= 2.0 then -1.0 else 1.0 - x
  }

  /** The assumptions of `Sound` can all hold at once, so no lemma that requires them is vacuous. */
  lemma SoundWitness()
    ensures Sound(Elementary(ExpWitness, CosWitness, 2.0))
  {
    var m := Elementary(ExpWitness, CosWitness, 2.0);
    forall x | x <= 0.0 ensures 0.0 < m.exp(x) <= 1.0 {
      ReciprocalBelowOne(1.0 - x);
    }
    forall x, y | x <= y ensures m.exp(x) <= m.exp(y) {
      if y <= 0.0 {
        ReciprocalsOrdered(1.0 - y, 1.0 - x);
      } else if x <= 0.0 {
        ReciprocalBelowOne(1.0 - x);
      }
    }
  }

  lemma ReciprocalBelowOne(a: real)
    requires a >= 1.0
    ensures 0.0 < 1.0 / a <= 1.0
  {
  }

  lemma ReciprocalsOrdered(a: real, b: real)
    requires 0.0 < a <= b
    ensures 1.0 / b <= 1.0 / a
  {
    assert 1.0 / b * b == 1.0 && 1.0 / a * a == 1.0;
    assert (1.0 / a - 1.0 / b) * (a * b) == b - a;
  }

  /** `np.exp`: exp(-inf) is 0, exp(+inf) is +inf, NaN stays NaN. */
  function ExpOf(m: Elementary, x: Num): Num
  {
    match x
    case Fin(a) => Fin(m.exp(a))
    case PosInf => PosInf
    case NegInf => Fin(0.0)
    case NaN => NaN
  }

  /** `np.cos`: NaN for NaN and for either infinity. */
  function CosOf(m: Elementary, x: Num): Num
  {
    if x.Fin? then Fin(m.cos(x.v)) else NaN
  }

  function RMax(a: real, b: real): real { if a >= b then a else b }

  /** `uniform_decay`: the comparison `d <= scale` as 1.0 or 0.0. A NaN distance compares
      false and so weighs 0, not NaN. */
  function UniformDecay(d: Num, scale: real): Num
  {
    if Le(d, Fin(scale)) then Fin(1.0) else Fin(0.0)
  }

  /** `parabolic_decay` (Epanechnikov): `maximum((scale**2 - d**2) / scale**2, 0)`. */
  function ParabolicDecay(d: Num, scale: real): Num
  {
    var s2 := Square(Fin(scale));
    Maximum(Div(Sub(s2, Square(d)), s2), Fin(0.0))
  }

  /** `gaussian_decay`: `exp(-(d**2 / (2 * sigma**2)))`. */
  function GaussianDecay(d: Num, sigma: real, m: Elementary): Num
  {
    ExpOf(m, Neg(Div(Square(d), Mul(Fin(2.0), Square(Fin(sigma))))))
  }

  /** `raised_cosine_decay`: the distance is clipped into [0, scale] and then
      `(1 + cos(clipped / scale * pi)) / 2`. */
  function RaisedCosineDecay(d: Num, scale: real, m: Elementary): Num
  {
    var clipped := Clip(d, Fin(0.0), Fin(scale));
    Div(Add(Fin(1.0), CosOf(m, Mul(Div(clipped, Fin(scale)), Fin(m.pi)))), Fin(2.0))
  }

  /** The bound transform applied to one distance. */
  function Weigh(t: Transform, m: Elementary, d: Num): Num
  {
    match t.kernel
    case Uniform => UniformDecay(d, t.param)
    case Parabolic => ParabolicDecay(d, t.param)
    case Gaussian => GaussianDecay(d, t.param, m)
    case RaisedCosine => RaisedCosineDecay(d, t.param, m)
  }

  /** A transform broadcast over a vector of distances. */
  function WeighAll(t: Transform, m: Elementary, ds: seq<Num>): (r: seq<Num>)
    ensures |r| == |ds|
  {
    seq(|ds|, k requires 0 <= k < |ds| => Weigh(t, m, ds[k]))
  }

  /** One character of `str.lower`: ASCII capitals and the Kelvin sign, the one non-ASCII
      character whose lower case is an ASCII letter. Other characters are kept. */
  function LowerChar(c: char): char
  {
    if 'A' <= c <= 'Z' then (c as int + 32) as char
    else if c == '\U{212A}' then 'k'
    else c
  }

  /** `str.lower`, exact wherever the result can be a registered name. */
  function Lower(s: string): string
  {
    seq(|s|, i requires 0 <= i < |s| => LowerChar(s[i]))
  }

  /** The names under which each kernel is registered. */
  function Aliases(k: Kernel): set<string>
  {
    match k
    case Uniform => {"uniform"}
    case RaisedCosine => {"raised_cosine"}
    case Gaussian => {"gaussian"}
    case Parabolic => {"parabolic", "epanechnikov"}
  }

  /** `NAME_TO_FUNCTION_MAP`. */
  const Catalogue: map<string, Kernel> := map[
    "uniform" := Uniform,
    "raised_cosine" := RaisedCosine,
    "gaussian" := Gaussian,
    "parabolic" := Parabolic,
    "epanechnikov" := Parabolic
  ]

  /** `get_decay_function`: the lower-cased name is looked up; an unknown name raises a
      `KeyError` carrying the lower-cased key. */
  function LookupTransform(name: string): (r: Result<Kernel, string>)
    ensures r.Ok? <==> exists k :: Lower(name) in Aliases(k)
    ensures r.Ok? ==> Lower(name) in Aliases(r.value)
    ensures r.Err? ==> r.error == Lower(name)
  {
    var key := Lower(name);
    CatalogueHoldsTheAliases(key);
    if key in Catalogue then Ok(Catalogue[key]) else Err(key)
  }

  /** The registry and the per-kernel alias sets describe the same names. */
  lemma CatalogueHoldsTheAliases(key: string)
    ensures key in Catalogue <==> exists k :: key in Aliases(k)
    ensures key in Catalogue ==> key in Aliases(Catalogue[key])
  {
    if key !in Catalogue {
      forall k ensures key !in Aliases(k) {
        match k
        case Uniform =>
        case RaisedCosine =>
        case Gaussian =>
        case Parabolic =>
      }
    } else {
      assert key in Aliases(Catalogue[key]);
    }
  }

  /** Lookup ignores case: a name and its lower-cased form select the same kernel or raise
      the same key. */
  lemma LookupIgnoresCase(name: string)
    ensures LookupTransform(Lower(name)) == LookupTransform(name)
  {
    var once := Lower(name);
    forall i | 0 <= i < |once| ensures Lower(once)[i] == once[i] {
      assert LowerChar(once[i]) == once[i];
    }
    assert Lower(once) == once;
  }

  /** Upper-case names and the Kelvin sign both select the registered kernels. */
  lemma LookupExamples()
    ensures LookupTransform("EPANECHNI\U{212A}OV") == Ok(Parabolic)
    ensures LookupTransform("Gaussian") == Ok(Gaussian)
    ensures LookupTransform("Cosine") == Err("cosine")
  {
    assert Lower("EPANECHNI\U{212A}OV") == "epanechnikov";
    assert Lower("Gaussian") == "gaussian";
    assert Lower("Cosine") == "cosine";
  }

  function RAbs(x: real): real { if x < 0.0 then -x else x }

  /** Distances the transform tests run on: 0, 1, 100, NaN and +inf. */
  const TestDistances: seq<Num> := [Fin(0.0), Fin(1.0), Fin(100.0), NaN, PosInf]

  /** The uniform transform is the indicator of `d <= scale`; NaN and +inf fall outside it. */
  lemma UniformIsIndicator(d: Num, scale: real)
    ensures UniformDecay(d, scale) == Fin(1.0) || UniformDecay(d, scale) == Fin(0.0)
    ensures UniformDecay(d, scale) == Fin(1.0) <==> (d.Fin? && d.v <= scale) || d.NegInf?
    ensures d.NaN? || d.PosInf? ==> UniformDecay(d, scale) == Fin(0.0)
  {
  }

  lemma UniformTestVector(m: Elementary)
    ensures WeighAll(Transform(Uniform, 2.0), m, TestDistances)
         == [Fin(1.0), Fin(1.0), Fin(0.0), Fin(0.0), Fin(0.0)]
  {
  }

  /** The Epanechnikov profile for a finite distance and a nonzero scale: 1 - (d / scale)^2,
      clamped at 0. */
  function ParabolicReal(x: real, scale: real): real
    requires scale != 0.0
  {
    SqPos(scale);
    RMax(1.0 - Sq(x) / Sq(scale), 0.0)
  }

  lemma QuotientSplit(a: real, b: real)
    requires a != 0.0
    ensures (a - b) / a == 1.0 - b / a
  {
    assert (b / a) * a == b;
    assert a - b == (1.0 - b / a) * a;
    DivideOut(1.0 - b / a, a, a - b);
  }

  lemma ParabolicFinite(x: real, scale: real)
    ensures scale != 0.0 ==> ParabolicDecay(Fin(x), scale) == Fin(ParabolicReal(x, scale))
    ensures scale == 0.0 ==> ParabolicDecay(Fin(x), scale) == (if x == 0.0 then NaN else Fin(0.0))
  {
    if scale != 0.0 {
      SqPos(scale);
      ParabolicShape(Sq(scale), Sq(x));
    } else if x != 0.0 {
      SqPos(x);
    }
  }

  /** The parabolic formula on the squares a = scale^2 > 0 and b = d^2. */
  lemma ParabolicShape(a: real, b: real)
    requires a > 0.0
    ensures Maximum(Div(Sub(Fin(a), Fin(b)), Fin(a)), Fin(0.0)) == Fin(RMax(1.0 - b / a, 0.0))
  {
    QuotientSplit(a, b);
  }

  /** `parabolic_decay` elementwise: NaN stays NaN, either infinity weighs 0, and a finite
      distance follows the profile. */
  lemma ParabolicClosedForm(d: Num, scale: real)
    ensures d.NaN? ==> ParabolicDecay(d, scale).NaN?
    ensures IsInf(d) ==> ParabolicDecay(d, scale) == Fin(0.0)
    ensures scale != 0.0 && d.Fin? ==> ParabolicDecay(d, scale) == Fin(ParabolicReal(d.v, scale))
    ensures scale == 0.0 && d.Fin? ==> ParabolicDecay(d, scale) == (if d.v == 0.0 then NaN else Fin(0.0))
  {
    if d.Fin? {
      ParabolicFinite(d.v, scale);
    } else if IsInf(d) {
      SqNonneg(scale);
      assert Sub(Square(Fin(scale)), Square(d)) == NegInf;
    }
  }

  lemma RatioBounds(a: real, b: real)
    requires a >= 0.0 && b > 0.0
    ensures a / b >= 0.0
    ensures a >= b ==> a / b >= 1.0
    ensures a < b ==> a / b < 1.0
  {
  }

  lemma SqOfAbs(x: real)
    ensures Sq(RAbs(x)) == Sq(x)
  {
    if x < 0.0 {
      SqNegate(x);
    }
  }

  /** For a nonzero scale the parabolic weight is a number in [0, 1] unless the distance is NaN,
      and it vanishes exactly from |d| >= |scale| on. */
  lemma ParabolicBounds(d: Num, scale: real)
    requires scale != 0.0
    ensures IsWeight(ParabolicDecay(d, scale))
    ensures !d.NaN? ==> ParabolicDecay(d, scale).Fin?
    ensures d.Fin? ==> (ParabolicDecay(d, scale) == Fin(0.0) <==> RAbs(d.v) >= RAbs(scale))
  {
    ParabolicClosedForm(d, scale);
    if d.Fin? {
      SqPos(scale);
      SqNonneg(d.v);
      SqOfAbs(d.v);
      SqOfAbs(scale);
      if RAbs(d.v) >= RAbs(scale) {
        SqMonotone(RAbs(d.v), RAbs(scale));
      } else {
        SqMonotone(RAbs(scale), RAbs(d.v));
      }
      RatioBounds(Sq(d.v), Sq(scale));
    }
  }

  lemma ScaledProfile(q: real, scale: real)
    requires scale != 0.0
    ensures ParabolicReal(q * scale, scale) == RMax(1.0 - Sq(q), 0.0)
  {
    SqPos(scale);
    SqScale(q, scale);
    DivideOut(Sq(q), Sq(scale), Sq(q * scale));
  }

  lemma DivideOut(c: real, a: real, x: real)
    requires a != 0.0 && x == c * a
    ensures x / a == c
  {
  }

  /** At a fraction q in [0, 1] of the scale the weight is 1 - q^2. */
  lemma ParabolicAtFraction(q: real, scale: real)
    requires scale != 0.0 && 0.0 <= q <= 1.0
    ensures ParabolicDecay(Fin(q * scale), scale) == Fin(1.0 - Sq(q))
  {
    ParabolicFinite(q * scale, scale);
    ScaledProfile(q, scale);
    SqMonotone(1.0, q);
  }

  /** Fractions of the scale at which the Epanechnikov kernel is tabulated, and its values there. */
  const SampleFractions: seq<real> := [0.0, 0.25, 0.5, 0.75, 1.0]
  const SampleWeights: seq<real> := [1.0, 0.9375, 0.75, 0.4375, 0.0]

  /** Each tabulated fraction lies in [0, 1] and its tabulated weight is one minus its square, so
      by `ParabolicAtFraction` the kernel takes the tabulated value there for every nonzero scale. */
  lemma ParabolicSamples()
    ensures |SampleFractions| == |SampleWeights|
    ensures forall i | 0 <= i < |SampleFractions| ::
      0.0 <= SampleFractions[i] <= 1.0 && 1.0 - Sq(SampleFractions[i]) == SampleWeights[i]
  {
    forall i | 0 <= i < |SampleFractions|
      ensures 0.0 <= SampleFractions[i] <= 1.0 && 1.0 - Sq(SampleFractions[i]) == SampleWeights[i]
    {
      if i == 0 {
      } else if i == 1 {
      } else if i == 2 {
      } else if i == 3 {
      } else {
        assert i == 4;
      }
    }
  }

  /** The kernel takes each tabulated value at the tabulated fraction of any nonzero scale. */
  lemma ParabolicOnTable(q: real, w: real, scale: real)
    requires scale != 0.0
    requires exists i | 0 <= i < |SampleFractions| :: SampleFractions[i] == q && SampleWeights[i] == w
    ensures ParabolicDecay(Fin(q * scale), scale) == Fin(w)
  {
    var i :| 0 <= i < |SampleFractions| && SampleFractions[i] == q && SampleWeights[i] == w;
    SampleEntry(i);
    TabulatedValue(q, w, scale);
  }

  lemma SampleEntry(i: nat)
    requires i < |SampleFractions|
    ensures i < |SampleWeights|
    ensures 0.0 <= SampleFractions[i] <= 1.0 && 1.0 - Sq(SampleFractions[i]) == SampleWeights[i]
  {
    ParabolicSamples();
  }

  lemma TabulatedValue(q: real, w: real, scale: real)
    requires scale != 0.0 && 0.0 <= q <= 1.0 && 1.0 - Sq(q) == w
    ensures ParabolicDecay(Fin(q * scale), scale) == Fin(w)
  {
    ParabolicAtFraction(q, scale);
  }

  /** The Gaussian profile for a finite distance and a nonzero sigma: exp(-d^2 / (2 sigma^2)). */
  function GaussianReal(x: real, sigma: real, m: Elementary): real
    requires sigma != 0.0
  {
    SqPos(sigma);
    m.exp(-(Sq(x) / (2.0 * Sq(sigma))))
  }

  lemma GaussianFinite(x: real, sigma: real, m: Elementary)
    ensures sigma != 0.0 ==> GaussianDecay(Fin(x), sigma, m) == Fin(GaussianReal(x, sigma, m))
    ensures sigma == 0.0 ==> GaussianDecay(Fin(x), sigma, m) == (if x == 0.0 then NaN else Fin(0.0))
  {
    if sigma != 0.0 {
      GaussianFiniteNonzero(x, sigma, m);
    } else {
      GaussianFiniteZero(x, m);
    }
  }

  lemma GaussianFiniteNonzero(x: real, sigma: real, m: Elementary)
    requires sigma != 0.0
    ensures GaussianDecay(Fin(x), sigma, m) == Fin(GaussianReal(x, sigma, m))
  {
    var b, c := Sq(x), 2.0 * Sq(sigma);
    TwiceSquare(sigma);
    SqPos(sigma);
    GaussianShape(b, c, m);
    assert GaussianReal(x, sigma, m) == m.exp(-(b / c));
  }

  /** With sigma 0 the exponent is -(d^2 / 0): NaN at distance 0 and -inf elsewhere. */
  lemma GaussianFiniteZero(x: real, m: Elementary)
    ensures GaussianDecay(Fin(x), 0.0, m) == (if x == 0.0 then NaN else Fin(0.0))
  {
    TwiceSquare(0.0);
    if x != 0.0 {
      SqPos(x);
    }
  }

  lemma TwiceSquare(sigma: real)
    ensures Mul(Fin(2.0), Square(Fin(sigma))) == Fin(2.0 * Sq(sigma))
  {
  }

  /** The Gaussian formula on b = d^2 and c = 2 sigma^2 > 0. */
  lemma GaussianShape(b: real, c: real, m: Elementary)
    requires c > 0.0
    ensures ExpOf(m, Neg(Div(Fin(b), Fin(c)))) == Fin(m.exp(-(b / c)))
  {
  }

  /** `gaussian_decay` elementwise: NaN stays NaN, either infinity weighs 0, and a finite
      distance follows the profile. */
  lemma GaussianClosedForm(d: Num, sigma: real, m: Elementary)
    ensures d.NaN? ==> GaussianDecay(d, sigma, m).NaN?
    ensures IsInf(d) ==> GaussianDecay(d, sigma, m) == Fin(0.0)
    ensures sigma != 0.0 && d.Fin? ==> GaussianDecay(d, sigma, m) == Fin(GaussianReal(d.v, sigma, m))
    ensures sigma == 0.0 && d.Fin? ==> GaussianDecay(d, sigma, m) == (if d.v == 0.0 then NaN else Fin(0.0))
  {
    if d.Fin? {
      GaussianFinite(d.v, sigma, m);
    } else if IsInf(d) {
      GaussianInfinite(d, sigma, m);
    }
  }

  /** An infinite distance has an infinite square, so the exponent is -inf and the weight 0. */
  lemma GaussianInfinite(d: Num, sigma: real, m: Elementary)
    requires IsInf(d)
    ensures GaussianDecay(d, sigma, m) == Fin(0.0)
  {
    SqNonneg(sigma);
    TwiceSquare(sigma);
    assert Square(d) == PosInf;
  }

  /** The Gaussian weight is 1 at distance 0 and lies in (0, 1] at every finite distance. */
  lemma GaussianAtZeroAndPositive(x: real, sigma: real, m: Elementary)
    requires Sound(m) && sigma != 0.0
    ensures GaussianDecay(Fin(0.0), sigma, m) == Fin(1.0)
    ensures 0.0 < GaussianReal(x, sigma, m) <= 1.0
  {
    GaussianFinite(0.0, sigma, m);
    SqPos(sigma);
    SqNonneg(x);
    RatioBounds(Sq(x), 2.0 * Sq(sigma));
  }

  /** The raised cosine for a finite distance and a positive scale, with the distance clamped. */
  function RaisedCosineReal(x: real, scale: real, m: Elementary): real
    requires scale > 0.0
  {
    (1.0 + m.cos(Angle(Clamp(x, scale), scale, m.pi))) / 2.0
  }

  /** The cosine's argument: a clamped distance as a fraction of the scale, times pi. */
  function Angle(c: real, scale: real, pi: real): real
    requires scale > 0.0
  {
    c / scale * pi
  }

  /** x clamped into [0, scale]. */
  function Clamp(x: real, scale: real): real
  {
    if x < 0.0 then 0.0 else if x > scale then scale else x
  }

  lemma RaisedCosineFinite(x: real, scale: real, m: Elementary)
    requires scale > 0.0
    ensures RaisedCosineDecay(Fin(x), scale, m) == Fin(RaisedCosineReal(x, scale, m))
  {
    var c := Clamp(x, scale);
    assert Clip(Fin(x), Fin(0.0), Fin(scale)) == Fin(c);
    assert Mul(Div(Fin(c), Fin(scale)), Fin(m.pi)) == Fin(Angle(c, scale, m.pi));
  }

  /** At a fraction q in [0, 1] of a positive scale the raised cosine is (1 + cos(q pi)) / 2. */
  lemma RaisedCosineAtFraction(q: real, scale: real, m: Elementary)
    requires scale > 0.0 && 0.0 <= q <= 1.0
    ensures RaisedCosineDecay(Fin(q * scale), scale, m) == Fin((1.0 + m.cos(q * m.pi)) / 2.0)
  {
    RaisedCosineFinite(q * scale, scale, m);
    assert Clamp(q * scale, scale) == q * scale by {
      MulNonneg(q, scale);
      MulNonneg(1.0 - q, scale);
    }
    DivideOut(q, scale, q * scale);
    assert Angle(q * scale, scale, m.pi) == q * m.pi;
  }

  /** `raised_cosine_decay` elementwise: NaN stays NaN, and so does everything when the scale
      is 0 (0 / 0); the clamped distance fixes the weight otherwise. */
  lemma RaisedCosineClosedForm(d: Num, scale: real, m: Elementary)
    ensures d.NaN? ==> RaisedCosineDecay(d, scale, m).NaN?
    ensures scale == 0.0 ==> RaisedCosineDecay(d, scale, m).NaN?
    ensures scale > 0.0 && d.Fin? ==> RaisedCosineDecay(d, scale, m) == Fin(RaisedCosineReal(d.v, scale, m))
  {
    if scale == 0.0 {
      var clipped := Clip(d, Fin(0.0), Fin(scale));
      assert clipped == Fin(0.0) || clipped == NaN;
    }
    if scale > 0.0 && d.Fin? {
      RaisedCosineFinite(d.v, scale, m);
    }
  }

  /** The raised cosine sees only the distance clipped into [0, scale]: anything at or beyond
      the scale weighs what the scale does, anything at or below 0 weighs what 0 does. */
  lemma RaisedCosineSaturates(d: Num, scale: real, m: Elementary)
    ensures Le(Fin(scale), d) ==> RaisedCosineDecay(d, scale, m) == RaisedCosineDecay(Fin(scale), scale, m)
    ensures Le(d, Fin(0.0)) ==> RaisedCosineDecay(d, scale, m) == RaisedCosineDecay(Fin(0.0), scale, m)
  {
    if Le(Fin(scale), d) {
      assert Clip(d, Fin(0.0), Fin(scale)) == Clip(Fin(scale), Fin(0.0), Fin(scale));
    }
    if Le(d, Fin(0.0)) {
      assert Clip(d, Fin(0.0), Fin(scale)) == Clip(Fin(0.0), Fin(0.0), Fin(scale));
    }
  }

  /** With a positive scale the raised cosine is 1 at distance 0, 1/2 at half the scale and 0
      from the scale on. */
  lemma RaisedCosineLandmarks(scale: real, m: Elementary)
    requires Sound(m) && scale > 0.0
    ensures RaisedCosineDecay(Fin(0.0), scale, m) == Fin(1.0)
    ensures RaisedCosineDecay(Fin(0.5 * scale), scale, m) == Fin(0.5)
    ensures RaisedCosineDecay(Fin(scale), scale, m) == Fin(0.0)
  {
    RaisedCosineAtZero(scale, m);
    RaisedCosineAtHalf(scale, m);
    RaisedCosineAtScale(scale, m);
  }

  lemma RaisedCosineAtZero(scale: real, m: Elementary)
    requires Sound(m) && scale > 0.0
    ensures RaisedCosineDecay(Fin(0.0), scale, m) == Fin(1.0)
  {
    RaisedCosineAt(0.0, scale, 0.0, 0.0, m);
  }

  lemma RaisedCosineAtHalf(scale: real, m: Elementary)
    requires Sound(m) && scale > 0.0
    ensures RaisedCosineDecay(Fin(0.5 * scale), scale, m) == Fin(0.5)
  {
    RaisedCosineAt(0.5, scale, 0.5 * scale, 0.5 * m.pi, m);
  }

  lemma RaisedCosineAtScale(scale: real, m: Elementary)
    requires Sound(m) && scale > 0.0
    ensures RaisedCosineDecay(Fin(scale), scale, m) == Fin(0.0)
  {
    RaisedCosineAt(1.0, scale, scale, m.pi, m);
  }

  /** The fraction q of the scale, as a distance x and as an angle a. */
  lemma RaisedCosineAt(q: real, scale: real, x: real, a: real, m: Elementary)
    requires scale > 0.0 && 0.0 <= q <= 1.0 && x == q * scale && a == q * m.pi
    ensures RaisedCosineDecay(Fin(x), scale, m) == Fin((1.0 + m.cos(a)) / 2.0)
  {
    RaisedCosineAtFraction(q, scale, m);
  }

  /** With a negative scale the clip pins every non-NaN distance to the scale itself, so the
      raised cosine weighs everything 0. */
  lemma RaisedCosineNegativeScale(d: Num, scale: real, m: Elementary)
    requires Sound(m) && scale < 0.0 && !d.NaN?
    ensures RaisedCosineDecay(d, scale, m) == Fin(0.0)
  {
    assert Clip(d, Fin(0.0), Fin(scale)) == Fin(scale);
    DivideOut(1.0, scale, scale);
    assert Mul(Fin(1.0), Fin(m.pi)) == Fin(m.pi);
  }

  /** Every transform yields a weight in [0, 1] or NaN; with a nonzero parameter only a NaN
      distance can give NaN, and +inf weighs 0. Only the uniform transform turns NaN into a number. */
  lemma WeightsInUnitInterval(t: Transform, m: Elementary, d: Num)
    requires Sound(m)
    ensures IsWeight(Weigh(t, m, d))
    ensures t.param != 0.0 && !d.NaN? ==> Weigh(t, m, d).Fin?
    ensures t.param != 0.0 && d.PosInf? ==> Weigh(t, m, d) == Fin(0.0)
    ensures d.NaN? ==> (Weigh(t, m, d).NaN? <==> t.kernel != Uniform)
  {
    var s := t.param;
    match t.kernel
    case Uniform =>
    case Parabolic =>
      ParabolicClosedForm(d, s);
      if s != 0.0 {
        ParabolicBounds(d, s);
      }
    case Gaussian =>
      GaussianClosedForm(d, s, m);
      if s != 0.0 && d.Fin? {
        GaussianAtZeroAndPositive(d.v, s, m);
      }
    case RaisedCosine =>
      RaisedCosineBounds(d, s, m);
  }

  lemma RaisedCosineBounds(d: Num, scale: real, m: Elementary)
    requires Sound(m)
    ensures IsWeight(RaisedCosineDecay(d, scale, m))
    ensures scale != 0.0 && !d.NaN? ==> RaisedCosineDecay(d, scale, m).Fin?
    ensures scale != 0.0 && d.PosInf? ==> RaisedCosineDecay(d, scale, m) == Fin(0.0)
    ensures d.NaN? ==> RaisedCosineDecay(d, scale, m).NaN?
  {
    RaisedCosineClosedForm(d, scale, m);
    if scale < 0.0 && !d.NaN? {
      RaisedCosineNegativeScale(d, scale, m);
    } else if scale > 0.0 && d.Fin? {
      var c := m.cos(Angle(Clamp(d.v, scale), scale, m.pi));
      assert -1.0 <= c <= 1.0;
    } else if scale > 0.0 && IsInf(d) {
      RaisedCosineSaturates(d, scale, m);
      RaisedCosineLandmarks(scale, m);
    }
  }

  lemma DivMonotone(a: real, b: real, c: real)
    requires a <= b && c > 0.0
    ensures a / c <= b / c
  {
  }

  lemma MulMonotone(a: real, b: real, p: real)
    requires a <= b && p >= 0.0
    ensures a * p <= b * p
  {
    MulNonneg(b - a, p);
  }

  /** A farther clamped distance has a larger angle, and every angle lies in [0, pi]. */
  lemma AngleOrdered(c1: real, c2: real, scale: real, pi: real)
    requires 0.0 <= c1 <= c2 <= scale && scale > 0.0 && pi > 0.0
    ensures 0.0 <= Angle(c1, scale, pi) <= Angle(c2, scale, pi) <= pi
  {
    DivMonotone(0.0, c1, scale);
    DivMonotone(c1, c2, scale);
    DivMonotone(c2, scale, scale);
    DivideOut(1.0, scale, scale);
    MulMonotone(0.0, c1 / scale, pi);
    MulMonotone(c1 / scale, c2 / scale, pi);
    MulMonotone(c2 / scale, 1.0, pi);
  }

  /** Distance decay: for a positive parameter, a farther finite distance never weighs more. */
  lemma DecayNonincreasing(t: Transform, m: Elementary, x: real, y: real)
    requires Sound(m) && t.param > 0.0 && 0.0 <= x <= y
    ensures Weigh(t, m, Fin(x)).Fin? && Weigh(t, m, Fin(y)).Fin?
    ensures Weigh(t, m, Fin(y)).v <= Weigh(t, m, Fin(x)).v
  {
    match t.kernel
    case Uniform =>
    case Parabolic => ParabolicNonincreasing(t.param, x, y);
    case Gaussian => GaussianNonincreasing(t.param, m, x, y);
    case RaisedCosine => RaisedCosineNonincreasing(t.param, m, x, y);
  }

  lemma ParabolicNonincreasing(s: real, x: real, y: real)
    requires s > 0.0 && 0.0 <= x <= y
    ensures ParabolicDecay(Fin(x), s).Fin? && ParabolicDecay(Fin(y), s).Fin?
    ensures ParabolicDecay(Fin(y), s).v <= ParabolicDecay(Fin(x), s).v
  {
    ParabolicFinite(x, s);
    ParabolicFinite(y, s);
    SqPos(s);
    SqMonotone(y, x);
    DivMonotone(Sq(x), Sq(y), Sq(s));
  }

  lemma GaussianNonincreasing(s: real, m: Elementary, x: real, y: real)
    requires Sound(m) && s > 0.0 && 0.0 <= x <= y
    ensures GaussianDecay(Fin(x), s, m).Fin? && GaussianDecay(Fin(y), s, m).Fin?
    ensures GaussianDecay(Fin(y), s, m).v <= GaussianDecay(Fin(x), s, m).v
  {
    GaussianFinite(x, s, m);
    GaussianFinite(y, s, m);
    SqPos(s);
    SqMonotone(y, x);
    DivMonotone(Sq(x), Sq(y), 2.0 * Sq(s));
  }

  lemma RaisedCosineNonincreasing(s: real, m: Elementary, x: real, y: real)
    requires Sound(m) && s > 0.0 && 0.0 <= x <= y
    ensures RaisedCosineDecay(Fin(x), s, m).Fin? && RaisedCosineDecay(Fin(y), s, m).Fin?
    ensures RaisedCosineDecay(Fin(y), s, m).v <= RaisedCosineDecay(Fin(x), s, m).v
  {
    RaisedCosineFinite(x, s, m);
    RaisedCosineFinite(y, s, m);
    AngleOrdered(Clamp(x, s), Clamp(y, s), s, m.pi);
  }

  lemma RaisedCosineTestVector(m: Elementary)
    requires Sound(m)
    ensures WeighAll(Transform(RaisedCosine, 2.0), m, TestDistances)
         == [Fin(1.0), Fin(0.5), Fin(0.0), NaN, Fin(0.0)]
  {
    RaisedCosineLandmarks(2.0, m);
    assert 0.5 * 2.0 == 1.0;
    RaisedCosineBounds(PosInf, 2.0, m);
    RaisedCosineSaturates(Fin(100.0), 2.0, m);
  }

  /** The parabolic transform with scale 2 on the test distances: 1, 0.75, 0, NaN and 0. */
  lemma ParabolicTestVector(m: Elementary, t: Transform, ds: seq<Num>)
    requires t == Transform(Parabolic, 2.0) && ds == TestDistances
    ensures var r := WeighAll(t, m, ds);
      r[0] == Fin(1.0) && r[1] == Fin(0.75) && r[2] == Fin(0.0) && r[3].NaN? && r[4] == Fin(0.0)
  {
    ParabolicTestInside(m, t, ds);
    ParabolicTestOutside(m, t, ds);
  }

  /** The test distances within the scale follow the profile 1 - (d / 2)^2. */
  lemma ParabolicTestInside(m: Elementary, t: Transform, ds: seq<Num>)
    requires t == Transform(Parabolic, 2.0) && ds == TestDistances
    ensures WeighAll(t, m, ds)[0] == Fin(1.0) && WeighAll(t, m, ds)[1] == Fin(0.75)
  {
    ParabolicTestAt(m, t, ds, 0, 0.0, 1.0);
    ParabolicTestAt(m, t, ds, 1, 0.5, 0.75);
  }

  /** One of the first two test distances, 0 and 1, as the fraction q of the scale 2. */
  lemma ParabolicTestAt(m: Elementary, t: Transform, ds: seq<Num>, k: nat, q: real, w: real)
    requires t == Transform(Parabolic, 2.0) && ds == TestDistances
    requires k < 2 && q == [0.0, 0.5][k] && w == [1.0, 0.75][k]
    ensures WeighAll(t, m, ds)[k] == Fin(w)
  {
    WeighOnProfile(m, t, ds, k, q, w);
  }

  /** A parabolic weight at the fraction q of the scale, read through the broadcast. */
  lemma WeighOnProfile(m: Elementary, t: Transform, ds: seq<Num>, k: nat, q: real, w: real)
    requires t.kernel == Parabolic && t.param != 0.0 && k < |ds|
    requires ds[k] == Fin(q * t.param) && 0.0 <= q <= 1.0 && 1.0 - Sq(q) == w
    ensures WeighAll(t, m, ds)[k] == Fin(w)
  {
    TabulatedValue(q, w, t.param);
  }

  /** Beyond the scale the weight is 0, and NaN stays NaN. */
  lemma ParabolicTestOutside(m: Elementary, t: Transform, ds: seq<Num>)
    requires t == Transform(Parabolic, 2.0) && ds == TestDistances
    ensures WeighAll(t, m, ds)[2] == Fin(0.0) && WeighAll(t, m, ds)[3].NaN? && WeighAll(t, m, ds)[4] == Fin(0.0)
  {
    ParabolicBounds(ds[2], t.param);
    ParabolicClosedForm(ds[3], t.param);
    ParabolicClosedForm(ds[4], t.param);
  }

  /** The Gaussian transform with sigma 2 on the test distances: 1 at distance 0, NaN for NaN and
      0 for +inf. */
  lemma GaussianTestVector(m: Elementary)
    requires Sound(m)
    ensures var r := WeighAll(Transform(Gaussian, 2.0), m, TestDistances);
      r[0] == Fin(1.0) && r[3].NaN? && r[4] == Fin(0.0)
  {
    GaussianAtZeroAndPositive(0.0, 2.0, m);
    GaussianClosedForm(NaN, 2.0, m);
    GaussianClosedForm(PosInf, 2.0, m);
  }
}
