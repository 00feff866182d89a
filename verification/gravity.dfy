/** The gravity engine of `aceso/gravity.py`: building a model from a transform choice and its
    parameters, the two floating-catchment stages (demand potentials per supply column, then
    accessibility scores per demand row), and the Huff-like interaction probabilities. */
module Gravity {
  import opened Numeric
  import opened Outcome
  import opened Decay
  import opened Binding

  /** The `decay_function` argument: a catalogue name, or one of the catalogue's functions. */
  datatype Choice = ByName(name: string) | ByKernel(kernel: Kernel)

  datatype ConfigError = UnknownTransform(key: string) | MissingParameters(names: set<string>)

  /** A configured model: the bound transform, whether Huff normalisation is on, and the
      suboptimality exponent. */
  datatype Engine = Engine(transform: Transform, huff: bool, exponent: nat)

  /** A constructed engine with the parameter names a warning was raised for. */
  datatype Built = Built(engine: Engine, warnings: seq<string>)

  function Resolve(choice: Choice): Result<Kernel, string>
  {
    match choice
    case ByName(name) => LookupTransform(name)
    case ByKernel(k) => Ok(k)
  }

  /** `GravityModel.__init__`: resolve the transform, then bind its parameter. An unknown name
      fails first; a missing parameter fails next; otherwise the extra names are reported.
      The binding step is the corrected `Bind`, not `BindAsWritten`: the source also binds a
      `distance_array` entry of `decay_params`, which makes every later call of the transform
      fail (`LeadingArgumentBoundAsWritten`); the two agree whenever that name is not supplied
      (`BindersAgreeWithoutDistance`). */
  function NewEngine(choice: Choice, ps: Params, huff: bool, exponent: nat): (r: Result<Built, ConfigError>)
    requires DistinctNames(ps)
    ensures r.Ok? <==> Resolve(choice).Ok? && ParamName(Resolve(choice).value) in Names(ps)
    ensures Resolve(choice).Err? ==> r == Err(UnknownTransform(Resolve(choice).error))
    ensures Resolve(choice).Ok? && r.Err? ==> r.error == ConfigError.MissingParameters({ParamName(Resolve(choice).value)})
    ensures r.Ok? ==>
      var k := Resolve(choice).value;
      && r.value.engine.transform.kernel == k
      && (exists i | 0 <= i < |ps| :: ps[i] == (ParamName(k), r.value.engine.transform.param))
      && r.value.engine.huff == huff
      && r.value.engine.exponent == exponent
      && (forall n :: n in r.value.warnings <==> n in Names(ps) && n != ParamName(k))
  {
    match Resolve(choice)
    case Err(key) => Err(UnknownTransform(key))
    case Ok(k) =>
      match Bind(k, ps)
      case Err(e) => Err(ConfigError.MissingParameters(e.names))
      case Ok(b) => Ok(Built(Engine(Transform(k, b.args[ParamName(k)]), huff, exponent), b.warnings))
  }

  /** `TwoStepFCA(radius)`: the uniform transform with `scale = radius`, no Huff step, exponent 1. */
  function TwoStepFCA(radius: real): (r: Result<Built, ConfigError>)
    ensures r == Ok(Built(Engine(Transform(Uniform, radius), false, 1), []))
  {
    var ps: Params := [("scale", radius)];
    assert Names(ps) == ["scale"];
    assert Lower("uniform") == "uniform";
    NewEngine(ByName("uniform"), ps, false, 1)
  }

  /** `ThreeStepFCA(decay_function, decay_params)`: the general engine with Huff forced on. */
  function ThreeStepFCA(choice: Choice, ps: Params): (r: Result<Built, ConfigError>)
    requires DistinctNames(ps)
    ensures r.Ok? <==> NewEngine(choice, ps, false, 1).Ok?
    ensures r.Ok? ==> r.value.engine.huff
    ensures r.Ok? ==> r.value.engine.(huff := false) == NewEngine(choice, ps, false, 1).value.engine
    ensures r.Ok? ==> r.value.warnings == NewEngine(choice, ps, false, 1).value.warnings
  {
    NewEngine(choice, ps, true, 1)
  }

  /** A distance matrix: row i holds the distances from demand point i to every supply point. */
  type Matrix = seq<seq<Num>>

  /** Every row has `cols` entries; the column count is explicit so that a matrix without rows
      still has a width, as a numpy array of shape (0, cols) does. */
  predicate Rect(D: Matrix, cols: nat)
  {
    forall i | 0 <= i < |D| :: |D[i]| == cols
  }

  /** A distance as the Huff step expects it: nonnegative, +inf or NaN. */
  predicate DistanceLike(d: Num) { d.NaN? || d.PosInf? || (d.Fin? && d.v >= 0.0) }

  /** The Huff weight of one distance: `d ** -1`, with the infinite weight of a zero distance
      replaced by 10^8. */
  function HuffWeight(d: Num): (r: Num)
    ensures DistanceLike(d) ==> Nonneg(r)
    ensures d.Fin? && d.v > 0.0 ==> r == Fin(1.0 / d.v)
    ensures d == Fin(0.0) ==> r == Fin(100000000.0)
    ensures d.PosInf? ==> r == Fin(0.0)
    ensures d.NaN? ==> r.NaN?
  {
    var w := Recip(d);
    if IsInf(w) then Fin(100000000.0) else w
  }

  function HuffWeights(row: seq<Num>): (r: seq<Num>)
    ensures |r| == |row|
    ensures forall j | 0 <= j < |row| :: r[j] == HuffWeight(row[j])
  {
    seq(|row|, j requires 0 <= j < |row| => HuffWeight(row[j]))
  }

  /** One row of `_calculate_interaction_probabilities`: the weights divided by their
      NaN-skipping sum. */
  function HuffRow(row: seq<Num>): (r: seq<Num>)
    ensures |r| == |row|
  {
    var w := HuffWeights(row);
    var t := NanSum(w);
    seq(|row|, j requires 0 <= j < |row| => Div(w[j], t))
  }

  /** The decay weight of entry (i, j), optionally multiplied by demand or supply terms below. */
  function W(e: Engine, m: Elementary, D: Matrix, i: nat, j: nat): Num
    requires i < |D| && j < |D[i]|
  {
    Weigh(e.transform, m, D[i][j])
  }

  /** Entry (i, j) of the demand matrix: `demand[i] * decay(d[i][j])`, times the interaction
      probability when the Huff step is on. */
  function DemandEntry(e: Engine, m: Elementary, D: Matrix, demand: seq<Num>, i: nat, j: nat): Num
    requires i < |D| && j < |D[i]| && |demand| == |D|
  {
    var c := Mul(demand[i], W(e, m, D, i, j));
    if e.huff then Mul(c, HuffRow(D[i])[j]) else c
  }

  function DemandColumn(e: Engine, m: Elementary, D: Matrix, cols: nat, demand: seq<Num>, j: nat): (r: seq<Num>)
    requires Rect(D, cols) && j < cols && |demand| == |D|
    ensures |r| == |D|
    ensures forall i | 0 <= i < |D| :: r[i] == DemandEntry(e, m, D, demand, i, j)
  {
    seq(|D|, i requires 0 <= i < |D| => DemandEntry(e, m, D, demand, i, j))
  }

  /** `_calculate_demand_potentials`: the NaN-skipping column sums of the demand matrix. */
  function Potentials(e: Engine, m: Elementary, D: Matrix, cols: nat, demand: seq<Num>): (r: seq<Num>)
    requires Rect(D, cols) && |demand| == |D|
    ensures |r| == cols
    ensures forall j | 0 <= j < cols :: r[j] == NanSum(DemandColumn(e, m, D, cols, demand, j))
  {
    seq(cols, j requires 0 <= j < cols => NanSum(DemandColumn(e, m, D, cols, demand, j)))
  }

  /** `np.reciprocal` followed by replacing infinities with 0: a zero potential gives 0. */
  function InverseOf(p: Num): (r: Num)
    ensures p == Fin(0.0) ==> r == Fin(0.0)
    ensures p.Fin? && p.v != 0.0 ==> r == Fin(1.0 / p.v)
    ensures IsInf(p) ==> r == Fin(0.0)
    ensures p.NaN? ==> r.NaN?
    ensures !IsInf(r)
  {
    var r := Recip(p);
    if IsInf(r) then Fin(0.0) else r
  }

  function Inverses(p: seq<Num>): (r: seq<Num>)
    ensures |r| == |p|
    ensures forall j | 0 <= j < |p| :: r[j] == InverseOf(p[j])
  {
    seq(|p|, j requires 0 <= j < |p| => InverseOf(p[j]))
  }

  /** Entry (i, j) of the access-ratio matrix: `supply[j] * inverse[j] * decay(d[i][j]) ** exponent`,
      times the interaction probability when the Huff step is on. */
  function AccessEntry(e: Engine, m: Elementary, D: Matrix, supply: seq<Num>, inv: seq<Num>, i: nat, j: nat): Num
    requires i < |D| && j < |D[i]| && |supply| == |D[i]| && |inv| == |D[i]|
  {
    var a := Mul(Mul(supply[j], inv[j]), Pow(W(e, m, D, i, j), e.exponent));
    if e.huff then Mul(a, HuffRow(D[i])[j]) else a
  }

  function AccessRow(e: Engine, m: Elementary, D: Matrix, cols: nat, supply: seq<Num>, inv: seq<Num>, i: nat): (r: seq<Num>)
    requires Rect(D, cols) && i < |D| && |supply| == cols && |inv| == cols
    ensures |r| == cols
    ensures forall j | 0 <= j < cols :: r[j] == AccessEntry(e, m, D, supply, inv, i, j)
  {
    seq(cols, j requires 0 <= j < cols => AccessEntry(e, m, D, supply, inv, i, j))
  }

  /** The second stage: the NaN-skipping row sums of the access-ratio matrix. */
  function Scores(e: Engine, m: Elementary, D: Matrix, cols: nat, demand: seq<Num>, supply: seq<Num>): (r: seq<Num>)
    requires Rect(D, cols) && |demand| == |D| && |supply| == cols
    ensures |r| == |D|
    ensures forall i | 0 <= i < |D| ::
      r[i] == NanSum(AccessRow(e, m, D, cols, supply, Inverses(Potentials(e, m, D, cols, demand)), i))
  {
    var inv := Inverses(Potentials(e, m, D, cols, demand));
    seq(|D|, i requires 0 <= i < |D| => NanSum(AccessRow(e, m, D, cols, supply, inv, i)))
  }

  function Ones(n: nat): (r: seq<Num>)
    ensures |r| == n && forall k | 0 <= k < n :: r[k] == Fin(1.0)
  {
    seq(n, k requires 0 <= k < n => Fin(1.0))
  }

  function OrOnes(v: Option<seq<Num>>, n: nat): seq<Num>
  {
    if v.Some? then v.value else Ones(n)
  }

  /** `calculate_accessibility_scores`: an absent demand or supply vector is all ones. */
  function CalculateAccessibilityScores(
    e: Engine, m: Elementary, D: Matrix, cols: nat, demand: Option<seq<Num>>, supply: Option<seq<Num>>
  ): (r: seq<Num>)
    requires Rect(D, cols)
    requires demand.Some? ==> |demand.value| == |D|
    requires supply.Some? ==> |supply.value| == cols
    ensures |r| == |D|
  {
    Scores(e, m, D, cols, OrOnes(demand, |D|), OrOnes(supply, cols))
  }
}
