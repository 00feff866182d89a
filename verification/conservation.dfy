/** Supply conservation of the two-step floating catchment: with no Huff step and no NaN
    distance, the demand-weighted total of the accessibility scores is the total supply of the
    columns some demand reaches. A higher exponent can only lower that total.

    The argument is made first over plain real matrices and then carried over to the engine. */
module Conservation {
  import opened Numeric
  import opened Decay
  import opened Sums
  import opened Gravity
  import opened Accessibility

  // ---- The identity over real matrices -------------------------------------------------

  /** Demand d, supply s and a weight matrix w with entries in [0, 1]. */
  predicate RealSetting(d: seq<real>, s: seq<real>, w: seq<seq<real>>, cols: nat)
  {
    && IsRect(w, cols) && |d| == |w| && |s| == cols
    && (forall i | 0 <= i < |d| :: d[i] >= 0.0)
    && (forall j | 0 <= j < |s| :: s[j] >= 0.0)
    && (forall i, j | 0 <= i < |w| && 0 <= j < cols :: 0.0 <= w[i][j] <= 1.0)
  }

  /** The potential of column j: `sum_i d[i] * w[i][j]`. */
  function ColumnTotal(d: seq<real>, w: seq<seq<real>>, cols: nat, j: nat): real
    requires IsRect(w, cols) && |d| == |w| && j < cols
  {
    Sum(seq(|w|, i requires 0 <= i < |w| => d[i] * w[i][j]))
  }

  /** The inverse of a potential with 0 for 0, as `InverseOf` computes it on finite values. */
  function Ir(p: real): real
  {
    if p == 0.0 then 0.0 else 1.0 / p
  }

  /** `supply[j] * inverse[j]`. */
  function Coef(d: seq<real>, s: seq<real>, w: seq<seq<real>>, cols: nat, j: nat): real
    requires IsRect(w, cols) && |d| == |w| && |s| == cols && j < cols
  {
    s[j] * Ir(ColumnTotal(d, w, cols, j))
  }

  /** One access ratio: `supply * inverse * weight^n`. */
  function Term(a: real, b: real, c: real, n: nat): real
  {
    a * b * RPow(c, n)
  }

  /** Row i of the access-ratio matrix. */
  function ScoreTerms(d: seq<real>, s: seq<real>, w: seq<seq<real>>, cols: nat, n: nat, i: nat): (r: seq<real>)
    requires IsRect(w, cols) && |d| == |w| && |s| == cols && i < |w|
    ensures |r| == cols
    ensures forall j | 0 <= j < cols :: r[j] == Term(s[j], Ir(ColumnTotal(d, w, cols, j)), w[i][j], n)
  {
    seq(cols, j requires 0 <= j < cols => Term(s[j], Ir(ColumnTotal(d, w, cols, j)), w[i][j], n))
  }

  /** The score of row i: `sum_j supply[j] * inverse[j] * w[i][j]^n`. */
  function RowScore(d: seq<real>, s: seq<real>, w: seq<seq<real>>, cols: nat, n: nat, i: nat): real
    requires IsRect(w, cols) && |d| == |w| && |s| == cols && i < |w|
  {
    Sum(ScoreTerms(d, s, w, cols, n, i))
  }

  /** All row scores. */
  function RealScores(d: seq<real>, s: seq<real>, w: seq<seq<real>>, cols: nat, n: nat): (r: seq<real>)
    requires IsRect(w, cols) && |d| == |w| && |s| == cols
    ensures |r| == |w|
  {
    seq(|w|, i requires 0 <= i < |w| => RowScore(d, s, w, cols, n, i))
  }

  /** `sum_i d[i] * score[i]`. */
  function RealTotal(d: seq<real>, s: seq<real>, w: seq<seq<real>>, cols: nat, n: nat): real
    requires IsRect(w, cols) && |d| == |w| && |s| == cols
  {
    Dot(d, RealScores(d, s, w, cols, n))
  }

  /** The supply of the columns whose potential is not zero. */
  function RealReached(d: seq<real>, s: seq<real>, w: seq<seq<real>>, cols: nat): real
    requires IsRect(w, cols) && |d| == |w| && |s| == cols
  {
    Sum(seq(cols, j requires 0 <= j < cols => if ColumnTotal(d, w, cols, j) == 0.0 then 0.0 else s[j]))
  }

  lemma ColumnTotalNonneg(d: seq<real>, s: seq<real>, w: seq<seq<real>>, cols: nat, j: nat)
    requires RealSetting(d, s, w, cols) && j < cols
    ensures ColumnTotal(d, w, cols, j) >= 0.0
  {
    var c := seq(|w|, i requires 0 <= i < |w| => d[i] * w[i][j]);
    forall i | 0 <= i < |w| ensures c[i] >= 0.0 {
      MulNonneg(d[i], w[i][j]);
    }
    SumNonneg(c);
  }

  lemma IrNonneg(q: real)
    requires q >= 0.0
    ensures Ir(q) >= 0.0
  {
    if q != 0.0 {
      RatioBounds(1.0, q);
    }
  }

  lemma CoefNonneg(d: seq<real>, s: seq<real>, w: seq<seq<real>>, cols: nat, j: nat)
    requires RealSetting(d, s, w, cols) && j < cols
    ensures Coef(d, s, w, cols, j) >= 0.0
  {
    ColumnTotalNonneg(d, s, w, cols, j);
    IrNonneg(ColumnTotal(d, w, cols, j));
    MulNonneg(s[j], Ir(ColumnTotal(d, w, cols, j)));
  }

  lemma CancelInverse(s: real, p: real)
    ensures s * Ir(p) * p == if p == 0.0 then 0.0 else s
  {
    if p != 0.0 {
      DivideOut(1.0, p, p);
      assert Ir(p) * p == 1.0;
    }
  }

  lemma EntryBound(d: real, a: real, b: real, w: real, n: nat)
    requires d >= 0.0 && a * b >= 0.0 && 0.0 <= w <= 1.0 && n >= 1
    ensures d * Term(a, b, w, n) <= d * Term(a, b, w, 1)
  {
    RPowOfUnit(w, n);
    assert RPow(w, 1) == w;
    MulMonotone(RPow(w, n), w, a * b);
    assert Term(a, b, w, n) <= Term(a, b, w, 1);
    MulMonotone(Term(a, b, w, n), Term(a, b, w, 1), d);
  }

  lemma Rearrange(d: real, c: real, w: real)
    ensures d * (c * w) == c * (d * w)
  {
  }

  /** Entry (i, j) of the demand-weighted access matrix. */
  function Weighted(d: seq<real>, s: seq<real>, w: seq<seq<real>>, cols: nat, n: nat): (r: seq<seq<real>>)
    requires IsRect(w, cols) && |d| == |w| && |s| == cols
    ensures |r| == |w| && IsRect(r, cols)
    ensures forall i, j | 0 <= i < |w| && 0 <= j < cols :: r[i][j] == d[i] * ScoreTerms(d, s, w, cols, n, i)[j]
  {
    seq(|w|, i requires 0 <= i < |w| =>
      seq(cols, j requires 0 <= j < cols => d[i] * ScoreTerms(d, s, w, cols, n, i)[j]))
  }

  lemma TotalByRows(d: seq<real>, s: seq<real>, w: seq<seq<real>>, cols: nat, n: nat)
    requires IsRect(w, cols) && |d| == |w| && |s| == cols
    ensures RealTotal(d, s, w, cols, n) == Sum(RowSums(Weighted(d, s, w, cols, n)))
  {
    var A := Weighted(d, s, w, cols, n);
    var sc := RealScores(d, s, w, cols, n);
    var lhs := seq(|w|, i requires 0 <= i < |w| => d[i] * sc[i]);
    forall i | 0 <= i < |w| ensures lhs[i] == RowSums(A)[i] {
      WeightedRow(d, s, w, cols, n, i, A);
    }
    SumSameEntries(lhs, RowSums(A));
  }

  /** Row i of the weighted matrix sums to `d[i]` times the score of row i. */
  lemma WeightedRow(d: seq<real>, s: seq<real>, w: seq<seq<real>>, cols: nat, n: nat, i: nat, A: seq<seq<real>>)
    requires IsRect(w, cols) && |d| == |w| && |s| == cols && i < |w|
    requires A == Weighted(d, s, w, cols, n)
    ensures d[i] * RealScores(d, s, w, cols, n)[i] == RowSums(A)[i]
  {
    SumScaled(d[i], ScoreTerms(d, s, w, cols, n, i), A[i]);
  }

  lemma RowsBelowLinear(d: seq<real>, s: seq<real>, w: seq<seq<real>>, cols: nat, n: nat)
    requires RealSetting(d, s, w, cols) && n >= 1
    ensures Sum(RowSums(Weighted(d, s, w, cols, n))) <= Sum(RowSums(Weighted(d, s, w, cols, 1)))
    ensures n == 1 ==> Sum(RowSums(Weighted(d, s, w, cols, n))) == Sum(RowSums(Weighted(d, s, w, cols, 1)))
  {
    var A := Weighted(d, s, w, cols, n);
    var B := Weighted(d, s, w, cols, 1);
    forall i | 0 <= i < |w|
      ensures RowSums(A)[i] <= RowSums(B)[i]
    {
      forall j | 0 <= j < cols ensures A[i][j] <= B[i][j] {
        var q := Ir(ColumnTotal(d, w, cols, j));
        CoefNonneg(d, s, w, cols, j);
        assert s[j] * q >= 0.0;
        EntryBound(d[i], s[j], q, w[i][j], n);
        assert A[i][j] == d[i] * Term(s[j], q, w[i][j], n);
        assert B[i][j] == d[i] * Term(s[j], q, w[i][j], 1);
      }
      SumMonotone(A[i], B[i]);
    }
    SumMonotone(RowSums(A), RowSums(B));
  }

  lemma LinearEntry(d: real, a: real, b: real, w: real)
    ensures d * Term(a, b, w, 1) == a * b * (d * w)
  {
    assert RPow(w, 1) == w;
    Rearrange(d, a * b, w);
  }

  /** Column j of the linear matrix sums to the supply of j when j is reached and to 0 when not. */
  lemma LinearColumn(d: seq<real>, s: seq<real>, w: seq<seq<real>>, cols: nat, j: nat)
    requires RealSetting(d, s, w, cols) && j < cols
    ensures Sum(Column(Weighted(d, s, w, cols, 1), cols, j))
         == if ColumnTotal(d, w, cols, j) == 0.0 then 0.0 else s[j]
  {
    var t := ColumnTotal(d, w, cols, j);
    ColumnScaled(d, s, w, cols, j, s[j] * Ir(t));
    ScaledByInverse(Sum(Column(Weighted(d, s, w, cols, 1), cols, j)), s[j], t);
  }

  /** Column j of the linear matrix is column j of the demand-weighted decay matrix scaled by c. */
  lemma ColumnScaled(d: seq<real>, s: seq<real>, w: seq<seq<real>>, cols: nat, j: nat, c: real)
    requires RealSetting(d, s, w, cols) && j < cols && c == s[j] * Ir(ColumnTotal(d, w, cols, j))
    ensures Sum(Column(Weighted(d, s, w, cols, 1), cols, j)) == c * ColumnTotal(d, w, cols, j)
  {
    var col := seq(|w|, i requires 0 <= i < |w| => d[i] * w[i][j]);
    var C := Column(Weighted(d, s, w, cols, 1), cols, j);
    forall i | 0 <= i < |w| ensures C[i] == c * col[i] {
      LinearColumnEntry(d, s, w, cols, j, i);
    }
    SumScaled(c, col, C);
  }

  lemma ScaledByInverse(x: real, a: real, t: real)
    requires x == a * Ir(t) * t
    ensures x == if t == 0.0 then 0.0 else a
  {
    CancelInverse(a, t);
  }

  lemma LinearColumnEntry(d: seq<real>, s: seq<real>, w: seq<seq<real>>, cols: nat, j: nat, i: nat)
    requires RealSetting(d, s, w, cols) && j < cols && i < |w|
    ensures Column(Weighted(d, s, w, cols, 1), cols, j)[i] == s[j] * Ir(ColumnTotal(d, w, cols, j)) * (d[i] * w[i][j])
  {
    LinearEntry(d[i], s[j], Ir(ColumnTotal(d, w, cols, j)), w[i][j]);
  }

  lemma LinearByColumns(d: seq<real>, s: seq<real>, w: seq<seq<real>>, cols: nat)
    requires RealSetting(d, s, w, cols)
    ensures Sum(ColumnSums(Weighted(d, s, w, cols, 1), cols)) == RealReached(d, s, w, cols)
  {
    var B := Weighted(d, s, w, cols, 1);
    var rhs := seq(cols, j requires 0 <= j < cols => if ColumnTotal(d, w, cols, j) == 0.0 then 0.0 else s[j]);
    forall j | 0 <= j < cols ensures ColumnSums(B, cols)[j] == rhs[j] {
      LinearColumn(d, s, w, cols, j);
    }
    SumSameEntries(ColumnSums(B, cols), rhs);
  }

  /** Over real matrices: the demand-weighted total of the scores is at most the supply of the
      reached columns, and equal to it with exponent 1. */
  lemma RealConservation(d: seq<real>, s: seq<real>, w: seq<seq<real>>, cols: nat, n: nat)
    requires RealSetting(d, s, w, cols) && n >= 1
    ensures RealTotal(d, s, w, cols, n) <= RealReached(d, s, w, cols)
    ensures n == 1 ==> RealTotal(d, s, w, cols, n) == RealReached(d, s, w, cols)
  {
    TotalByRows(d, s, w, cols, n);
    RowsBelowLinear(d, s, w, cols, n);
    SumExchange(Weighted(d, s, w, cols, 1), cols);
    LinearByColumns(d, s, w, cols);
  }

  // ---- The engine over finite values ----------------------------------------------------

  predicate NoNaN(D: Matrix)
  {
    forall i, j | 0 <= i < |D| && 0 <= j < |D[i]| :: !D[i][j].NaN?
  }

  /** Every decay weight of the matrix is a finite value in [0, 1]. */
  predicate FiniteWeights(e: Engine, m: Elementary, D: Matrix)
  {
    forall i, j | 0 <= i < |D| && 0 <= j < |D[i]| :: W(e, m, D, i, j).Fin? && 0.0 <= W(e, m, D, i, j).v <= 1.0
  }

  lemma WeightsFinite(e: Engine, m: Elementary, D: Matrix)
    requires Sound(m) && (e.transform.param != 0.0 || e.transform.kernel == Uniform) && NoNaN(D)
    ensures FiniteWeights(e, m, D)
  {
    forall i, j | 0 <= i < |D| && 0 <= j < |D[i]|
      ensures W(e, m, D, i, j).Fin? && 0.0 <= W(e, m, D, i, j).v <= 1.0
    {
      WeightsInUnitInterval(e.transform, m, D[i][j]);
      if e.transform.kernel == Uniform {
        UniformIsIndicator(D[i][j], e.transform.param);
      }
    }
  }

  /** The decay weights as a real matrix. */
  function WeightReals(e: Engine, m: Elementary, D: Matrix, cols: nat): (r: seq<seq<real>>)
    requires Rect(D, cols)
    ensures |r| == |D| && IsRect(r, cols)
  {
    seq(|D|, i requires 0 <= i < |D| => seq(cols, j requires 0 <= j < cols => Val(W(e, m, D, i, j))))
  }

  /** Without NaN or infinity anywhere, each potential is the real column total. */
  lemma PotentialsAreReal(e: Engine, m: Elementary, D: Matrix, cols: nat, demand: seq<Num>)
    requires !e.huff && Rect(D, cols) && |demand| == |D| && FiniteWeights(e, m, D)
    requires forall k | 0 <= k < |demand| :: demand[k].Fin?
    ensures forall j | 0 <= j < cols ::
      Potentials(e, m, D, cols, demand)[j] == Fin(ColumnTotal(Vals(demand), WeightReals(e, m, D, cols), cols, j))
  {
    var d := Vals(demand);
    var w := WeightReals(e, m, D, cols);
    forall j | 0 <= j < cols
      ensures Potentials(e, m, D, cols, demand)[j] == Fin(ColumnTotal(d, w, cols, j))
    {
      PotentialIsReal(e, m, D, cols, demand, d, w, j);
    }
  }

  lemma PotentialIsReal(e: Engine, m: Elementary, D: Matrix, cols: nat, demand: seq<Num>, d: seq<real>, w: seq<seq<real>>, j: nat)
    requires !e.huff && Rect(D, cols) && |demand| == |D| && FiniteWeights(e, m, D) && j < cols
    requires forall k | 0 <= k < |demand| :: demand[k].Fin?
    requires d == Vals(demand) && w == WeightReals(e, m, D, cols)
    ensures NanSum(DemandColumn(e, m, D, cols, demand, j)) == Fin(ColumnTotal(d, w, cols, j))
  {
    var c := DemandColumn(e, m, D, cols, demand, j);
    var col := seq(|w|, i requires 0 <= i < |w| => d[i] * w[i][j]);
    forall i | 0 <= i < |D| ensures c[i] == Fin(col[i]) {
      assert demand[i] == Fin(d[i]);
      assert W(e, m, D, i, j) == Fin(w[i][j]);
      DemandEntryReal(e, m, D, demand, i, j, d[i], w[i][j]);
    }
    NanSumOfReals(c, col);
  }

  lemma InverseReal(p: real)
    ensures InverseOf(Fin(p)) == Fin(Ir(p))
  {
  }

  lemma AccessEntryReal(e: Engine, m: Elementary, D: Matrix, supply: seq<Num>, inv: seq<Num>, i: nat, j: nat, q: real, c: real)
    requires !e.huff && i < |D| && j < |D[i]| && |supply| == |D[i]| && |inv| == |D[i]|
    requires supply[j].Fin? && inv[j] == Fin(q) && W(e, m, D, i, j) == Fin(c)
    ensures AccessEntry(e, m, D, supply, inv, i, j) == Fin(Term(supply[j].v, q, c, e.exponent))
  {
    var x := W(e, m, D, i, j);
    var n := e.exponent;
    assert AccessEntry(e, m, D, supply, inv, i, j) == Mul(Mul(supply[j], inv[j]), Pow(x, n));
    ProductReal(supply[j].v, q, c, n);
    assert supply[j] == Fin(supply[j].v);
    assert Mul(Mul(supply[j], inv[j]), Pow(x, n)) == Mul(Mul(Fin(supply[j].v), Fin(q)), Pow(Fin(c), n));
  }

  lemma ProductReal(a: real, b: real, c: real, n: nat)
    ensures Mul(Mul(Fin(a), Fin(b)), Pow(Fin(c), n)) == Fin(Term(a, b, c, n))
  {
    PowOfFinite(c, n);
  }

  lemma ScoreRowReal(e: Engine, m: Elementary, D: Matrix, cols: nat, demand: seq<Num>, supply: seq<Num>, inv: seq<Num>, i: nat)
    requires !e.huff && Rect(D, cols) && |demand| == |D| && |supply| == cols && |inv| == cols && i < |D|
    requires FiniteWeights(e, m, D)
    requires forall k | 0 <= k < |supply| :: supply[k].Fin?
    requires forall j | 0 <= j < cols ::
      inv[j] == Fin(Ir(ColumnTotal(Vals(demand), WeightReals(e, m, D, cols), cols, j)))
    ensures NanSum(AccessRow(e, m, D, cols, supply, inv, i))
         == Fin(RowScore(Vals(demand), Vals(supply), WeightReals(e, m, D, cols), cols, e.exponent, i))
  {
    var d := Vals(demand);
    var w := WeightReals(e, m, D, cols);
    var row := AccessRow(e, m, D, cols, supply, inv, i);
    var terms := ScoreTerms(d, Vals(supply), w, cols, e.exponent, i);
    forall j | 0 <= j < cols ensures row[j] == Fin(terms[j]) {
      AccessEntryReal(e, m, D, supply, inv, i, j, Ir(ColumnTotal(d, w, cols, j)), w[i][j]);
    }
    NanSumOfReals(row, terms);
  }

  /** Without NaN or infinity anywhere, each score is the real row score. */
  lemma ScoresAreReal(e: Engine, m: Elementary, D: Matrix, cols: nat, demand: seq<Num>, supply: seq<Num>)
    requires !e.huff && Rect(D, cols) && |demand| == |D| && |supply| == cols && FiniteWeights(e, m, D)
    requires forall k | 0 <= k < |demand| :: demand[k].Fin?
    requires forall k | 0 <= k < |supply| :: supply[k].Fin?
    ensures forall i | 0 <= i < |D| ::
      Scores(e, m, D, cols, demand, supply)[i]
      == Fin(RowScore(Vals(demand), Vals(supply), WeightReals(e, m, D, cols), cols, e.exponent, i))
  {
    var d := Vals(demand);
    var w := WeightReals(e, m, D, cols);
    var inv := Inverses(Potentials(e, m, D, cols, demand));
    PotentialsAreReal(e, m, D, cols, demand);
    forall j | 0 <= j < cols ensures inv[j] == Fin(Ir(ColumnTotal(d, w, cols, j))) {
      InverseReal(ColumnTotal(d, w, cols, j));
    }
    forall i | 0 <= i < |D|
      ensures Scores(e, m, D, cols, demand, supply)[i] == Fin(RowScore(d, Vals(supply), w, cols, e.exponent, i))
    {
      ScoreRowReal(e, m, D, cols, demand, supply, inv, i);
    }
  }

  /** `sum(demand * scores)`. */
  function Total(demand: seq<Num>, scores: seq<Num>): real
    requires |demand| == |scores|
  {
    Dot(Vals(demand), Vals(scores))
  }

  /** The total supply of the columns whose potential is not zero. */
  function Reached(supply: seq<Num>, potentials: seq<Num>): real
    requires |supply| == |potentials|
  {
    Sum(seq(|supply|, j requires 0 <= j < |supply| => if potentials[j] == Fin(0.0) then 0.0 else Val(supply[j])))
  }

  lemma TotalIsReal(e: Engine, m: Elementary, D: Matrix, cols: nat, demand: seq<Num>, supply: seq<Num>)
    requires !e.huff && Rect(D, cols) && |demand| == |D| && |supply| == cols && FiniteWeights(e, m, D)
    requires forall k | 0 <= k < |demand| :: demand[k].Fin?
    requires forall k | 0 <= k < |supply| :: supply[k].Fin?
    ensures Total(demand, Scores(e, m, D, cols, demand, supply))
         == RealTotal(Vals(demand), Vals(supply), WeightReals(e, m, D, cols), cols, e.exponent)
  {
    var sc := Scores(e, m, D, cols, demand, supply);
    var rs := RealScores(Vals(demand), Vals(supply), WeightReals(e, m, D, cols), cols, e.exponent);
    ScoresAreReal(e, m, D, cols, demand, supply);
    assert Vals(sc) == rs;
  }

  lemma ReachedIsReal(e: Engine, m: Elementary, D: Matrix, cols: nat, demand: seq<Num>, supply: seq<Num>)
    requires !e.huff && Rect(D, cols) && |demand| == |D| && |supply| == cols && FiniteWeights(e, m, D)
    requires forall k | 0 <= k < |demand| :: demand[k].Fin?
    ensures Reached(supply, Potentials(e, m, D, cols, demand))
         == RealReached(Vals(demand), Vals(supply), WeightReals(e, m, D, cols), cols)
  {
    var d := Vals(demand);
    var w := WeightReals(e, m, D, cols);
    var p := Potentials(e, m, D, cols, demand);
    PotentialsAreReal(e, m, D, cols, demand);
    SumSameEntries(
      seq(|supply|, j requires 0 <= j < |supply| => if p[j] == Fin(0.0) then 0.0 else Val(supply[j])),
      seq(cols, j requires 0 <= j < cols => if ColumnTotal(d, w, cols, j) == 0.0 then 0.0 else Vals(supply)[j]));
  }

  /** Supply conservation: with sound elementary functions, a nonzero transform parameter (or
      the uniform transform, whose weights are 0 or 1 for any radius), no Huff step, no NaN
      distance and finite nonnegative demand and supply, the demand-weighted total of the scores
      is at most the supply of the columns with nonzero potential, and equal to it with
      exponent 1. */
  lemma SupplyConservation(e: Engine, m: Elementary, D: Matrix, cols: nat, demand: seq<Num>, supply: seq<Num>)
    requires Sound(m) && !e.huff && e.exponent >= 1
    requires e.transform.param != 0.0 || e.transform.kernel == Uniform
    requires Rect(D, cols) && NoNaN(D)
    requires |demand| == |D| && FiniteNonneg(demand) && |supply| == cols && FiniteNonneg(supply)
    ensures Total(demand, Scores(e, m, D, cols, demand, supply))
         <= Reached(supply, Potentials(e, m, D, cols, demand))
    ensures e.exponent == 1 ==>
      Total(demand, Scores(e, m, D, cols, demand, supply)) == Reached(supply, Potentials(e, m, D, cols, demand))
  {
    WeightsFinite(e, m, D);
    var w := WeightReals(e, m, D, cols);
    assert RealSetting(Vals(demand), Vals(supply), w, cols);
    TotalIsReal(e, m, D, cols, demand, supply);
    ReachedIsReal(e, m, D, cols, demand, supply);
    RealConservation(Vals(demand), Vals(supply), w, cols, e.exponent);
  }
}
