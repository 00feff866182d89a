/** Properties of the gravity engine: shapes and signs of the potentials, scores and
    interaction probabilities, the zero-potential rule, and the two-step example. */
module Accessibility {
  import opened Numeric
  import opened Outcome
  import opened Decay
  import opened Sums
  import opened Gravity

  /** Demand or supply multipliers as the nonnegativity results need them. */
  predicate FiniteNonneg(s: seq<Num>)
  {
    forall k | 0 <= k < |s| :: s[k].Fin? && s[k].v >= 0.0
  }

  predicate AllDistanceLike(D: Matrix)
  {
    forall i, j | 0 <= i < |D| && 0 <= j < |D[i]| :: DistanceLike(D[i][j])
  }

  lemma NonnegProduct(x: Num, y: Num)
    requires Nonneg(x) && Nonneg(y)
    ensures Nonneg(Mul(x, y))
  {
    if x.Fin? && y.Fin? {
      MulNonneg(x.v, y.v);
    }
  }

  lemma UnitProduct(a: real, b: real)
    requires 0.0 <= a <= 1.0 && 0.0 <= b <= 1.0
    ensures 0.0 <= a * b <= b
  {
    MulNonneg(a, b);
    MulNonneg(1.0 - a, b);
  }

  /** A real power of a value in [0, 1] stays in [0, 1] and, from the first power on, never
      exceeds the value itself. */
  lemma {:induction false} RPowOfUnit(a: real, n: nat)
    requires 0.0 <= a <= 1.0
    ensures 0.0 <= RPow(a, n) <= 1.0
    ensures n >= 1 ==> RPow(a, n) <= a
  {
    if n > 0 {
      RPowOfUnit(a, n - 1);
      UnitProduct(RPow(a, n - 1), a);
    }
  }

  lemma {:induction false} PowOfFinite(a: real, n: nat)
    ensures Pow(Fin(a), n) == Fin(RPow(a, n))
  {
    if n > 0 {
      PowOfFinite(a, n - 1);
    }
  }

  lemma PowOfNaN(n: nat)
    requires n >= 1
    ensures Pow(NaN, n).NaN?
  {
  }

  /** Raising a weight to a natural power keeps it a weight and, from the first power on, never
      increases it. */
  lemma PowOfWeight(w: Num, n: nat)
    requires IsWeight(w)
    ensures IsWeight(Pow(w, n))
    ensures w.Fin? ==> Pow(w, n) == Fin(RPow(w.v, n))
    ensures w.Fin? && n >= 1 ==> RPow(w.v, n) <= w.v
    ensures w.NaN? && n >= 1 ==> Pow(w, n).NaN?
  {
    if w.Fin? {
      PowOfFinite(w.v, n);
      RPowOfUnit(w.v, n);
    } else if n >= 1 {
      PowOfNaN(n);
    }
  }

  /** The Huff weight of a finite distance is positive. */
  lemma HuffWeightPositive(d: Num)
    requires d.Fin? && d.v >= 0.0
    ensures HuffWeight(d).Fin? && HuffWeight(d).v > 0.0
  {
    if d.v > 0.0 {
      RatioBounds(1.0, d.v);
      assert 1.0 / d.v > 0.0;
    }
  }

  /** A nonnegative entry divided by a positive total it does not exceed is a weight. */
  lemma ShareIsWeight(x: Num, t: real)
    requires Nonneg(x) && t > 0.0
    requires x.Fin? ==> x.v <= t
    ensures IsWeight(Div(x, Fin(t)))
  {
    if x.Fin? {
      RatioBounds(x.v, t);
      DivMonotone(x.v, t, t);
      DivideOut(1.0, t, t);
    }
  }

  /** Each row of interaction probabilities holds weights in [0, 1] or NaN. A row with at least
      one finite distance sums to 1; a row with none is NaN throughout. */
  lemma HuffRowStochastic(row: seq<Num>)
    requires forall j | 0 <= j < |row| :: DistanceLike(row[j])
    ensures forall j | 0 <= j < |row| :: IsWeight(HuffRow(row)[j])
    ensures (exists j | 0 <= j < |row| :: row[j].Fin?) ==> NanSum(HuffRow(row)) == Fin(1.0)
    ensures (forall j | 0 <= j < |row| :: !row[j].Fin?) ==>
      forall j | 0 <= j < |row| :: HuffRow(row)[j].NaN?
  {
    var w := HuffWeights(row);
    if j0 :| 0 <= j0 < |row| && row[j0].Fin? {
      HuffWeightPositive(row[j0]);
      EntryAtMostNanSum(w, j0);
      HuffRowNormalised(row, w, NanSum(w).v);
    } else {
      NanSumOfNothing(w);
    }
  }

  /** With a positive total the shares are weights that sum to 1. */
  lemma HuffRowNormalised(row: seq<Num>, w: seq<Num>, t: real)
    requires w == HuffWeights(row) && AllNonneg(w) && NanSum(w) == Fin(t) && t > 0.0
    ensures forall j | 0 <= j < |row| :: IsWeight(HuffRow(row)[j])
    ensures NanSum(HuffRow(row)) == Fin(1.0)
  {
    var p := HuffRow(row);
    forall j | 0 <= j < |row| ensures IsWeight(p[j]) && p[j] == Div(w[j], Fin(t)) {
      if w[j].Fin? {
        EntryAtMostNanSum(w, j);
      }
      ShareIsWeight(w[j], t);
    }
    NanSumDivided(w, p, t);
    DivideOut(1.0, t, t);
  }

  lemma DemandEntryNonneg(e: Engine, m: Elementary, D: Matrix, demand: seq<Num>, i: nat, j: nat)
    requires Sound(m) && i < |D| && j < |D[i]| && |demand| == |D| && FiniteNonneg(demand)
    requires e.huff ==> forall k | 0 <= k < |D[i]| :: DistanceLike(D[i][k])
    ensures Nonneg(DemandEntry(e, m, D, demand, i, j))
  {
    WeightsInUnitInterval(e.transform, m, D[i][j]);
    NonnegProduct(demand[i], W(e, m, D, i, j));
    if e.huff {
      HuffRowStochastic(D[i]);
      NonnegProduct(Mul(demand[i], W(e, m, D, i, j)), HuffRow(D[i])[j]);
    }
  }

  /** One demand potential per supply column, each a finite nonnegative number. */
  lemma PotentialsNonnegative(e: Engine, m: Elementary, D: Matrix, cols: nat, demand: seq<Num>)
    requires Sound(m) && Rect(D, cols) && |demand| == |D| && FiniteNonneg(demand)
    requires e.huff ==> AllDistanceLike(D)
    ensures |Potentials(e, m, D, cols, demand)| == cols
    ensures forall j | 0 <= j < cols ::
      Potentials(e, m, D, cols, demand)[j].Fin? && Potentials(e, m, D, cols, demand)[j].v >= 0.0
  {
    forall j | 0 <= j < cols
      ensures Potentials(e, m, D, cols, demand)[j].Fin? && Potentials(e, m, D, cols, demand)[j].v >= 0.0
    {
      var c := DemandColumn(e, m, D, cols, demand, j);
      forall i | 0 <= i < |D| ensures Nonneg(c[i]) {
        DemandEntryNonneg(e, m, D, demand, i, j);
      }
      assert AllNonneg(c);
    }
  }

  /** The inverse of a finite nonnegative potential is finite and nonnegative; 0 maps to 0. */
  lemma InverseNonneg(p: Num)
    requires p.Fin? && p.v >= 0.0
    ensures InverseOf(p).Fin? && InverseOf(p).v >= 0.0
  {
    if p.v > 0.0 {
      RatioBounds(1.0, p.v);
    }
  }

  lemma AccessEntryNonneg(e: Engine, m: Elementary, D: Matrix, supply: seq<Num>, inv: seq<Num>, i: nat, j: nat)
    requires Sound(m) && i < |D| && j < |D[i]| && |supply| == |D[i]| && |inv| == |D[i]|
    requires FiniteNonneg(supply) && FiniteNonneg(inv)
    requires e.huff ==> forall k | 0 <= k < |D[i]| :: DistanceLike(D[i][k])
    ensures Nonneg(AccessEntry(e, m, D, supply, inv, i, j))
  {
    NonnegProduct(supply[j], inv[j]);
    WeightsInUnitInterval(e.transform, m, D[i][j]);
    PowOfWeight(W(e, m, D, i, j), e.exponent);
    var a := Mul(Mul(supply[j], inv[j]), Pow(W(e, m, D, i, j), e.exponent));
    NonnegProduct(Mul(supply[j], inv[j]), Pow(W(e, m, D, i, j), e.exponent));
    if e.huff {
      HuffRowStochastic(D[i]);
      NonnegProduct(a, HuffRow(D[i])[j]);
    }
  }

  /** One score per demand row, each a finite nonnegative number, for nonnegative demand and
      supply; the defaults of all ones qualify. */
  lemma ScoresNonnegative(e: Engine, m: Elementary, D: Matrix, cols: nat, demand: seq<Num>, supply: seq<Num>)
    requires Sound(m) && Rect(D, cols) && |demand| == |D| && |supply| == cols
    requires FiniteNonneg(demand) && FiniteNonneg(supply)
    requires e.huff ==> AllDistanceLike(D)
    ensures |Scores(e, m, D, cols, demand, supply)| == |D|
    ensures forall i | 0 <= i < |D| ::
      Scores(e, m, D, cols, demand, supply)[i].Fin? && Scores(e, m, D, cols, demand, supply)[i].v >= 0.0
  {
    var p := Potentials(e, m, D, cols, demand);
    PotentialsNonnegative(e, m, D, cols, demand);
    var inv := Inverses(p);
    forall j | 0 <= j < cols ensures inv[j].Fin? && inv[j].v >= 0.0 {
      InverseNonneg(p[j]);
    }
    forall i | 0 <= i < |D|
      ensures Scores(e, m, D, cols, demand, supply)[i].Fin? && Scores(e, m, D, cols, demand, supply)[i].v >= 0.0
    {
      var row := AccessRow(e, m, D, cols, supply, inv, i);
      forall j | 0 <= j < cols ensures Nonneg(row[j]) {
        AccessEntryNonneg(e, m, D, supply, inv, i, j);
      }
      assert AllNonneg(row);
    }
  }

  /** `calculate_accessibility_scores` with the default multipliers gives finite nonnegative
      scores, one per demand row. */
  lemma DefaultScoresNonnegative(e: Engine, m: Elementary, D: Matrix, cols: nat)
    requires Sound(m) && Rect(D, cols)
    requires e.huff ==> AllDistanceLike(D)
    ensures |CalculateAccessibilityScores(e, m, D, cols, None, None)| == |D|
    ensures forall i | 0 <= i < |D| ::
      CalculateAccessibilityScores(e, m, D, cols, None, None)[i].Fin?
      && CalculateAccessibilityScores(e, m, D, cols, None, None)[i].v >= 0.0
  {
    ScoresNonnegative(e, m, D, cols, Ones(|D|), Ones(cols));
  }

  predicate ZeroOrNaN(x: Num) { x == Fin(0.0) || x.NaN? }

  lemma ZeroAbsorbs(s: Num, x: Num, h: Num)
    ensures ZeroOrNaN(Mul(s, Fin(0.0)))
    ensures ZeroOrNaN(Mul(Mul(s, Fin(0.0)), x))
    ensures ZeroOrNaN(Mul(Mul(Mul(s, Fin(0.0)), x), h))
  {
  }

  /** A supply column whose demand potential is 0 contributes nothing to any score: its supply
      value can be anything at all without changing the result. */
  lemma ZeroPotentialColumnsIgnored(
    e: Engine, m: Elementary, D: Matrix, cols: nat, demand: seq<Num>, s1: seq<Num>, s2: seq<Num>
  )
    requires Rect(D, cols) && |demand| == |D| && |s1| == cols && |s2| == cols
    requires forall j | 0 <= j < cols :: s1[j] != s2[j] ==> Potentials(e, m, D, cols, demand)[j] == Fin(0.0)
    ensures Scores(e, m, D, cols, demand, s1) == Scores(e, m, D, cols, demand, s2)
  {
    var inv := Inverses(Potentials(e, m, D, cols, demand));
    forall i | 0 <= i < |D|
      ensures Scores(e, m, D, cols, demand, s1)[i] == Scores(e, m, D, cols, demand, s2)[i]
    {
      var r1 := AccessRow(e, m, D, cols, s1, inv, i);
      var r2 := AccessRow(e, m, D, cols, s2, inv, i);
      forall j | 0 <= j < cols ensures Skip(r1[j]) == Skip(r2[j]) {
        if s1[j] != s2[j] {
          var pw := Pow(W(e, m, D, i, j), e.exponent);
          var h := HuffRow(D[i])[j];
          ZeroAbsorbs(s1[j], pw, h);
          ZeroAbsorbs(s2[j], pw, h);
        }
      }
      NanSumSameSkips(r1, r2);
    }
  }

  // ---- The 2SFCA example of the gravity tests ------------------------------------------
  // The lemmas from here to the end of the module prove the sample-matrix example. The
  // helpers among them (small sums, row-by-row scores, the two-column and three-row shapes)
  // are scaffolding for that proof and have no counterpart of their own in the library.

  /** The scores are determined row by row. */
  lemma ScoresFromRows(e: Engine, m: Elementary, D: Matrix, cols: nat, demand: seq<Num>, supply: seq<Num>, vals: seq<Num>)
    requires Rect(D, cols) && |demand| == |D| && |supply| == cols && |vals| == |D|
    requires forall i | 0 <= i < |D| ::
      NanSum(AccessRow(e, m, D, cols, supply, Inverses(Potentials(e, m, D, cols, demand)), i)) == vals[i]
    ensures Scores(e, m, D, cols, demand, supply) == vals
  {
  }

  lemma NanSumOfTwo(s: seq<Num>, a: real, b: real)
    requires |s| == 2 && s[0] == Fin(a) && s[1] == Fin(b)
    ensures NanSum(s) == Fin(a + b)
  {
    assert |s[..1][..0]| == 0;
    assert NanSum(s[..1]) == Fin(a);
  }

  lemma NanSumOfThree(s: seq<Num>, a: real, b: real, c: real)
    requires |s| == 3 && s[0] == Fin(a) && s[1] == Fin(b) && s[2] == Fin(c)
    ensures NanSum(s) == Fin(a + b + c)
  {
    NanSumOfTwo(s[..2], a, b);
  }

  /** The sample distance matrix: three demand points, two supply points. */
  const SampleMatrix: Matrix := [[Fin(5.0), Fin(5.0)], [Fin(10.0), Fin(0.0)], [Fin(15.0), Fin(15.0)]]

  const TwoStepEngine: Engine := Engine(Transform(Uniform, 6.0), false, 1)

  /** The uniform weights of the sample matrix with radius 6. */
  lemma TwoStepWeights(m: Elementary, e: Engine, D: Matrix)
    requires e == TwoStepEngine && D == SampleMatrix
    ensures W(e, m, D, 0, 0) == Fin(1.0) && W(e, m, D, 0, 1) == Fin(1.0)
    ensures W(e, m, D, 1, 0) == Fin(0.0) && W(e, m, D, 1, 1) == Fin(1.0)
    ensures W(e, m, D, 2, 0) == Fin(0.0) && W(e, m, D, 2, 1) == Fin(0.0)
  {
  }

  /** With radius 6 the first supply point is reached by one demand point and the second by two. */
  lemma TwoStepPotentials(m: Elementary, e: Engine, D: Matrix)
    requires e == TwoStepEngine && D == SampleMatrix
    ensures Potentials(e, m, D, 2, Ones(3)) == [Fin(1.0), Fin(2.0)]
  {
    var ones := Ones(3);
    TwoStepWeights(m, e, D);
    TwoStepColumn(m, e, D, ones, 0, 1.0, 0.0, 0.0);
    TwoStepColumn(m, e, D, ones, 1, 1.0, 1.0, 0.0);
    PotentialsOfTwo(e, m, D, ones, Fin(1.0), Fin(2.0));
  }

  /** The potentials of a two-column matrix are its two demand-column sums. */
  lemma PotentialsOfTwo(e: Engine, m: Elementary, D: Matrix, demand: seq<Num>, p0: Num, p1: Num)
    requires Rect(D, 2) && |demand| == |D|
    requires NanSum(DemandColumn(e, m, D, 2, demand, 0)) == p0
    requires NanSum(DemandColumn(e, m, D, 2, demand, 1)) == p1
    ensures Potentials(e, m, D, 2, demand) == [p0, p1]
  {
  }

  /** A demand column of the sample matrix under unit demand sums its column of weights. */
  lemma TwoStepColumn(m: Elementary, e: Engine, D: Matrix, ones: seq<Num>, j: nat, a: real, b: real, c: real)
    requires !e.huff && |D| == 3 && Rect(D, 2) && j < 2
    requires |ones| == 3 && forall k | 0 <= k < 3 :: ones[k] == Fin(1.0)
    requires W(e, m, D, 0, j) == Fin(a) && W(e, m, D, 1, j) == Fin(b) && W(e, m, D, 2, j) == Fin(c)
    ensures NanSum(DemandColumn(e, m, D, 2, ones, j)) == Fin(a + b + c)
  {
    var col := DemandColumn(e, m, D, 2, ones, j);
    UnitDemandEntry(e, m, D, ones, 0, j, a);
    UnitDemandEntry(e, m, D, ones, 1, j, b);
    UnitDemandEntry(e, m, D, ones, 2, j, c);
    NanSumOfThree(col, a, b, c);
  }

  /** A demand entry with finite demand and finite weight is their product. */
  lemma DemandEntryReal(e: Engine, m: Elementary, D: Matrix, demand: seq<Num>, i: nat, j: nat, a: real, b: real)
    requires !e.huff && i < |D| && j < |D[i]| && |demand| == |D|
    requires demand[i] == Fin(a) && W(e, m, D, i, j) == Fin(b)
    ensures DemandEntry(e, m, D, demand, i, j) == Fin(a * b)
  {
  }

  lemma UnitDemandEntry(e: Engine, m: Elementary, D: Matrix, ones: seq<Num>, i: nat, j: nat, x: real)
    requires !e.huff && i < |D| && j < |D[i]| && |ones| == |D| && ones[i] == Fin(1.0)
    requires W(e, m, D, i, j) == Fin(x)
    ensures DemandEntry(e, m, D, ones, i, j) == Fin(x)
  {
    DemandEntryReal(e, m, D, ones, i, j, 1.0, x);
  }

  /** The access-ratio rows of the sample matrix, given the inverted potentials [1, 1/2]. */
  lemma TwoStepRows(m: Elementary, e: Engine, D: Matrix, inv: seq<Num>)
    requires e == TwoStepEngine && D == SampleMatrix
    requires inv == [Fin(1.0), Fin(0.5)]
    ensures NanSum(AccessRow(e, m, D, 2, Ones(2), inv, 0)) == Fin(1.5)
    ensures NanSum(AccessRow(e, m, D, 2, Ones(2), inv, 1)) == Fin(0.5)
    ensures NanSum(AccessRow(e, m, D, 2, Ones(2), inv, 2)) == Fin(0.0)
  {
    var s := Ones(2);
    TwoStepWeights(m, e, D);
    var r0 := AccessRow(e, m, D, 2, s, inv, 0);
    var r1 := AccessRow(e, m, D, 2, s, inv, 1);
    var r2 := AccessRow(e, m, D, 2, s, inv, 2);
    NanSumOfTwo(r0, 1.0, 0.5);
    NanSumOfTwo(r1, 0.0, 0.5);
    NanSumOfTwo(r2, 0.0, 0.0);
  }

  lemma TwoStepInverses(p: seq<Num>)
    requires p == [Fin(1.0), Fin(2.0)]
    ensures Inverses(p) == [Fin(1.0), Fin(0.5)]
  {
  }

  /** The two-step FCA engine with radius 6 on the sample matrix and default multipliers scores
      the demand points 1.5, 0.5 and 0. */
  lemma TwoStepExample(m: Elementary)
    ensures TwoStepFCA(6.0) == Ok(Built(TwoStepEngine, []))
    ensures Potentials(TwoStepEngine, m, SampleMatrix, 2, Ones(3)) == [Fin(1.0), Fin(2.0)]
    ensures CalculateAccessibilityScores(TwoStepEngine, m, SampleMatrix, 2, None, None)
         == [Fin(1.5), Fin(0.5), Fin(0.0)]
  {
    TwoStepPotentials(m, TwoStepEngine, SampleMatrix);
    TwoStepScores(m, TwoStepEngine, SampleMatrix);
  }

  lemma TwoStepScores(m: Elementary, e: Engine, D: Matrix)
    requires e == TwoStepEngine && D == SampleMatrix
    ensures CalculateAccessibilityScores(e, m, D, 2, None, None) == [Fin(1.5), Fin(0.5), Fin(0.0)]
  {
    var demand, supply := Ones(3), Ones(2);
    TwoStepPotentials(m, e, D);
    var p := Potentials(e, m, D, 2, demand);
    TwoStepInverses(p);
    TwoStepRows(m, e, D, Inverses(p));
    ScoresOfThreeRows(e, m, D, 2, demand, supply, Fin(1.5), Fin(0.5), Fin(0.0));
  }

  /** The scores of a three-row matrix are its three access-row sums. */
  lemma ScoresOfThreeRows(e: Engine, m: Elementary, D: Matrix, cols: nat, demand: seq<Num>, supply: seq<Num>,
                          x0: Num, x1: Num, x2: Num)
    requires Rect(D, cols) && |D| == 3 && |demand| == 3 && |supply| == cols
    requires var inv := Inverses(Potentials(e, m, D, cols, demand));
      && NanSum(AccessRow(e, m, D, cols, supply, inv, 0)) == x0
      && NanSum(AccessRow(e, m, D, cols, supply, inv, 1)) == x1
      && NanSum(AccessRow(e, m, D, cols, supply, inv, 2)) == x2
    ensures Scores(e, m, D, cols, demand, supply) == [x0, x1, x2]
  {
    var vals := [x0, x1, x2];
    var inv := Inverses(Potentials(e, m, D, cols, demand));
    forall i | 0 <= i < 3 ensures NanSum(AccessRow(e, m, D, cols, supply, inv, i)) == vals[i] {
      if i == 0 {
      } else if i == 1 {
      } else {
        assert i == 2;
      }
    }
    ScoresFromRows(e, m, D, cols, demand, supply, vals);
  }
}
