/** Facts about `nansum` over extended values and about plain real sums, used by the
    accessibility lemmas: reduction to real sums, scaling, monotonicity and the exchange
    of a double sum's order. */
module Sums {
  import opened Numeric

  predicate NoInf(s: seq<Num>) { forall k | 0 <= k < |s| :: !IsInf(s[k]) }

  predicate AllNonneg(s: seq<Num>) { forall k | 0 <= k < |s| :: Nonneg(s[k]) }

  /** Without infinities, `nansum` is the real sum of the non-NaN entries. */
  lemma {:induction false} NanSumOfFinite(s: seq<Num>)
    requires NoInf(s)
    ensures NanSum(s) == Fin(Sum(Vals(s)))
  {
    if |s| > 0 {
      var n := |s| - 1;
      NanSumOfFinite(s[..n]);
      assert Vals(s[..n]) == Vals(s)[..n];
    }
  }

  /** A vector of finite values sums as its real values do. */
  lemma NanSumOfReals(s: seq<Num>, r: seq<real>)
    requires |s| == |r|
    requires forall k | 0 <= k < |s| :: s[k] == Fin(r[k])
    ensures NanSum(s) == Fin(Sum(r))
  {
    NanSumOfFinite(s);
    SumSameEntries(Vals(s), r);
  }

  /** `nansum` only sees each entry through `Skip`, so NaN and 0 are interchangeable. */
  lemma {:induction false} NanSumSameSkips(a: seq<Num>, b: seq<Num>)
    requires |a| == |b|
    requires forall k | 0 <= k < |a| :: Skip(a[k]) == Skip(b[k])
    ensures NanSum(a) == NanSum(b)
  {
    if |a| > 0 {
      NanSumSameSkips(a[..|a| - 1], b[..|b| - 1]);
    }
  }

  /** With nonnegative entries, every finite entry is at most the total. */
  lemma {:induction false} EntryAtMostNanSum(s: seq<Num>, k: nat)
    requires AllNonneg(s)
    requires k < |s| && s[k].Fin?
    ensures s[k].v <= NanSum(s).v
  {
    var n := |s| - 1;
    assert AllNonneg(s[..n]);
    if k < n {
      EntryAtMostNanSum(s[..n], k);
    }
  }

  /** A vector of zeros and NaNs sums to 0. */
  lemma {:induction false} NanSumOfNothing(s: seq<Num>)
    requires forall k | 0 <= k < |s| :: Skip(s[k]) == Fin(0.0)
    ensures NanSum(s) == Fin(0.0)
  {
    if |s| > 0 {
      NanSumOfNothing(s[..|s| - 1]);
    }
  }

  /** Dividing every entry by the same positive total divides `nansum` by it. */
  lemma NanSumDivided(a: seq<Num>, b: seq<Num>, t: real)
    requires |a| == |b| && t > 0.0 && AllNonneg(a)
    requires forall k | 0 <= k < |a| :: b[k] == Div(a[k], Fin(t))
    ensures NanSum(b) == Fin(NanSum(a).v / t)
  {
    var va, vb := Vals(a), Vals(b);
    forall k | 0 <= k < |a| ensures !IsInf(b[k]) && vb[k] == va[k] / t {
      SkipDivided(a[k], t);
    }
    NanSumOfFinite(a);
    NanSumOfFinite(b);
    SumDivided(va, vb, t);
  }

  /** Dividing every entry divides the sum. */
  lemma {:induction false} SumDivided(s: seq<real>, q: seq<real>, t: real)
    requires |s| == |q| && t != 0.0
    requires forall k | 0 <= k < |s| :: q[k] == s[k] / t
    ensures Sum(q) == Sum(s) / t
  {
    if |s| > 0 {
      var n := |s| - 1;
      SumDivided(s[..n], q[..n], t);
      QuotientsAdd(Sum(s[..n]), s[n], t);
    }
  }

  lemma SkipDivided(x: Num, t: real)
    requires Nonneg(x) && t > 0.0
    ensures !IsInf(Div(x, Fin(t)))
    ensures Val(Div(x, Fin(t))) == Val(x) / t
  {
  }

  lemma QuotientsAdd(x: real, y: real, t: real)
    requires t != 0.0
    ensures x / t + y / t == (x + y) / t
  {
  }

  lemma {:induction false} SumNonneg(s: seq<real>)
    requires forall k | 0 <= k < |s| :: s[k] >= 0.0
    ensures Sum(s) >= 0.0
  {
    if |s| > 0 {
      SumNonneg(s[..|s| - 1]);
    }
  }

  lemma {:induction false} SumScaled(c: real, s: seq<real>, t: seq<real>)
    requires |s| == |t|
    requires forall k | 0 <= k < |s| :: t[k] == c * s[k]
    ensures Sum(t) == c * Sum(s)
  {
    if |s| > 0 {
      var n := |s| - 1;
      SumScaled(c, s[..n], t[..n]);
      assert c * Sum(s[..n]) + c * s[n] == c * (Sum(s[..n]) + s[n]);
    }
  }

  lemma {:induction false} SumPointwiseAdd(a: seq<real>, b: seq<real>, c: seq<real>)
    requires |a| == |b| == |c|
    requires forall k | 0 <= k < |a| :: c[k] == a[k] + b[k]
    ensures Sum(c) == Sum(a) + Sum(b)
  {
    if |a| > 0 {
      var n := |a| - 1;
      SumPointwiseAdd(a[..n], b[..n], c[..n]);
    }
  }

  lemma {:induction false} SumMonotone(a: seq<real>, b: seq<real>)
    requires |a| == |b|
    requires forall k | 0 <= k < |a| :: a[k] <= b[k]
    ensures Sum(a) <= Sum(b)
  {
    if |a| > 0 {
      var n := |a| - 1;
      SumMonotone(a[..n], b[..n]);
    }
  }

  lemma {:induction false} SumSameEntries(a: seq<real>, b: seq<real>)
    requires |a| == |b|
    requires forall k | 0 <= k < |a| :: a[k] == b[k]
    ensures Sum(a) == Sum(b)
  {
    assert a == b;
  }

  /** The dot product of two vectors of the same length. */
  function Dot(a: seq<real>, b: seq<real>): real
    requires |a| == |b|
  {
    Sum(seq(|a|, i requires 0 <= i < |a| => a[i] * b[i]))
  }

  predicate IsRect(M: seq<seq<real>>, cols: nat) { forall i | 0 <= i < |M| :: |M[i]| == cols }

  function RowSums(M: seq<seq<real>>): seq<real> { seq(|M|, i requires 0 <= i < |M| => Sum(M[i])) }

  function Column(M: seq<seq<real>>, cols: nat, j: nat): seq<real>
    requires IsRect(M, cols) && j < cols
  {
    seq(|M|, i requires 0 <= i < |M| => M[i][j])
  }

  function ColumnSums(M: seq<seq<real>>, cols: nat): seq<real>
    requires IsRect(M, cols)
  {
    seq(cols, j requires 0 <= j < cols => Sum(Column(M, cols, j)))
  }

  /** Summing a rectangular matrix row by row or column by column gives the same total. */
  lemma {:induction false} SumExchange(M: seq<seq<real>>, cols: nat)
    requires IsRect(M, cols)
    ensures Sum(RowSums(M)) == Sum(ColumnSums(M, cols))
  {
    if |M| == 0 {
      SumSameEntries(ColumnSums(M, cols), seq(cols, j => 0.0));
      SumScaled(0.0, seq(cols, j => 0.0), seq(cols, j => 0.0));
    } else {
      var n := |M| - 1;
      var top := M[..n];
      SumExchange(top, cols);
      assert RowSums(M)[..n] == RowSums(top);
      forall j | 0 <= j < cols
        ensures ColumnSums(M, cols)[j] == ColumnSums(top, cols)[j] + M[n][j]
      {
        assert Column(M, cols, j)[..n] == Column(top, cols, j);
      }
      SumPointwiseAdd(ColumnSums(top, cols), M[n], ColumnSums(M, cols));
    }
  }
}
