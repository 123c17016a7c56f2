/** The trained components are eigenvectors of the covariance: how closely, from the iteration limit and
    the tolerance the trainer passes. */
module TrainedEigenpairs {
  import opened Linalg
  import opened Jacobi
  import opened EigenSym
  import opened RunningStatistics
  import opened PcaSpec
  import opened Reconstruction
  import opened Spectrum
  import opened PcaTheorems

  // ---------------------------------------------------------------- covariance entries

  lemma UnitForm(a: Matrix, n: nat, i: nat, j: nat)
    requires IsMatrix(a, n, n) && i < n && j < n
    ensures Dot(IdentityOf(n)[i], MatVecOf(a, n, n, IdentityOf(n)[j])) == a[i][j]
  {
    var id := IdentityOf(n);
    DotToUnit(a[i], id[j], j, n);
    var w := MatVecOf(a, n, n, id[j]);
    DotToUnit(w, id[i], i, n);
    DotSymmetric(w, id[i]);
  }

  /** The sum or the difference of two unit vectors. */
  function Pair(n: nat, i: nat, j: nat, s: real): (w: Vector)
    requires i < n && j < n
    ensures |w| == n && forall k :: 0 <= k < n ==> w[k] == Mix(1.0, IdentityOf(n)[i][k], s, IdentityOf(n)[j][k])
  {
    seq(n, k requires 0 <= k < n => Mix(1.0, IdentityOf(n)[i][k], s, IdentityOf(n)[j][k]))
  }

  lemma PairForm(a: Matrix, n: nat, i: nat, j: nat, s: real)
    requires IsMatrix(a, n, n) && i < n && j < n
    ensures Dot(Pair(n, i, j, s), MatVecOf(a, n, n, Pair(n, i, j, s)))
         == Mix(1.0, Mix(1.0, a[i][i], s, a[i][j]), s, Mix(1.0, a[j][i], s, a[j][j]))
  {
    var id, w := IdentityOf(n), Pair(n, i, j, s);
    var aw := MatVecOf(a, n, n, w);
    DotCombine(w, 1.0, id[i], s, id[j], aw);
    ProductCombine(a, n, w, 1.0, id[i], s, id[j], id[i]);
    ProductCombine(a, n, w, 1.0, id[i], s, id[j], id[j]);
    UnitForm(a, n, i, i);
    UnitForm(a, n, i, j);
    UnitForm(a, n, j, i);
    UnitForm(a, n, j, j);
  }

  lemma SmallMixed(aii: real, aij: real, ajj: real, plus: real, minus: real)
    requires plus == Mix(1.0, Mix(1.0, aii, 1.0, aij), 1.0, Mix(1.0, aij, 1.0, ajj)) && plus >= 0.0
    requires minus == Mix(1.0, Mix(1.0, aii, -1.0, aij), -1.0, Mix(1.0, aij, -1.0, ajj)) && minus >= 0.0
    requires aii <= 1.0 && ajj <= 1.0
    ensures Abs(aij) <= 1.0
  {}

  /** A correlation is at most one in magnitude. */
  lemma EntryAtMostOne(libm: Libm, xs: seq<Vector>, dim: nat, i: nat, j: nat)
    requires IsSqrt(libm.sqrt) && AllDim(xs, dim) && |xs| >= 2 && i < dim && j < dim
    ensures Abs(CovOfSamples(libm, xs, dim)[i][j]) <= 1.0
  {
    var c := CovOfSamples(libm, xs, dim);
    CovSymmetric(libm, xs, dim);
    UnitDiagonal(libm, xs, dim, i);
    UnitDiagonal(libm, xs, dim, j);
    CovPositive(libm, xs, dim, Pair(dim, i, j, 1.0));
    CovPositive(libm, xs, dim, Pair(dim, i, j, -1.0));
    PairForm(c, dim, i, j, 1.0);
    PairForm(c, dim, i, j, -1.0);
    assert c[i][j] == c[j][i];
    SmallMixed(c[i][i], c[i][j], c[j][j],
               Dot(Pair(dim, i, j, 1.0), MatVecOf(c, dim, dim, Pair(dim, i, j, 1.0))),
               Dot(Pair(dim, i, j, -1.0), MatVecOf(c, dim, dim, Pair(dim, i, j, -1.0))));
  }

  lemma OffWeightBound(libm: Libm, xs: seq<Vector>, dim: nat)
    requires IsSqrt(libm.sqrt) && AllDim(xs, dim) && |xs| >= 2
    ensures OffSq(CovOfSamples(libm, xs, dim), dim) <= Pairs(dim)
  {
    var c := CovOfSamples(libm, xs, dim);
    CovSymmetric(libm, xs, dim);
    forall a, b | 0 <= a < b < dim ensures Abs(c[a][b]) <= 1.0 { EntryAtMostOne(libm, xs, dim, a, b); }
    OffSqBound(c, dim, 1.0, (dim as real - 1.0) * (1.0 * 1.0));
  }

  // ---------------------------------------------------------------- the trained pairs

  ghost predicate NearlyDiagonal(a: Matrix, v: Matrix, n: nat, eps: real)
    requires IsMatrix(a, n, n) && IsMatrix(v, n, n)
  {
    forall i, j :: 0 <= i < n && 0 <= j < n && i != j ==> Abs(Form(a, v, n, i, j)) < eps
  }

  lemma {:induction false} SweepPairs(libm: Libm, a: Matrix, n: nat, budget: nat, eps: real)
    requires IsAngle(libm.angle) && IsMatrix(a, n, n) && IsSymmetric(a, n) && eps > 0.0 && n >= 2
    ensures var e := EigenOf(libm, a, n, budget, eps);
      || Sum(Defects(a, e, n)) <= Mul(Pow(Shrink(n), budget), OffSq(a, n))
      || NearlyDiagonal(a, e.vectors, n, eps)
  {
    DefectsShrink(libm, a, n, budget, eps);
    DiagonaliseDecomposes(libm, a, n, budget, eps);
    var s := Diagonalise(libm, a, n, budget, eps);
    assert EigenOf(libm, a, n, budget, eps).vectors == s.v;
    if s.converged {
      forall i, j | 0 <= i < n && 0 <= j < n && i != j ensures Abs(Form(a, s.v, n, i, j)) < eps {
        assert Form(a, s.v, n, i, j) == s.d[i][j];
      }
    }
  }

  /** For every training list: two hundred rotations have shrunk the defects of the returned pairs to
      `(1 - 2/(d(d-1)))^200` of the off-diagonal weight, or any two returned vectors are conjugate up to
      `1e-12`. */
  lemma {:induction false} TrainedPairs(libm: Libm, xs: seq<Vector>, dim: nat)
    requires IsAngle(libm.angle) && AllDim(xs, dim) && |xs| >= 2 && dim >= 2
    ensures var c, e := CovOfSamples(libm, xs, dim), EigenOfSamples(libm, xs, dim);
      || Sum(Defects(c, e, dim)) <= Mul(Pow(Shrink(dim), 200), OffSq(c, dim))
      || NearlyDiagonal(c, e.vectors, dim, 0.000000000001)
  {
    var c := CovOfSamples(libm, xs, dim);
    CovSymmetric(libm, xs, dim);
    SweepPairs(libm, c, dim, 200, 0.000000000001);
  }

  // ---------------------------------------------------------------- five features

  lemma {:induction false} PowAdd(x: real, a: nat, b: nat)
    ensures Pow(x, a + b) == Mul(Pow(x, a), Pow(x, b))
  {
    if a > 0 {
      PowAdd(x, a - 1, b);
      Regrouped(x, Pow(x, a - 1), Pow(x, b));
    }
  }

  lemma Regrouped(x: real, p: real, q: real)
    ensures x * Mul(p, q) == Mul(x * p, q)
  {}

  lemma ProductBound(p: real, hi: real, q: real, hj: real, bound: real)
    requires 0.0 <= p <= hi && 0.0 <= q <= hj && hi * hj <= bound
    ensures 0.0 <= Mul(p, q) <= bound
  {
    NonNegativeProduct(p, q);
    NonNegativeProduct(hi - p, q);
    NonNegativeProduct(hi, hj - q);
  }

  /** `0.9^200 < 1e-9`. */
  lemma NinthsVanish()
    ensures 0.0 <= Pow(0.9, 200) <= 0.000000001
  {
    assert Pow(0.9, 5) == 0.59049;
    PowAdd(0.9, 5, 5);
    assert Pow(0.9, 10) <= 0.34868;
    PowNonNegative(0.9, 10);
    PowAdd(0.9, 10, 10);
    ProductBound(Pow(0.9, 10), 0.34868, Pow(0.9, 10), 0.34868, 0.1216);
    PowAdd(0.9, 20, 20);
    ProductBound(Pow(0.9, 20), 0.1216, Pow(0.9, 20), 0.1216, 0.0148);
    PowAdd(0.9, 40, 40);
    ProductBound(Pow(0.9, 40), 0.0148, Pow(0.9, 40), 0.0148, 0.00022);
    PowAdd(0.9, 80, 80);
    ProductBound(Pow(0.9, 80), 0.00022, Pow(0.9, 80), 0.00022, 0.00000005);
    PowAdd(0.9, 160, 40);
    ProductBound(Pow(0.9, 160), 0.00000005, Pow(0.9, 40), 0.0148, 0.000000001);
  }

  lemma {:induction false} ConjugateDefects(a: Matrix, d: Matrix, v: Matrix, n: nat, eps: real, w: real, hi: real)
    requires Decomposition(a, d, v, n) && NearlyDiagonal(a, v, n, eps)
    requires w == Mul(eps, eps) && hi == Mul((n - 1) as real, w)
    ensures Sum(Defects(a, Eigen(Diagonal(d, n), v), n)) <= Mul(n as real, hi)
  {
    ConjugateIsSmall(a, d, v, n, eps);
    DefectsAreOffRows(a, d, v, n);
    SmallRows(d, n, eps, w, hi);
  }

  lemma {:induction false} SmallRows(d: Matrix, n: nat, eps: real, w: real, hi: real)
    requires IsMatrix(d, n, n) && OffDiagonalBelow(d, n, eps) && w == Mul(eps, eps) && hi == Mul((n - 1) as real, w)
    ensures Sum(OffRows(d, n)) <= Mul(n as real, hi)
  {
    forall i | 0 <= i < n ensures 0.0 <= OffRows(d, n)[i] <= hi {
      SmallRow(d, n, i, eps, w);
      OffRowNonNegative(d, n, i, n);
    }
    SumBound(OffRows(d, n), hi);
  }

  lemma SumBound(x: Vector, hi: real)
    requires forall i :: 0 <= i < |x| ==> 0.0 <= x[i] <= hi
    ensures Sum(x) <= Mul(|x| as real, hi)
  {
    SumToBound(x, |x|, hi);
  }

  lemma ConjugateIsSmall(a: Matrix, d: Matrix, v: Matrix, n: nat, eps: real)
    requires Decomposition(a, d, v, n) && NearlyDiagonal(a, v, n, eps)
    ensures OffDiagonalBelow(d, n, eps)
  {
    forall i, j | 0 <= i < n && 0 <= j < n && i != j ensures Abs(d[i][j]) < eps {
      assert Form(a, v, n, i, j) == d[i][j];
    }
  }

  lemma {:induction false} ConvergedTotal(libm: Libm, xs: seq<Vector>, eps: real)
    requires ValidLibm(libm) && AllDim(xs, 5) && |xs| >= 2 && eps == 0.000000000001
    requires NearlyDiagonal(CovOfSamples(libm, xs, 5), EigenOfSamples(libm, xs, 5).vectors, 5, eps)
    ensures Sum(Defects(CovOfSamples(libm, xs, 5), EigenOfSamples(libm, xs, 5), 5)) <= Mul(5.0, Mul(4.0, Mul(eps, eps)))
  {
    var d := SamplesDecompose(libm, xs, 5);
    var e := EigenOfSamples(libm, xs, 5);
    assert e == Eigen(Diagonal(d, 5), e.vectors);
    ConjugateDefects(CovOfSamples(libm, xs, 5), d, e.vectors, 5, eps, Mul(eps, eps), Mul(4.0, Mul(eps, eps)));
  }

  lemma ConvergedNumber(total: real, eps: real)
    requires total <= Mul(5.0, Mul(4.0, Mul(eps, eps))) && eps == 0.000000000001
    ensures total <= 0.00000002
  {}

  lemma ShrunkNumber(total: real, factor: real, weight: real)
    requires factor == 0.9 && 0.0 <= weight <= 20.0 && total <= Mul(Pow(factor, 200), weight)
    ensures total <= 0.00000002
  {
    NinthsVanish();
    ProductBound(Pow(factor, 200), 0.000000001, weight, 20.0, 0.00000002);
  }

  lemma FiveNumbers()
    ensures Shrink(5) == 0.9 && Pairs(5) == 20.0
  {}

  /** For every list of rows of five features, the pairs training computes miss being eigenpairs of its
      covariance by a total squared length below `2e-8`. */
  lemma {:induction false} FiveFeaturePairs(libm: Libm, xs: seq<Vector>)
    requires ValidLibm(libm) && AllDim(xs, 5) && |xs| >= 2
    ensures Sum(Defects(CovOfSamples(libm, xs, 5), EigenOfSamples(libm, xs, 5), 5)) <= 0.00000002
  {
    var c, e := CovOfSamples(libm, xs, 5), EigenOfSamples(libm, xs, 5);
    var total := Sum(Defects(c, e, 5));
    TrainedPairs(libm, xs, 5);
    FiveNumbers();
    if NearlyDiagonal(c, e.vectors, 5, 0.000000000001) {
      ConvergedTotal(libm, xs, 0.000000000001);
      ConvergedNumber(total, 0.000000000001);
    } else {
      OffWeightBound(libm, xs, 5);
      OffSqNonNegative(c, 5);
      ShrunkNumber(total, Shrink(5), OffSq(c, 5));
    }
  }

  // ---------------------------------------------------------------- the components of an artifact

  /** `A x - value x`. */
  function EigenDefect(a: Matrix, n: nat, x: Vector, value: real): (r: Vector)
    requires IsMatrix(a, n, n) && |x| == n
    ensures |r| == n && forall k :: 0 <= k < n ==> r[k] == Mix(1.0, Dot(a[k], x), -value, x[k])
  {
    seq(n, k requires 0 <= k < n => Mix(1.0, Dot(a[k], x), -value, x[k]))
  }

  lemma SignedMix(s: real, p: real, value: real, x: real)
    ensures Mix(1.0, Mul(s, p), -value, Mul(x, s)) == Mul(s, Mix(1.0, p, -value, x))
  {}

  lemma {:induction false} SignedNorm(r: Vector, t: Vector, s: real, m: nat)
    requires m <= |r| == |t| && (s == 1.0 || s == -1.0) && forall k :: 0 <= k < |r| ==> t[k] == Mul(s, r[k])
    ensures DotTo(t, t, m) == DotTo(r, r, m)
  {
    if m > 0 {
      SignedNorm(r, t, s, m - 1);
      SignSquare(s, r[m-1]);
    }
  }

  lemma {:induction false} DefectIgnoresSign(a: Matrix, n: nat, u: Vector, value: real)
    requires IsMatrix(a, n, n) && |u| == n > 0
    ensures NormSq(EigenDefect(a, n, WithSign(u), value)) == NormSq(EigenDefect(a, n, u, value))
  {
    var r, t, s := EigenDefect(a, n, u, value), EigenDefect(a, n, WithSign(u), value), SignOf(u);
    forall k | 0 <= k < n ensures t[k] == Mul(s, r[k]) {
      SignedDot(u, a[k]);
      SignedMix(s, Dot(a[k], u), value, u[k]);
    }
    SignedNorm(r, t, s, n);
  }

  lemma {:induction false} EntryWithinSum(x: Vector, m: nat, i: nat)
    requires i < m <= |x| && forall k :: 0 <= k < |x| ==> x[k] >= 0.0
    ensures x[i] <= SumTo(x, m)
  {
    SumToNonNegative(x, m - 1);
    if i < m - 1 { EntryWithinSum(x, m - 1, i); }
  }

  lemma {:induction false} PairWithinTotal(a: Matrix, e: Eigen, n: nat, idx: nat)
    requires IsMatrix(a, n, n) && |e.values| == n && IsMatrix(e.vectors, n, n) && idx < n
    ensures NormSq(EigenDefect(a, n, Column(e.vectors, n, n, idx), e.values[idx])) <= Sum(Defects(a, e, n))
  {
    forall k | 0 <= k < n ensures Defects(a, e, n)[k] >= 0.0 {
      NormSqNonNegative(Defect(a, e.vectors, n, k, e.values[k]), n);
    }
    EntryWithinSum(Defects(a, e, n), n, idx);
    assert EigenDefect(a, n, Column(e.vectors, n, n, idx), e.values[idx])
        == Defect(a, e.vectors, n, idx, e.values[idx]);
  }

  lemma {:induction false} ComponentDefect(libm: Libm, xs: seq<Vector>, i: nat)
    requires ValidLibm(libm) && AllDim(xs, 5) && |xs| >= 2 && i < 5
    ensures var c, e := CovOfSamples(libm, xs, 5), EigenOfSamples(libm, xs, 5);
      NormSq(EigenDefect(c, 5, ComponentOf(e, 5, i), ExplainedOf(e, 5, 5)[i])) <= 0.00000002
  {
    var c, e := CovOfSamples(libm, xs, 5), EigenOfSamples(libm, xs, 5);
    var idx := ArgsortDesc(e.values)[i];
    FiveFeaturePairs(libm, xs);
    PairWithinTotal(c, e, 5, idx);
    DefectIgnoresSign(c, 5, Column(e.vectors, 5, 5, idx), e.values[idx]);
  }

  /** For every training list of five features: each component of the trained artifact, with its explained
      variance, is an eigenpair of the covariance of the standardised rows up to a squared error of
      `2e-8`. */
  lemma {:induction false} TrainedComponents(libm: Libm, xs: seq<Vector>, k: nat, p: real, i: nat)
    requires Trainable(libm, xs, 5, k) && i < k
    ensures var r := Train(libm, xs, xs, xs, 5, k, p);
      && r.Success? && |r.value.components| == k == |r.value.explainedVariance|
      && NormSq(EigenDefect(CovOfSamples(libm, xs, 5), 5, r.value.components[i], r.value.explainedVariance[i]))
         <= 0.00000002
  {
    ComponentDefect(libm, xs, i);
    ArtifactPair(libm, xs, 5, k, p, i);
  }

  lemma {:induction false} ArtifactPair(libm: Libm, xs: seq<Vector>, dim: nat, k: nat, p: real, i: nat)
    requires Trainable(libm, xs, dim, k) && i < k
    ensures var r, e := Train(libm, xs, xs, xs, dim, k, p), EigenOfSamples(libm, xs, dim);
      && r.Success? && |r.value.components| == k == |r.value.explainedVariance|
      && r.value.components[i] == ComponentOf(e, dim, i)
      && r.value.explainedVariance[i] == ExplainedOf(e, dim, dim)[i]
  {}
}
