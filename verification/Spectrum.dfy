/** The scaled covariance matrix of a sample stream and its eigenvalues. */
module Spectrum {
  import opened Linalg
  import opened Jacobi
  import opened EigenSym
  import opened RunningStatistics
  import opened PcaSpec
  import opened Reconstruction

  // ---------------------------------------------------------------- a Gram matrix is positive

  /** The sum over the rows of `z[i] * z[j]`. */
  function GramMatrix(zs: seq<Vector>, dim: nat): (g: Matrix)
    requires AllDim(zs, dim)
    ensures IsMatrix(g, dim, dim)
    ensures forall i, j :: 0 <= i < dim && 0 <= j < dim ==> g[i][j] == CoMoment(zs, dim, i, 0.0, j, 0.0)
  {
    seq(dim, i requires 0 <= i < dim => seq(dim, j requires 0 <= j < dim => CoMoment(zs, dim, i, 0.0, j, 0.0)))
  }

  function SumOfSquares(zs: seq<Vector>, dim: nat, w: Vector): real
    requires AllDim(zs, dim) && |w| == dim
  {
    if zs == [] then 0.0
    else SumOfSquares(zs[..|zs|-1], dim, w) + Mul(Dot(zs[|zs|-1], w), Dot(zs[|zs|-1], w))
  }

  lemma MixOuter(g: real, a: real, b: real)
    ensures g + Mul(a - 0.0, b - 0.0) == Mix(1.0, g, a, b)
  {}

  lemma MixSwap(g: real, a: real, b: real)
    ensures Mix(1.0, g, a, b) == Mix(1.0, g, b, a) == g + Mul(a, b)
  {}

  /** The quadratic form of a Gram matrix is a sum of squares. */
  lemma {:induction false} GramQuadratic(zs: seq<Vector>, dim: nat, w: Vector)
    requires AllDim(zs, dim) && |w| == dim
    ensures Dot(w, MatVecOf(GramMatrix(zs, dim), dim, dim, w)) == SumOfSquares(zs, dim, w)
  {
    var g := GramMatrix(zs, dim);
    var gw := MatVecOf(g, dim, dim, w);
    if zs == [] {
      forall i | 0 <= i < dim ensures gw[i] == 0.0 { DotToZero(g[i], w, dim); }
      DotToZero(gw, w, dim);
      DotSymmetric(gw, w);
    } else {
      var ys, z := zs[..|zs|-1], zs[|zs|-1];
      var h := GramMatrix(ys, dim);
      var hw := MatVecOf(h, dim, dim, w);
      GramQuadratic(ys, dim, w);
      forall i | 0 <= i < dim ensures gw[i] == Mix(1.0, hw[i], Dot(z, w), z[i]) {
        forall k | 0 <= k < dim ensures g[i][k] == Mix(1.0, h[i][k], z[i], z[k]) {
          MixOuter(h[i][k], z[i], z[k]);
        }
        DotCombine(g[i], 1.0, h[i], z[i], z, w);
        MixSwap(hw[i], z[i], Dot(z, w));
      }
      DotCombine(gw, 1.0, hw, Dot(z, w), z, w);
      DotSymmetric(w, z);
      MixSwap(Dot(w, hw), Dot(z, w), Dot(z, w));
    }
  }

  lemma {:induction false} SumOfSquaresNonNegative(zs: seq<Vector>, dim: nat, w: Vector)
    requires AllDim(zs, dim) && |w| == dim
    ensures SumOfSquares(zs, dim, w) >= 0.0
  {
    if zs != [] {
      SumOfSquaresNonNegative(zs[..|zs|-1], dim, w);
      AddSquare(SumOfSquares(zs[..|zs|-1], dim, w), Dot(zs[|zs|-1], w));
    }
  }

  // ---------------------------------------------------------------- the covariance is a Gram matrix

  function StandardiseAll(xs: seq<Vector>, dim: nat, mean: Vector, scale: Vector): (zs: seq<Vector>)
    requires AllDim(xs, dim) && |mean| == |scale| == dim && NonZero(scale)
    ensures |zs| == |xs| && AllDim(zs, dim)
    ensures forall k :: 0 <= k < |xs| ==> zs[k] == Standardise(xs[k], mean, scale)
  {
    seq(|xs|, k requires 0 <= k < |xs| => Standardise(xs[k], mean, scale))
  }

  lemma ProductOfQuotients(u: real, a: real, w: real, b: real)
    requires a != 0.0 && b != 0.0 && Mul(a, b) != 0.0
    ensures Mul(Quot(u, a) - 0.0, Quot(w, b) - 0.0) == Quot(Mul(u, w), Mul(a, b))
  {
    var p, q := u / a, w / b;
    assert p * a == u && q * b == w;
    assert (p * q) * (a * b) == u * w by { assert (p * q) * (a * b) == (p * a) * (q * b); }
  }

  lemma QuotientOfSum(u: real, w: real, d: real)
    requires d != 0.0
    ensures Quot(u + w, d) == Quot(u, d) + Quot(w, d)
  {}

  lemma {:induction false} StandardisedMoment(xs: seq<Vector>, dim: nat, mean: Vector, scale: Vector,
                                              i: nat, j: nat, d: real)
    requires AllDim(xs, dim) && |mean| == |scale| == dim && NonZero(scale) && i < dim && j < dim
    requires d == Mul(scale[i], scale[j]) && d != 0.0
    ensures CoMoment(StandardiseAll(xs, dim, mean, scale), dim, i, 0.0, j, 0.0)
         == Quot(CoMoment(xs, dim, i, mean[i], j, mean[j]), d)
  {
    if xs != [] {
      var ys, x := xs[..|xs|-1], xs[|xs|-1];
      StandardisedMoment(ys, dim, mean, scale, i, j, d);
      assert StandardiseAll(xs, dim, mean, scale)[..|xs|-1] == StandardiseAll(ys, dim, mean, scale);
      ProductOfQuotients(x[i] - mean[i], scale[i], x[j] - mean[j], scale[j]);
      QuotientOfSum(CoMoment(ys, dim, i, mean[i], j, mean[j]), Mul(x[i] - mean[i], x[j] - mean[j]), d);
    }
  }

  function CovOfSamples(libm: Libm, xs: seq<Vector>, dim: nat): (c: Matrix)
    requires AllDim(xs, dim) && |xs| >= 2
    ensures IsMatrix(c, dim, dim)
  {
    var s := Accumulate(xs, dim);
    CovOf(s, dim, ScaleOf(libm, s, dim))
  }

  lemma CovSymmetric(libm: Libm, xs: seq<Vector>, dim: nat)
    requires AllDim(xs, dim) && |xs| >= 2
    ensures IsSymmetric(CovOfSamples(libm, xs, dim), dim)
  {
    M2Symmetric(xs, dim);
    var s := Accumulate(xs, dim);
    var scale := ScaleOf(libm, s, dim);
    forall i, j | 0 <= i < dim && 0 <= j < dim
      ensures CovOfSamples(libm, xs, dim)[i][j] == CovOfSamples(libm, xs, dim)[j][i]
    {
      assert Mul(scale[i], scale[j]) == Mul(scale[j], scale[i]);
      assert s.m2[i][j] == s.m2[j][i];
    }
  }

  lemma DivideTwice(m: real, k: real, d: real)
    requires k > 0.0 && d != 0.0
    ensures Quot(Quot(m, k), d) == Mul(Quot(1.0, k), Quot(m, d))
  {
    var u := m / k / d;
    var w := m / d;
    assert u * d == m / k && (u * d) * k == m;
    assert w * d == m;
    assert (u * k) * d == w * d;
    assert u * k == w;
    assert (1.0 / k) * k == 1.0;
    assert ((1.0 / k) * w) == (1.0 / k) * k * u;
  }

  /** The scaled covariance is the Gram matrix of the standardised rows, over `n - 1`. */
  lemma CovIsGram(libm: Libm, xs: seq<Vector>, dim: nat, i: nat, j: nat)
    requires AllDim(xs, dim) && |xs| >= 2 && i < dim && j < dim
    ensures var s := Accumulate(xs, dim);
      var zs := StandardiseAll(xs, dim, s.mean, ScaleOf(libm, s, dim));
      CovOfSamples(libm, xs, dim)[i][j] == Mul(Quot(1.0, (|xs| - 1) as real), GramMatrix(zs, dim)[i][j])
  {
    var s := Accumulate(xs, dim);
    var scale := ScaleOf(libm, s, dim);
    OnePassIsTwoPass(xs, dim, i, j);
    NonZeroProduct(scale[i], scale[j]);
    StandardisedMoment(xs, dim, s.mean, scale, i, j, Mul(scale[i], scale[j]));
    DivideTwice(s.m2[i][j], (|xs| - 1) as real, Mul(scale[i], scale[j]));
  }

  /** The standardised training rows. */
  function RowsOf(libm: Libm, xs: seq<Vector>, dim: nat): (zs: seq<Vector>)
    requires AllDim(xs, dim) && |xs| >= 2
    ensures |zs| == |xs| && AllDim(zs, dim)
  {
    var s := Accumulate(xs, dim);
    StandardiseAll(xs, dim, s.mean, ScaleOf(libm, s, dim))
  }

  /** The quadratic form of the scaled covariance: a sum of squares over `n - 1`. */
  lemma CovQuadratic(libm: Libm, xs: seq<Vector>, dim: nat, w: Vector)
    requires AllDim(xs, dim) && |xs| >= 2 && |w| == dim
    ensures Dot(w, MatVecOf(CovOfSamples(libm, xs, dim), dim, dim, w))
         == Mul(Quot(1.0, (|xs| - 1) as real), SumOfSquares(RowsOf(libm, xs, dim), dim, w))
  {
    var zs := RowsOf(libm, xs, dim);
    var c, g, f := CovOfSamples(libm, xs, dim), GramMatrix(zs, dim), Quot(1.0, (|xs| - 1) as real);
    var cw, gw := MatVecOf(c, dim, dim, w), MatVecOf(g, dim, dim, w);
    forall i | 0 <= i < dim ensures cw[i] == Mix(f, gw[i], 0.0, gw[i]) {
      forall j | 0 <= j < dim ensures c[i][j] == Mix(f, g[i][j], 0.0, g[i][j]) {
        CovIsGram(libm, xs, dim, i, j);
        MixSingle(f, g[i][j]);
      }
      DotCombine(c[i], f, g[i], 0.0, g[i], w);
    }
    DotCombine(cw, f, gw, 0.0, gw, w);
    MixSingle(f, Dot(w, gw));
    GramQuadratic(zs, dim, w);
  }

  lemma OverPositive(k: real, x: real)
    requires k > 0.0 && x >= 0.0
    ensures Mul(Quot(1.0, k), x) >= 0.0
  {
    var f := 1.0 / k;
    NonNegativeProduct(f, x);
  }

  /** The scaled covariance of every sample stream is positive semidefinite. */
  lemma CovPositive(libm: Libm, xs: seq<Vector>, dim: nat, w: Vector)
    requires AllDim(xs, dim) && |xs| >= 2 && |w| == dim
    ensures Dot(w, MatVecOf(CovOfSamples(libm, xs, dim), dim, dim, w)) >= 0.0
  {
    var zs := RowsOf(libm, xs, dim);
    CovQuadratic(libm, xs, dim, w);
    SumOfSquaresNonNegative(zs, dim, w);
    OverPositive((|xs| - 1) as real, SumOfSquares(zs, dim, w));
  }

  // ---------------------------------------------------------------- the diagonal counts features

  /** Every row has the same value of feature `i`. */
  ghost predicate Constant(xs: seq<Vector>, dim: nat, i: nat)
    requires AllDim(xs, dim) && i < dim
  {
    forall k :: 0 <= k < |xs| ==> xs[k][i] == xs[0][i]
  }

  lemma {:induction false} SpreadNonNegative(xs: seq<Vector>, dim: nat, i: nat, a: real)
    requires AllDim(xs, dim) && i < dim
    ensures CoMoment(xs, dim, i, a, i, a) >= 0.0
    ensures (exists k :: 0 <= k < |xs| && xs[k][i] != a) ==> CoMoment(xs, dim, i, a, i, a) > 0.0
    ensures (forall k :: 0 <= k < |xs| ==> xs[k][i] == a) ==> CoMoment(xs, dim, i, a, i, a) == 0.0
  {
    if xs != [] {
      var ys, x := xs[..|xs|-1], xs[|xs|-1];
      SpreadNonNegative(ys, dim, i, a);
      AddSquare(CoMoment(ys, dim, i, a, i, a), x[i] - a);
      if exists k :: 0 <= k < |xs| && xs[k][i] != a {
        var k :| 0 <= k < |xs| && xs[k][i] != a;
        assert k < |ys| ==> ys[k][i] != a;
      }
    }
  }

  lemma {:induction false} ConstantSum(xs: seq<Vector>, dim: nat, i: nat, a: real)
    requires AllDim(xs, dim) && i < dim && forall k :: 0 <= k < |xs| ==> xs[k][i] == a
    ensures ColumnSum(xs, dim, i) == Mul(|xs| as real, a)
  {
    if xs != [] { ConstantSum(xs[..|xs|-1], dim, i, a); }
  }

  lemma SameMultiple(n: real, a: real, b: real)
    requires n > 0.0 && Mul(n, a) == Mul(n, b)
    ensures a == b
  {}

  /** A feature's second moment vanishes exactly when the feature is constant. */
  lemma SpreadVanishes(xs: seq<Vector>, dim: nat, i: nat)
    requires AllDim(xs, dim) && i < dim && xs != []
    ensures var m := Accumulate(xs, dim).m2[i][i]; m >= 0.0 && (m == 0.0 <==> Constant(xs, dim, i))
  {
    var mean := Accumulate(xs, dim).mean[i];
    OnePassIsTwoPass(xs, dim, i, i);
    SpreadNonNegative(xs, dim, i, mean);
    if Constant(xs, dim, i) {
      DeviationsCancel(xs, dim, i);
      ConstantSum(xs, dim, i, xs[0][i]);
      SameMultiple(|xs| as real, xs[0][i], mean);
    } else {
      var k :| 0 <= k < |xs| && xs[k][i] != xs[0][i];
      assert xs[k][i] != mean || xs[0][i] != mean;
    }
  }

  lemma SelfQuotient(x: real)
    requires x != 0.0
    ensures Quot(x, x) == 1.0
  {}

  lemma OwnSquare(m: real, k: real, t: real)
    requires k > 0.0 && t >= 0.0 && t * t == Quot(m, k)
    ensures t != 0.0 ==> m != 0.0 && Mul(t, t) != 0.0 && Quot(Quot(m, k), Mul(t, t)) == 1.0
    ensures t == 0.0 ==> m == 0.0 && Quot(Quot(m, k), Mul(1.0, 1.0)) == 0.0
  {
    if t != 0.0 {
      Positive(t, t, Mul(t, t));
      SelfQuotient(Mul(t, t));
      assert Quot(m, k) == Mul(t, t);
    } else {
      assert m / k == 0.0;
    }
  }

  /** The scale of a feature is its sample standard deviation, or one if the feature is constant. */
  lemma ScaleMeans(libm: Libm, xs: seq<Vector>, dim: nat, i: nat)
    requires IsSqrt(libm.sqrt) && AllDim(xs, dim) && |xs| >= 2 && i < dim
    ensures var s := ScaleOf(libm, Accumulate(xs, dim), dim)[i];
      && s > 0.0 && (Constant(xs, dim, i) ==> s == 1.0)
      && (!Constant(xs, dim, i) ==> Mul(Mul(s, s), (|xs| - 1) as real) == Accumulate(xs, dim).m2[i][i])
  {
    SpreadVanishes(xs, dim, i);
    ScaleEntryMeans(libm, Accumulate(xs, dim).m2[i][i], |xs|, (|xs| - 1) as real);
  }

  lemma ScaleEntryMeans(libm: Libm, m: real, n: nat, k: real)
    requires IsSqrt(libm.sqrt) && m >= 0.0 && n >= 2 && k == (n - 1) as real
    ensures var s := ScaleEntry(libm, m, n); s > 0.0 && if m == 0.0 then s == 1.0 else Mul(Mul(s, s), k) == m
  {
    NonNegativeQuotient(m, k);
    RootTimes(m, k, libm.sqrt(Quot(m, k)));
  }

  lemma NonNegativeQuotient(m: real, k: real)
    requires m >= 0.0 && k > 0.0
    ensures Quot(m, k) >= 0.0
  {}

  lemma RootTimes(m: real, k: real, t: real)
    requires k > 0.0 && t >= 0.0 && t * t == Quot(m, k)
    ensures Mul(Mul(t, t), k) == m && (t == 0.0 <==> m == 0.0)
  {
    if t > 0.0 { Positive(t, t, Mul(t, t)); }
  }

  lemma UnitDiagonal(libm: Libm, xs: seq<Vector>, dim: nat, i: nat)
    requires IsSqrt(libm.sqrt) && AllDim(xs, dim) && |xs| >= 2 && i < dim
    ensures CovOfSamples(libm, xs, dim)[i][i] == if Constant(xs, dim, i) then 0.0 else 1.0
  {
    var m, k := Accumulate(xs, dim).m2[i][i], (|xs| - 1) as real;
    SpreadVanishes(xs, dim, i);
    assert Quot(m, k) >= 0.0;
    OwnSquare(m, k, libm.sqrt(Quot(m, k)));
  }

  /** How many of the first `m` features are not constant. */
  ghost function Varying(xs: seq<Vector>, dim: nat, m: nat): nat
    requires AllDim(xs, dim) && m <= dim
  {
    if m == 0 then 0 else Varying(xs, dim, m - 1) + if Constant(xs, dim, m - 1) then 0 else 1
  }

  lemma {:induction false} OnesCount(xs: seq<Vector>, dim: nat, diagonal: Vector, m: nat)
    requires AllDim(xs, dim) && m <= dim == |diagonal|
    requires forall i :: 0 <= i < dim ==> diagonal[i] == if Constant(xs, dim, i) then 0.0 else 1.0
    ensures SumTo(diagonal, m) == Varying(xs, dim, m) as real
  {
    if m > 0 { OnesCount(xs, dim, diagonal, m - 1); }
  }

  lemma TraceCounts(libm: Libm, xs: seq<Vector>, dim: nat)
    requires IsSqrt(libm.sqrt) && AllDim(xs, dim) && |xs| >= 2
    ensures Trace(CovOfSamples(libm, xs, dim), dim) == Varying(xs, dim, dim) as real
  {
    var c := CovOfSamples(libm, xs, dim);
    forall i | 0 <= i < dim ensures Diagonal(c, dim)[i] == if Constant(xs, dim, i) then 0.0 else 1.0 {
      UnitDiagonal(libm, xs, dim, i);
    }
    OnesCount(xs, dim, Diagonal(c, dim), dim);
  }

  // ---------------------------------------------------------------- eigenvalues

  function SumAt(v: Vector, order: seq<nat>): real
    requires Indices(order, |v|)
  {
    if order == [] then 0.0 else v[order[0]] + SumAt(v, order[1..])
  }

  lemma {:induction false} SumAtInsert(v: Vector, order: seq<nat>, i: nat)
    requires i < |v| && Indices(order, |v|)
    ensures SumAt(v, InsertIndex(v, order, i)) == SumAt(v, order) + v[i]
  {
    if order == [] || Before(v, i, order[0]) { assert ([i] + order)[1..] == order; }
    else {
      SumAtInsert(v, order[1..], i);
      assert InsertIndex(v, order, i)[1..] == InsertIndex(v, order[1..], i);
    }
  }

  lemma {:induction false} SumAtArgsort(v: Vector, n: nat)
    requires n <= |v|
    ensures SumAt(v, ArgsortTo(v, n)) == SumTo(v, n)
  {
    if n > 0 {
      SumAtArgsort(v, n - 1);
      SumAtInsert(v, ArgsortTo(v, n - 1), n - 1);
    }
  }

  lemma {:induction false} SumAtAppend(v: Vector, a: seq<nat>, i: nat)
    requires Indices(a, |v|) && i < |v|
    ensures SumAt(v, a + [i]) == SumAt(v, a) + v[i]
  {
    if a != [] {
      assert (a + [i])[1..] == a[1..] + [i];
      SumAtAppend(v, a[1..], i);
    }
  }

  lemma {:induction false} SumOfSelected(v: Vector, order: seq<nat>, picked: Vector, m: nat)
    requires Indices(order, |v|) && m <= |order| == |picked|
    requires forall i :: 0 <= i < |order| ==> picked[i] == v[order[i]]
    ensures SumTo(picked, m) == SumAt(v, order[..m])
  {
    if m > 0 {
      SumOfSelected(v, order, picked, m - 1);
      assert order[..m] == order[..m-1] + [order[m-1]];
      SumAtAppend(v, order[..m-1], order[m-1]);
    }
  }

  ghost predicate DecomposesCov(libm: Libm, xs: seq<Vector>, dim: nat, d: Matrix, e: Eigen)
    requires AllDim(xs, dim) && |xs| >= 2
  {
    && IsMatrix(d, dim, dim) && Decomposition(CovOfSamples(libm, xs, dim), d, e.vectors, dim)
    && e.values == Diagonal(d, dim) && Trace(d, dim) == Trace(CovOfSamples(libm, xs, dim), dim)
  }

  /** The eigenpairs of a sample stream diagonalise its covariance, whether or not the iteration
      limit cut the loop short. */
  lemma SamplesDecompose(libm: Libm, xs: seq<Vector>, dim: nat) returns (d: Matrix)
    requires IsAngle(libm.angle) && AllDim(xs, dim) && |xs| >= 2
    ensures DecomposesCov(libm, xs, dim, d, EigenOfSamples(libm, xs, dim))
  {
    var c := CovOfSamples(libm, xs, dim);
    CovSymmetric(libm, xs, dim);
    DiagonaliseDecomposes(libm, c, dim, MAX_ITER, EPS);
    d := Diagonalise(libm, c, dim, MAX_ITER, EPS).d;
  }

  lemma EigenvaluesNonNegative(libm: Libm, xs: seq<Vector>, dim: nat, d: Matrix, e: Eigen, i: nat)
    requires AllDim(xs, dim) && |xs| >= 2 && DecomposesCov(libm, xs, dim, d, e) && i < dim
    ensures e.values[i] >= 0.0
  {
    CovPositive(libm, xs, dim, Column(e.vectors, dim, dim, i));
  }

  /** For every sample stream the explained variances are non-negative and descending, and over all
      components they sum to the number of features that vary. */
  lemma ExplainedVariances(libm: Libm, xs: seq<Vector>, dim: nat, k: nat)
    requires ValidLibm(libm) && AllDim(xs, dim) && |xs| >= 2 && k <= dim
    ensures var ev := ExplainedOf(EigenOfSamples(libm, xs, dim), dim, k);
      && (forall i :: 0 <= i < k ==> ev[i] >= 0.0)
      && (forall i, j :: 0 <= i < j < k ==> ev[i] >= ev[j])
      && (k == dim ==> Sum(ev) == Varying(xs, dim, dim) as real)
  {
    var e := EigenOfSamples(libm, xs, dim);
    var order, ev := ArgsortDesc(e.values), ExplainedOf(e, dim, k);
    var d := SamplesDecompose(libm, xs, dim);
    ArgsortFacts(e.values);
    forall i | 0 <= i < k ensures ev[i] >= 0.0 { EigenvaluesNonNegative(libm, xs, dim, d, e, order[i]); }
    if k == dim {
      SumOfSelected(e.values, order, ev, dim);
      assert order[..dim] == order;
      SumAtArgsort(e.values, dim);
      TraceCounts(libm, xs, dim);
    }
  }

  // ---------------------------------------------------------------- variances and what is left unexplained

  /** The squared length of what the first `m` components leave, summed over the rows. */
  function RestSum(c: Matrix, dim: nat, zs: seq<Vector>, m: nat): real
    requires IsMatrix(c, |c|, dim) && AllDim(zs, dim) && m <= |c|
  {
    if zs == [] then 0.0
    else RestSum(c, dim, zs[..|zs|-1], m) + NormSq(Rest(c, dim, zs[|zs|-1], m))
  }

  lemma {:induction false} RestSumStep(c: Matrix, dim: nat, zs: seq<Vector>, m: nat)
    requires IsMatrix(c, |c|, dim) && AllDim(zs, dim) && 0 < m <= |c| && OrthonormalList(c, dim)
    ensures RestSum(c, dim, zs, m) == RestSum(c, dim, zs, m - 1) - SumOfSquares(zs, dim, c[m-1])
  {
    if zs != [] {
      var z := zs[|zs|-1];
      RestSumStep(c, dim, zs[..|zs|-1], m);
      RestNorm(c, dim, z, m);
      DotSymmetric(z, c[m-1]);
    }
  }

  lemma SignSquare(s: real, x: real)
    requires s == 1.0 || s == -1.0
    ensures Mul(Mul(s, x), Mul(s, x)) == Mul(x, x)
  {}

  lemma {:induction false} SquaresIgnoreSign(zs: seq<Vector>, dim: nat, u: Vector)
    requires AllDim(zs, dim) && |u| == dim > 0
    ensures SumOfSquares(zs, dim, WithSign(u)) == SumOfSquares(zs, dim, u)
  {
    if zs != [] {
      var z := zs[|zs|-1];
      SquaresIgnoreSign(zs[..|zs|-1], dim, u);
      SignedDot(u, z);
      SignSquare(SignOf(u), Dot(z, u));
    }
  }

  lemma TimesBack(k: real, x: real, y: real)
    requires k > 0.0 && y == Mul(Quot(1.0, k), x)
    ensures x == Mul(k, y)
  {
    assert k * (1.0 / k) == 1.0;
    assert k * ((1.0 / k) * x) == (k * (1.0 / k)) * x;
  }

  /** The squared projections of the rows on component `i` sum to `n - 1` times its explained variance. */
  lemma {:induction false} ProjectionVariance(libm: Libm, xs: seq<Vector>, dim: nat, i: nat)
    requires IsAngle(libm.angle) && AllDim(xs, dim) && |xs| >= 2 && i < dim
    ensures var e := EigenOfSamples(libm, xs, dim);
      SumOfSquares(RowsOf(libm, xs, dim), dim, ComponentOf(e, dim, i))
        == Mul((|xs| - 1) as real, ExplainedOf(e, dim, dim)[i])
  {
    var e, zs := EigenOfSamples(libm, xs, dim), RowsOf(libm, xs, dim);
    var u := Column(e.vectors, dim, dim, ArgsortDesc(e.values)[i]);
    var d := SamplesDecompose(libm, xs, dim);
    SquaresIgnoreSign(zs, dim, u);
    CovQuadratic(libm, xs, dim, u);
    TimesBack((|xs| - 1) as real, SumOfSquares(zs, dim, u), ExplainedOf(e, dim, dim)[i]);
  }

  lemma TakeAway(k: real, rest: real, before: real, sq: real, ev: real, sum: real, total: real)
    requires rest == before - sq && sq == Mul(k, ev) && before + Mul(k, sum) == total
    ensures rest + Mul(k, sum + ev) == total
  {}

  /** Rows whose squared projections on each component sum to `n` times a given variance. */
  ghost predicate Projects(c: Matrix, dim: nat, zs: seq<Vector>, ev: Vector, n: real)
    requires IsMatrix(c, |c|, dim) && AllDim(zs, dim)
  {
    |ev| == |c| && forall i :: 0 <= i < |c| ==> SumOfSquares(zs, dim, c[i]) == Mul(n, ev[i])
  }

  lemma {:induction false} RestSumExplained(c: Matrix, dim: nat, zs: seq<Vector>, ev: Vector, n: real, m: nat)
    requires IsMatrix(c, |c|, dim) && AllDim(zs, dim) && OrthonormalList(c, dim) && Projects(c, dim, zs, ev, n)
    requires m <= |c|
    ensures RestSum(c, dim, zs, m) + Mul(n, SumTo(ev, m)) == RestSum(c, dim, zs, 0)
  {
    if m > 0 {
      RestSumExplained(c, dim, zs, ev, n, m - 1);
      RestSumStep(c, dim, zs, m);
      TakeAway(n, RestSum(c, dim, zs, m), RestSum(c, dim, zs, m - 1), SumOfSquares(zs, dim, c[m-1]),
               ev[m-1], SumTo(ev, m - 1), RestSum(c, dim, zs, 0));
    } else {
      assert Mul(n, 0.0) == 0.0;
    }
  }

  /** The variation of `n` rows of which `varying` features vary, less the explained part. */
  function Unaccounted(n: nat, varying: nat, explained: real): real
    requires n > 0
  {
    Mul((n - 1) as real, varying as real - explained)
  }

  /** Orthonormal components that explain all variation of `n` rows of which `varying` features vary. */
  ghost predicate Spectral(c: Matrix, dim: nat, zs: seq<Vector>, ev: Vector, n: nat, varying: nat) {
    && IsMatrix(c, |c|, dim) && AllDim(zs, dim) && OrthonormalList(c, dim) && n > 0
    && Projects(c, dim, zs, ev, (n - 1) as real)
    && RestSum(c, dim, zs, |c|) == 0.0 && Sum(ev) == varying as real
  }

  lemma {:induction false} RestSumRemaining(c: Matrix, dim: nat, zs: seq<Vector>, ev: Vector, n: nat, varying: nat,
                                            k: nat)
    requires Spectral(c, dim, zs, ev, n, varying) && k <= |c|
    ensures RestSum(c, dim, zs, k) == Unaccounted(n, varying, SumTo(ev, k))
  {
    var f := (n - 1) as real;
    RestSumExplained(c, dim, zs, ev, f, k);
    RestSumExplained(c, dim, zs, ev, f, |c|);
    Remaining(f, RestSum(c, dim, zs, k), RestSum(c, dim, zs, 0), SumTo(ev, k), varying as real);
  }

  lemma {:induction false} RestSumAll(e: Eigen, dim: nat, zs: seq<Vector>)
    requires |e.values| == dim && IsMatrix(e.vectors, dim, dim) && AllDim(zs, dim)
    requires OrthonormalColumns(e.vectors, dim) && Complete(e.vectors, dim)
    ensures RestSum(ComponentsOf(e, dim, dim), dim, zs, dim) == 0.0
  {
    if zs != [] {
      RestSumAll(e, dim, zs[..|zs|-1]);
      AllComponentsExplain(e, dim, zs[|zs|-1]);
    }
  }

  lemma Remaining(k: real, rest: real, total: real, part: real, all: real)
    requires rest + Mul(k, part) == total && Mul(k, all) == total
    ensures rest == Mul(k, all - part)
  {}

  lemma {:induction false} SamplesProject(libm: Libm, xs: seq<Vector>, dim: nat)
    requires IsAngle(libm.angle) && AllDim(xs, dim) && |xs| >= 2
    ensures var e, zs := EigenOfSamples(libm, xs, dim), RowsOf(libm, xs, dim);
      var c := ComponentsOf(e, dim, dim);
      && OrthonormalList(c, dim) && Projects(c, dim, zs, ExplainedOf(e, dim, dim), (|xs| - 1) as real)
      && RestSum(c, dim, zs, dim) == 0.0
  {
    var e, zs := EigenOfSamples(libm, xs, dim), RowsOf(libm, xs, dim);
    var c, ev, n := ComponentsOf(e, dim, dim), ExplainedOf(e, dim, dim), (|xs| - 1) as real;
    var d := SamplesDecompose(libm, xs, dim);
    ComponentsOrthonormal(e, dim);
    RestSumAll(e, dim, zs);
    forall i | 0 <= i < dim ensures SumOfSquares(zs, dim, c[i]) == Mul(n, ev[i]) {
      ProjectionVariance(libm, xs, dim, i);
    }
  }

  lemma {:induction false} AllVariance(libm: Libm, xs: seq<Vector>, dim: nat)
    requires ValidLibm(libm) && AllDim(xs, dim) && |xs| >= 2
    ensures Sum(ExplainedOf(EigenOfSamples(libm, xs, dim), dim, dim)) == Varying(xs, dim, dim) as real
  {
    ExplainedVariances(libm, xs, dim, dim);
  }

  lemma {:induction false} SamplesSpectral(libm: Libm, xs: seq<Vector>, dim: nat)
    requires ValidLibm(libm) && AllDim(xs, dim) && |xs| >= 2
    ensures var e := EigenOfSamples(libm, xs, dim);
      Spectral(ComponentsOf(e, dim, dim), dim, RowsOf(libm, xs, dim), ExplainedOf(e, dim, dim), |xs|,
               Varying(xs, dim, dim))
  {
    SamplesProject(libm, xs, dim);
    AllVariance(libm, xs, dim);
  }

  /** What the first `k` components leave of the rows is `n - 1` times the variance they do not explain. */
  lemma {:induction false} UnexplainedVariance(libm: Libm, xs: seq<Vector>, dim: nat, k: nat)
    requires ValidLibm(libm) && AllDim(xs, dim) && |xs| >= 2 && k <= dim
    ensures var e := EigenOfSamples(libm, xs, dim);
      RestSum(ComponentsOf(e, dim, dim), dim, RowsOf(libm, xs, dim), k)
        == Unaccounted(|xs|, Varying(xs, dim, dim), SumTo(ExplainedOf(e, dim, dim), k))
  {
    SamplesSpectral(libm, xs, dim);
    var e := EigenOfSamples(libm, xs, dim);
    RestSumRemaining(ComponentsOf(e, dim, dim), dim, RowsOf(libm, xs, dim), ExplainedOf(e, dim, dim), |xs|,
                     Varying(xs, dim, dim), k);
  }
}
