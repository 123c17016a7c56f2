/** What training promises, for every sample list. */
module PcaTheorems {
  import opened Contract
  import opened Linalg
  import opened Jacobi
  import opened EigenSym
  import opened OrderStats
  import opened RunningStatistics
  import opened PcaSpec
  import opened Reconstruction
  import opened Spectrum

  // ---------------------------------------------------------------- the second pass

  lemma {:induction false} SumOfStandardised(xs: seq<Vector>, dim: nat, mean: Vector, scale: Vector, i: nat)
    requires AllDim(xs, dim) && |mean| == |scale| == dim && NonZero(scale) && i < dim
    ensures SumStandardised(xs, dim, mean, scale)[i] == Quot(DeviationSum(xs, dim, i, mean[i]), scale[i])
  {
    if xs == [] {
      assert Mul(0.0, mean[i]) == 0.0;
    } else {
      var ys, x := xs[..|xs|-1], xs[|xs|-1];
      SumOfStandardised(ys, dim, mean, scale, i);
      DeviationSumStep(ColumnSum(ys, dim, i), |ys|, x[i], mean[i]);
      QuotientOfSum(DeviationSum(ys, dim, i, mean[i]), x[i] - mean[i], scale[i]);
    }
  }

  /** The mean of the standardised training rows is the zero vector. */
  lemma PcaMeanIsZero(xs: seq<Vector>, dim: nat, scale: Vector)
    requires AllDim(xs, dim) && |scale| == dim && NonZero(scale) && xs != []
    ensures forall i :: 0 <= i < dim ==> PcaMeanOf(xs, dim, Accumulate(xs, dim).mean, scale)[i] == 0.0
  {
    var mean := Accumulate(xs, dim).mean;
    forall i | 0 <= i < dim ensures PcaMeanOf(xs, dim, mean, scale)[i] == 0.0 {
      DeviationsCancel(xs, dim, i);
      SumOfStandardised(xs, dim, mean, scale, i);
      assert Quot(0.0, scale[i]) == 0.0;
    }
  }

  /** Whatever mean it is given: the second pass yields how far the rows' own average lies from that mean,
      in units of the scale. */
  lemma PcaMeanMeans(xs: seq<Vector>, dim: nat, mean: Vector, scale: Vector, i: nat)
    requires AllDim(xs, dim) && |mean| == |scale| == dim && NonZero(scale) && xs != [] && i < dim
    ensures Mul(PcaMeanOf(xs, dim, mean, scale)[i], |xs| as real)
         == Quot(ColumnSum(xs, dim, i) - Mul(|xs| as real, mean[i]), scale[i])
  {
    SumOfStandardised(xs, dim, mean, scale, i);
    TimesCount(SumStandardised(xs, dim, mean, scale)[i], |xs| as real);
  }

  lemma TimesCount(sum: real, n: real)
    requires n > 0.0
    ensures Mul(Mul(sum, Quot(1.0, n)), n) == sum
  {
    var f := 1.0 / n;
    assert f * n == 1.0;
    assert (sum * f) * n == sum * (f * n);
  }

  // ---------------------------------------------------------------- reconstruction errors

  ghost predicate Trainable(libm: Libm, xs: seq<Vector>, dim: nat, k: nat) {
    ValidLibm(libm) && AllDim(xs, dim) && |xs| >= 2 && 1 <= k <= dim
  }

  /** The reconstruction error a trained model gives a row. */
  function ErrorWith(libm: Libm, a: Artifact, x: Vector): real
    requires Consistent(a, |x|)
  {
    ErrorOf(libm, a.scalerMean, a.scalerScale, a.components, a.pcaMean, x)
  }

  /** The row as the model sees it before projection. */
  function Centred(libm: Libm, xs: seq<Vector>, dim: nat, x: Vector): (r: Vector)
    requires AllDim(xs, dim) && |xs| >= 2 && |x| == dim
    ensures |r| == dim
  {
    var s := Accumulate(xs, dim);
    var scale := ScaleOf(libm, s, dim);
    VecSub(Standardise(x, s.mean, scale), PcaMeanOf(xs, dim, s.mean, scale))
  }

  /** The squared length of what the first `k` components leave of a row. */
  function Unexplained(libm: Libm, xs: seq<Vector>, dim: nat, k: nat, x: Vector): real
    requires AllDim(xs, dim) && |xs| >= 2 && |x| == dim && k <= dim
  {
    NormSq(Rest(ComponentsOf(EigenOfSamples(libm, xs, dim), dim, dim), dim, Centred(libm, xs, dim, x), k))
  }

  lemma ErrorIsUnexplained(libm: Libm, a: Artifact, full: Matrix, k: nat, x: Vector)
    requires Consistent(a, |x|) && IsMatrix(full, |full|, |x|) && k <= |full| && a.components == full[..k]
    ensures ErrorWith(libm, a, x)
         == libm.sqrt(NormSq(Rest(full, |x|, VecSub(Standardise(x, a.scalerMean, a.scalerScale), a.pcaMean), k)))
  {
    ResidualIsRest(a.scalerMean, a.scalerScale, a.components, a.pcaMean, x);
    RestPrefix(full, |x|, VecSub(Standardise(x, a.scalerMean, a.scalerScale), a.pcaMean), k, k);
  }

  lemma ComponentsPrefix(e: Eigen, dim: nat, k: nat)
    requires |e.values| == dim && IsMatrix(e.vectors, dim, dim) && k <= dim
    ensures ComponentsOf(e, dim, k) == ComponentsOf(e, dim, dim)[..k]
  {}

  lemma TrainSucceeds(libm: Libm, xs: seq<Vector>, dim: nat, k: nat, p: real)
    requires AllDim(xs, dim) && |xs| >= 2 && 1 <= k <= dim
    ensures var r, s := Train(libm, xs, xs, xs, dim, k, p), Accumulate(xs, dim);
      && r.Success? && r.value.scalerMean == s.mean && r.value.scalerScale == ScaleOf(libm, s, dim)
      && r.value.components == ComponentsOf(EigenOfSamples(libm, xs, dim), dim, k)
      && r.value.pcaMean == PcaMeanOf(xs, dim, s.mean, ScaleOf(libm, s, dim))
  {}

  /** Training succeeds exactly for a component count from one to the number of features, rows of that
      size in every pass, at least two of them in the first and one in each of the others. */
  lemma TrainSucceedsExactly(libm: Libm, first: seq<Vector>, second: seq<Vector>, third: seq<Vector>, dim: nat,
                             k: int, p: real)
    ensures Train(libm, first, second, third, dim, k, p).Success? <==>
      && 1 <= k <= dim && AllDim(first, dim) && AllDim(second, dim) && AllDim(third, dim)
      && |first| >= 2 && |second| >= 1 && |third| >= 1
    ensures var r := Train(libm, first, second, third, dim, k, p); r.Success? ==> r.value.nComponents == k
  {}

  lemma TrainedError(libm: Libm, xs: seq<Vector>, dim: nat, k: nat, p: real, x: Vector)
    requires AllDim(xs, dim) && |xs| >= 2 && 1 <= k <= dim && |x| == dim
    ensures var r := Train(libm, xs, xs, xs, dim, k, p);
      r.Success? && ErrorWith(libm, r.value, x) == libm.sqrt(Unexplained(libm, xs, dim, k, x))
  {
    TrainSucceeds(libm, xs, dim, k, p);
    var e := EigenOfSamples(libm, xs, dim);
    ComponentsPrefix(e, dim, k);
    ErrorIsUnexplained(libm, Train(libm, xs, xs, xs, dim, k, p).value, ComponentsOf(e, dim, dim), k, x);
  }

  lemma SqrtMonotone(sqrt: real -> real, x: real, y: real)
    requires IsSqrt(sqrt) && 0.0 <= x <= y
    ensures 0.0 <= sqrt(x) <= sqrt(y)
  {
    RootsOrdered(sqrt(x), sqrt(y));
  }

  lemma RootsOrdered(a: real, b: real)
    requires a >= 0.0 && b >= 0.0 && a * a <= b * b
    ensures a <= b
  {
    if a > b { Positive(a - b, a + b, a * a - b * b); }
  }

  lemma SqrtZero(sqrt: real -> real)
    requires IsSqrt(sqrt)
    ensures sqrt(0.0) == 0.0
  {
    var t := sqrt(0.0);
    if t > 0.0 { Positive(t, t, t * t); }
  }

  lemma EigenvectorsOrthonormal(libm: Libm, xs: seq<Vector>, dim: nat)
    requires IsAngle(libm.angle) && AllDim(xs, dim) && |xs| >= 2
    ensures var e := EigenOfSamples(libm, xs, dim);
      OrthonormalColumns(e.vectors, dim) && Complete(e.vectors, dim)
  {
    var d := SamplesDecompose(libm, xs, dim);
  }

  lemma UnexplainedFalls(libm: Libm, xs: seq<Vector>, dim: nat, j: nat, k: nat, x: Vector)
    requires IsAngle(libm.angle) && AllDim(xs, dim) && |xs| >= 2 && j <= k <= dim && |x| == dim
    ensures 0.0 <= Unexplained(libm, xs, dim, k, x) <= Unexplained(libm, xs, dim, j, x)
    ensures Unexplained(libm, xs, dim, dim, x) == 0.0
  {
    var e := EigenOfSamples(libm, xs, dim);
    EigenvectorsOrthonormal(libm, xs, dim);
    ComponentsOrthonormal(e, dim);
    RestShrinks(ComponentsOf(e, dim, dim), dim, Centred(libm, xs, dim, x), j, k);
    AllComponentsExplain(e, dim, Centred(libm, xs, dim, x));
  }

  /** For every row, trained or not, keeping more components never raises the error. */
  lemma ErrorFallsWithComponents(libm: Libm, xs: seq<Vector>, dim: nat, j: nat, k: nat, p: real, q: real, x: Vector)
    requires Trainable(libm, xs, dim, j) && Trainable(libm, xs, dim, k) && j <= k && |x| == dim
    ensures var few, many := Train(libm, xs, xs, xs, dim, j, p), Train(libm, xs, xs, xs, dim, k, q);
      few.Success? && many.Success? && 0.0 <= ErrorWith(libm, many.value, x) <= ErrorWith(libm, few.value, x)
  {
    TrainedError(libm, xs, dim, j, p, x);
    TrainedError(libm, xs, dim, k, q, x);
    UnexplainedFalls(libm, xs, dim, j, k, x);
    SqrtMonotone(libm.sqrt, Unexplained(libm, xs, dim, k, x), Unexplained(libm, xs, dim, j, x));
  }

  /** With every component kept every row is reconstructed exactly. */
  lemma FullModelIsExact(libm: Libm, xs: seq<Vector>, dim: nat, p: real, x: Vector)
    requires Trainable(libm, xs, dim, dim) && |x| == dim
    ensures var r := Train(libm, xs, xs, xs, dim, dim, p);
      r.Success? && ErrorWith(libm, r.value, x) == 0.0
  {
    TrainedError(libm, xs, dim, dim, p, x);
    UnexplainedFalls(libm, xs, dim, dim, dim, x);
    SqrtZero(libm.sqrt);
  }

  // ---------------------------------------------------------------- thresholds

  function ErrorsWith(libm: Libm, a: Artifact, xs: seq<Vector>, dim: nat): (r: seq<real>)
    requires Consistent(a, dim) && AllDim(xs, dim)
    ensures |r| == |xs| && forall i :: 0 <= i < |xs| ==> r[i] == ErrorWith(libm, a, xs[i])
  {
    seq(|xs|, i requires 0 <= i < |xs| => ErrorWith(libm, a, xs[i]))
  }

  lemma ThresholdIsPercentile(libm: Libm, xs: seq<Vector>, dim: nat, k: nat, p: real)
    requires Trainable(libm, xs, dim, k)
    ensures var r := Train(libm, xs, xs, xs, dim, k, p);
      r.Success? && PercentileValue(ErrorsWith(libm, r.value, xs, dim), p) == Success(r.value.threshold)
  {
    ErrorsAgree(libm, Train(libm, xs, xs, xs, dim, k, p).value, xs, dim);
  }

  lemma ErrorsAgree(libm: Libm, a: Artifact, xs: seq<Vector>, dim: nat)
    requires Consistent(a, dim) && AllDim(xs, dim)
    ensures ErrorsWith(libm, a, xs, dim)
         == ErrorsOf(libm, xs, dim, a.scalerMean, a.scalerScale, a.components, a.pcaMean)
  {}

  /** The trained threshold is non-increasing in the number of components and non-decreasing in the
      percentile. */
  lemma ThresholdMonotone(libm: Libm, xs: seq<Vector>, dim: nat, j: nat, k: nat, p: real, q: real)
    requires Trainable(libm, xs, dim, j) && Trainable(libm, xs, dim, k) && j <= k && p <= q
    ensures var high, low := Train(libm, xs, xs, xs, dim, j, q), Train(libm, xs, xs, xs, dim, k, p);
      high.Success? && low.Success? && low.value.threshold <= high.value.threshold
  {
    ThresholdIsPercentile(libm, xs, dim, j, q);
    ThresholdIsPercentile(libm, xs, dim, k, p);
    var high, low := Train(libm, xs, xs, xs, dim, j, q).value, Train(libm, xs, xs, xs, dim, k, p).value;
    var hi, lo := ErrorsWith(libm, high, xs, dim), ErrorsWith(libm, low, xs, dim);
    forall i | 0 <= i < |xs| ensures lo[i] <= hi[i] {
      ErrorFallsWithComponents(libm, xs, dim, j, k, q, p, xs[i]);
    }
    PercentileMonotone(lo, hi, p, q);
  }

  lemma PercentileMonotone(lo: seq<real>, hi: seq<real>, p: real, q: real)
    requires |lo| == |hi| > 0 && p <= q && forall i :: 0 <= i < |lo| ==> lo[i] <= hi[i]
    ensures PercentileValue(lo, p).value <= PercentileValue(hi, q).value
  {
    PercentileIndexMonotone(|lo|, p, q);
    KthOrdered(lo, PercentileIndex(|lo|, p), PercentileIndex(|lo|, q));
    KthMonotone(lo, hi, PercentileIndex(|lo|, q));
  }

  // ---------------------------------------------------------------- errors and variances

  lemma {:induction false} SumToCongruence(x: Vector, y: Vector, m: nat)
    requires m <= |x| && m <= |y| && forall i :: 0 <= i < m ==> x[i] == y[i]
    ensures SumTo(x, m) == SumTo(y, m)
  {
    if m > 0 { SumToCongruence(x, y, m - 1); }
  }

  lemma CentredIsStandardised(libm: Libm, xs: seq<Vector>, dim: nat, i: nat)
    requires AllDim(xs, dim) && |xs| >= 2 && i < |xs|
    ensures Centred(libm, xs, dim, xs[i]) == RowsOf(libm, xs, dim)[i]
  {
    PcaMeanIsZero(xs, dim, ScaleOf(libm, Accumulate(xs, dim), dim));
  }

  lemma SquareOfRoot(sqrt: real -> real, x: real, root: real)
    requires IsSqrt(sqrt) && x >= 0.0 && root == sqrt(x)
    ensures Mul(root, root) == x
  {}

  /** A training row's squared error is what the components leave of its standardised row. */
  lemma {:induction false} SquaredError(libm: Libm, xs: seq<Vector>, dim: nat, k: nat, p: real, i: nat, err: real)
    requires Trainable(libm, xs, dim, k) && i < |xs|
    requires var r := Train(libm, xs, xs, xs, dim, k, p); r.Success? && err == ErrorWith(libm, r.value, xs[i])
    ensures Mul(err, err) == Unexplained(libm, xs, dim, k, xs[i])
  {
    TrainedError(libm, xs, dim, k, p, xs[i]);
    UnexplainedFalls(libm, xs, dim, k, k, xs[i]);
    SquareOfRoot(libm.sqrt, Unexplained(libm, xs, dim, k, xs[i]), err);
  }

  function Squares(x: Vector): (r: Vector)
    ensures |r| == |x| && forall i :: 0 <= i < |x| ==> r[i] == Mul(x[i], x[i])
  {
    seq(|x|, i requires 0 <= i < |x| => Mul(x[i], x[i]))
  }

  lemma {:induction false} NormIsSum(x: Vector, m: nat)
    requires m <= |x|
    ensures DotTo(x, x, m) == SumTo(Squares(x), m)
  {
    if m > 0 { NormIsSum(x, m - 1); }
  }

  lemma {:induction false} RestSumIsSum(squares: Vector, c: Matrix, dim: nat, zs: seq<Vector>, k: nat, m: nat)
    requires IsMatrix(c, |c|, dim) && AllDim(zs, dim) && k <= |c| && m <= |zs| == |squares|
    requires forall i :: 0 <= i < |zs| ==> squares[i] == NormSq(Rest(c, dim, zs[i], k))
    ensures SumTo(squares, m) == RestSum(c, dim, zs[..m], k)
  {
    if m > 0 {
      RestSumIsSum(squares, c, dim, zs, k, m - 1);
      assert zs[..m][..m-1] == zs[..m-1];
    }
  }

  lemma {:induction false} WholeRestSum(squares: Vector, c: Matrix, dim: nat, zs: seq<Vector>, k: nat)
    requires IsMatrix(c, |c|, dim) && AllDim(zs, dim) && k <= |c| && |zs| == |squares|
    requires forall i :: 0 <= i < |zs| ==> squares[i] == NormSq(Rest(c, dim, zs[i], k))
    ensures Sum(squares) == RestSum(c, dim, zs, k)
  {
    RestSumIsSum(squares, c, dim, zs, k, |zs|);
    assert zs[..|zs|] == zs;
  }

  lemma {:induction false} SquaredRow(libm: Libm, xs: seq<Vector>, dim: nat, k: nat, p: real, i: nat, err: real)
    requires Trainable(libm, xs, dim, k) && i < |xs|
    requires var r := Train(libm, xs, xs, xs, dim, k, p); r.Success? && err == ErrorWith(libm, r.value, xs[i])
    ensures var full := ComponentsOf(EigenOfSamples(libm, xs, dim), dim, dim);
      Mul(err, err) == NormSq(Rest(full, dim, RowsOf(libm, xs, dim)[i], k))
  {
    SquaredError(libm, xs, dim, k, p, i, err);
    CentredIsStandardised(libm, xs, dim, i);
  }

  lemma {:induction false} ExplainedPrefix(libm: Libm, xs: seq<Vector>, dim: nat, k: nat, p: real)
    requires Trainable(libm, xs, dim, k)
    ensures var r := Train(libm, xs, xs, xs, dim, k, p);
      r.Success? && Sum(r.value.explainedVariance) == SumTo(ExplainedOf(EigenOfSamples(libm, xs, dim), dim, dim), k)
  {
    var e := EigenOfSamples(libm, xs, dim);
    SumToCongruence(ExplainedOf(e, dim, k), ExplainedOf(e, dim, dim), k);
  }

  /** For every training list the squared errors of its rows sum to `n - 1` times the variance the kept
      components do not explain, also when the iteration limit cut the diagonalisation short. */
  lemma {:induction false} TotalTrainingError(libm: Libm, xs: seq<Vector>, dim: nat, k: nat, p: real)
    requires Trainable(libm, xs, dim, k)
    ensures var r := Train(libm, xs, xs, xs, dim, k, p);
      r.Success? && NormSq(ErrorsWith(libm, r.value, xs, dim))
                    == Unaccounted(|xs|, Varying(xs, dim, dim), Sum(r.value.explainedVariance))
  {
    var full, zs := ComponentsOf(EigenOfSamples(libm, xs, dim), dim, dim), RowsOf(libm, xs, dim);
    var errors := ErrorsWith(libm, Train(libm, xs, xs, xs, dim, k, p).value, xs, dim);
    forall i | 0 <= i < |xs| ensures Squares(errors)[i] == NormSq(Rest(full, dim, zs[i], k)) {
      SquaredRow(libm, xs, dim, k, p, i, errors[i]);
    }
    NormIsSum(errors, |errors|);
    WholeRestSum(Squares(errors), full, dim, zs, k);
    ExplainedPrefix(libm, xs, dim, k, p);
    UnexplainedVariance(libm, xs, dim, k);
  }
}
