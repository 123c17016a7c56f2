/** What `TrainPcaFromStream` computes, as functions of what its three passes deliver. */
module PcaSpec {
  import opened Contract
  import opened Linalg
  import opened EigenSym
  import opened OrderStats
  import opened RunningStatistics

  const MAX_ITER := 200
  const EPS: real := 0.000000000001

  // ---------------------------------------------------------------- vector helpers

  function VecSub(a: Vector, b: Vector): (r: Vector)
    requires |a| == |b|
    ensures |r| == |a| && forall i :: 0 <= i < |a| ==> r[i] == a[i] - b[i]
  {
    seq(|a|, i requires 0 <= i < |a| => a[i] - b[i])
  }

  function VecAdd(a: Vector, b: Vector): (r: Vector)
    requires |a| == |b|
    ensures |r| == |a| && forall i :: 0 <= i < |a| ==> r[i] == a[i] + b[i]
  {
    seq(|a|, i requires 0 <= i < |a| => a[i] + b[i])
  }

  predicate NonZero(b: Vector) { forall i :: 0 <= i < |b| ==> b[i] != 0.0 }

  function VecDiv(a: Vector, b: Vector): (r: Vector)
    requires |a| == |b| && NonZero(b)
    ensures |r| == |a| && forall i :: 0 <= i < |a| ==> r[i] == Quot(a[i], b[i])
  {
    seq(|a|, i requires 0 <= i < |a| => Quot(a[i], b[i]))
  }

  function VecScale(a: Vector, s: real): (r: Vector)
    ensures |r| == |a| && forall i :: 0 <= i < |a| ==> r[i] == Mul(a[i], s)
  {
    seq(|a|, i requires 0 <= i < |a| => Mul(a[i], s))
  }

  // ---------------------------------------------------------------- scaling and covariance

  function ScaleEntry(libm: Libm, moment: real, n: nat): (s: real)
    requires n >= 2
    ensures s != 0.0
  {
    var s := libm.sqrt(Quot(moment, (n - 1) as real));
    if s == 0.0 then 1.0 else s
  }

  function ScaleOf(libm: Libm, s: Moments, dim: nat): (r: Vector)
    requires Shaped(s, dim) && s.n >= 2
    ensures |r| == dim && NonZero(r)
    ensures forall i :: 0 <= i < dim ==> r[i] == ScaleEntry(libm, s.m2[i][i], s.n)
  {
    seq(dim, i requires 0 <= i < dim => ScaleEntry(libm, s.m2[i][i], s.n))
  }

  lemma NonZeroProduct(a: real, b: real)
    requires a != 0.0 && b != 0.0
    ensures Mul(a, b) != 0.0
  {}

  function CovEntry(m2: real, n: nat, si: real, sj: real): real
    requires n >= 2 && si != 0.0 && sj != 0.0
  {
    NonZeroProduct(si, sj);
    Quot(Quot(m2, (n - 1) as real), Mul(si, sj))
  }

  function CovOf(s: Moments, dim: nat, scale: Vector): (c: Matrix)
    requires Shaped(s, dim) && s.n >= 2 && |scale| == dim && NonZero(scale)
    ensures IsMatrix(c, dim, dim)
    ensures forall i, j :: 0 <= i < dim && 0 <= j < dim ==> c[i][j] == CovEntry(s.m2[i][j], s.n, scale[i], scale[j])
  {
    seq(dim, i requires 0 <= i < dim => seq(dim, j requires 0 <= j < dim =>
      CovEntry(s.m2[i][j], s.n, scale[i], scale[j])))
  }

  // ---------------------------------------------------------------- component selection

  /** The comparator of `argsort_desc`: larger value first, then smaller index. */
  predicate Before(v: Vector, a: nat, b: nat)
    requires a < |v| && b < |v|
  {
    if v[a] == v[b] then a < b else v[a] > v[b]
  }

  ghost predicate Indices(order: seq<nat>, n: nat) {
    forall k :: 0 <= k < |order| ==> order[k] < n
  }

  function InsertIndex(v: Vector, order: seq<nat>, i: nat): (r: seq<nat>)
    requires i < |v| && Indices(order, |v|)
    ensures Indices(r, |v|) && |r| == |order| + 1
  {
    if order == [] || Before(v, i, order[0]) then [i] + order
    else [order[0]] + InsertIndex(v, order[1..], i)
  }

  function ArgsortTo(v: Vector, n: nat): (r: seq<nat>)
    requires n <= |v|
    ensures Indices(r, |v|) && |r| == n
  {
    if n == 0 then [] else InsertIndex(v, ArgsortTo(v, n - 1), n - 1)
  }

  /** `argsort_desc`; the comparator is a strict total order, so any sort gives this list. */
  function ArgsortDesc(v: Vector): (r: seq<nat>)
    ensures Indices(r, |v|) && |r| == |v|
  {
    ArgsortTo(v, |v|)
  }

  datatype Peak = Peak(idx: nat, height: real)

  /** The first index with the largest magnitude among the first `n`, and that magnitude. */
  function PeakTo(v: Vector, n: nat): (r: Peak)
    requires n <= |v| && |v| > 0
    ensures r.idx < |v| && r.height >= 0.0
    ensures forall k :: 0 <= k < n ==> Abs(v[k]) <= r.height
    ensures if r.height > 0.0 then r.height == Abs(v[r.idx]) else r.idx == 0
  {
    if n == 0 then Peak(0, 0.0)
    else
      var best := PeakTo(v, n - 1);
      if Abs(v[n-1]) > best.height then Peak(n - 1, Abs(v[n-1])) else best
  }

  function SignOf(v: Vector): (s: real)
    requires |v| > 0
    ensures s == 1.0 || s == -1.0
  {
    if v[PeakTo(v, |v|).idx] < 0.0 then -1.0 else 1.0
  }

  /** `enforce_component_sign`. */
  function WithSign(v: Vector): (r: Vector)
    requires |v| > 0
    ensures |r| == |v| && forall k :: 0 <= k < |v| ==> r[k] == Mul(v[k], SignOf(v))
  {
    VecScale(v, SignOf(v))
  }

  lemma {:induction false} PeakIgnoresSign(v: Vector, n: nat)
    requires n <= |v| && |v| > 0
    ensures PeakTo(VecScale(v, -1.0), n) == PeakTo(v, n)
  {
    if n > 0 {
      PeakIgnoresSign(v, n - 1);
      OppositeMagnitude(v[n-1]);
    }
  }

  lemma OppositeMagnitude(x: real)
    ensures Abs(Mul(x, -1.0)) == Abs(x) && Mul(x, -1.0) == -x
  {}

  /** The sign is canonical: an eigenvector and its opposite give the same component, and the entry of
      largest magnitude (the first one) is not negative. */
  lemma SignIsCanonical(v: Vector)
    requires |v| > 0
    ensures WithSign(VecScale(v, -1.0)) == WithSign(v)
    ensures var top := WithSign(v)[PeakTo(v, |v|).idx];
      top >= 0.0 && forall k :: 0 <= k < |v| ==> Abs(WithSign(v)[k]) <= top
  {
    PeakIgnoresSign(v, |v|);
    var w, peak := VecScale(v, -1.0), PeakTo(v, |v|);
    assert w[peak.idx] == -v[peak.idx];
    forall k | 0 <= k < |v| ensures WithSign(w)[k] == WithSign(v)[k] && Abs(WithSign(v)[k]) == Abs(v[k]) {
      assert Abs(v[k]) <= peak.height;
    }
  }

  function ComponentOf(e: Eigen, dim: nat, i: nat): (r: Vector)
    requires |e.values| == dim && IsMatrix(e.vectors, dim, dim) && i < dim
    ensures |r| == dim
  {
    WithSign(Column(e.vectors, dim, dim, ArgsortDesc(e.values)[i]))
  }

  function ComponentsOf(e: Eigen, dim: nat, k: nat): (r: Matrix)
    requires |e.values| == dim && IsMatrix(e.vectors, dim, dim) && k <= dim
    ensures IsMatrix(r, k, dim)
    ensures forall i :: 0 <= i < k ==> r[i] == ComponentOf(e, dim, i)
  {
    seq(k, i requires 0 <= i < k => ComponentOf(e, dim, i))
  }

  function ExplainedOf(e: Eigen, dim: nat, k: nat): (r: Vector)
    requires |e.values| == dim && k <= dim
    ensures |r| == k && forall i :: 0 <= i < k ==> r[i] == e.values[ArgsortDesc(e.values)[i]]
  {
    seq(k, i requires 0 <= i < k => e.values[ArgsortDesc(e.values)[i]])
  }

  // ---------------------------------------------------------------- the second and third passes

  function Standardise(x: Vector, mean: Vector, scale: Vector): (r: Vector)
    requires |x| == |mean| == |scale| && NonZero(scale)
    ensures |r| == |x| && forall i :: 0 <= i < |x| ==> r[i] == Quot(x[i] - mean[i], scale[i])
  {
    VecDiv(VecSub(x, mean), scale)
  }

  function SumStandardised(xs: seq<Vector>, dim: nat, mean: Vector, scale: Vector): (r: Vector)
    requires AllDim(xs, dim) && |mean| == |scale| == dim && NonZero(scale)
    ensures |r| == dim
  {
    if xs == [] then seq(dim, _ => 0.0)
    else VecAdd(SumStandardised(xs[..|xs|-1], dim, mean, scale), Standardise(xs[|xs|-1], mean, scale))
  }

  function PcaMeanOf(xs: seq<Vector>, dim: nat, mean: Vector, scale: Vector): (r: Vector)
    requires AllDim(xs, dim) && |mean| == |scale| == dim && NonZero(scale) && xs != []
    ensures |r| == dim
  {
    VecScale(SumStandardised(xs, dim, mean, scale), Quot(1.0, |xs| as real))
  }

  /** What a trained model keeps; `components` has one row per component. */
  datatype Artifact = Artifact(
    scalerMean: Vector, scalerScale: Vector, components: Matrix, explainedVariance: Vector,
    pcaMean: Vector, threshold: real, nComponents: int)

  predicate Consistent(a: Artifact, dim: nat) {
    && |a.scalerMean| == dim && |a.scalerScale| == dim && NonZero(a.scalerScale)
    && IsMatrix(a.components, |a.components|, dim) && |a.pcaMean| == dim
  }

  /** Standardise, project, reconstruct, subtract. */
  function ResidualOf(mean: Vector, scale: Vector, components: Matrix, pcaMean: Vector, x: Vector): (r: Vector)
    requires |mean| == |scale| == |pcaMean| == |x| && NonZero(scale) && IsMatrix(components, |components|, |x|)
    ensures |r| == |x|
  {
    var dim, k := |x|, |components|;
    var scaled := Standardise(x, mean, scale);
    var proj := MatVecOf(components, k, dim, VecSub(scaled, pcaMean));
    var recon := MatVecOf(TransposeOf(components, k, dim), dim, k, proj);
    VecSub(scaled, VecAdd(recon, pcaMean))
  }

  /** The L2 norm of the residual. */
  function ErrorOf(libm: Libm, mean: Vector, scale: Vector, components: Matrix, pcaMean: Vector, x: Vector): real
    requires |mean| == |scale| == |pcaMean| == |x| && NonZero(scale) && IsMatrix(components, |components|, |x|)
  {
    libm.sqrt(NormSq(ResidualOf(mean, scale, components, pcaMean, x)))
  }

  function ErrorsOf(libm: Libm, xs: seq<Vector>, dim: nat, mean: Vector, scale: Vector, components: Matrix,
                    pcaMean: Vector): (r: seq<real>)
    requires AllDim(xs, dim) && |mean| == |scale| == |pcaMean| == dim && NonZero(scale)
    requires IsMatrix(components, |components|, dim)
    ensures |r| == |xs|
    ensures forall i :: 0 <= i < |xs| ==> r[i] == ErrorOf(libm, mean, scale, components, pcaMean, xs[i])
  {
    seq(|xs|, i requires 0 <= i < |xs| => ErrorOf(libm, mean, scale, components, pcaMean, xs[i]))
  }

  datatype TrainError = BadComponentCount | WrongDimension | NotEnoughSamples | NoSamples | NoErrors

  /** The eigenpairs of the scaled covariance of the first pass. */
  function EigenOfSamples(libm: Libm, xs: seq<Vector>, dim: nat): (e: Eigen)
    requires AllDim(xs, dim) && |xs| >= 2
    ensures |e.values| == dim && IsMatrix(e.vectors, dim, dim)
  {
    var s := Accumulate(xs, dim);
    EigenOf(libm, CovOf(s, dim, ScaleOf(libm, s, dim)), dim, MAX_ITER, EPS)
  }

  /** `TrainPcaFromStream`: `first`, `second`, `third` are what its three passes deliver. */
  function Train(libm: Libm, first: seq<Vector>, second: seq<Vector>, third: seq<Vector>, dim: nat,
                 nComponents: int, percentile: real): (r: Result<Artifact, TrainError>)
    ensures r.Success? ==> Consistent(r.value, dim)
  {
    if nComponents < 1 || nComponents > dim then Failure(BadComponentCount)
    else if !AllDim(first, dim) then Failure(WrongDimension)
    else if |first| < 2 then Failure(NotEnoughSamples)
    else if !AllDim(second, dim) then Failure(WrongDimension)
    else if second == [] then Failure(NoSamples)
    else if !AllDim(third, dim) then Failure(WrongDimension)
    else
      var s := Accumulate(first, dim);
      var scale, e := ScaleOf(libm, s, dim), EigenOfSamples(libm, first, dim);
      var components := ComponentsOf(e, dim, nComponents);
      var pcaMean := PcaMeanOf(second, dim, s.mean, scale);
      var errors := ErrorsOf(libm, third, dim, s.mean, scale, components, pcaMean);
      match PercentileValue(errors, percentile)
      case Failure(_) => Failure(NoErrors)
      case Success(threshold) =>
        Success(Artifact(s.mean, scale, components, ExplainedOf(e, dim, nComponents), pcaMean, threshold, nComponents))
  }
}
