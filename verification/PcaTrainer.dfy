/** The training code (`TrainPcaFromStream`), proved equal to `PcaSpec.Train`.

    The elementwise helpers `vec_sub`, `vec_add`, `vec_div` and `vec_scale` are the functions of
    `PcaSpec`; the loops that carry state are loops here. */
module PcaTrainer {
  import opened Contract
  import opened Linalg
  import opened EigenSym
  import opened OrderStats
  import opened RunningStatistics
  import opened PcaSpec

  method EnforceComponentSign(v: array<real>)
    requires v.Length > 0
    modifies v
    ensures v[..] == WithSign(old(v[..]))
  {
    ghost var was := v[..];
    var idx, maxAbs := 0, 0.0;
    for i := 0 to v.Length
      invariant v[..] == was && PeakTo(was, i) == Peak(idx, maxAbs)
    {
      var absVal := Abs(v[i]);
      if absVal > maxAbs { maxAbs := absVal; idx := i; }
    }
    if v[idx] < 0.0 {
      for i := 0 to v.Length
        invariant forall k :: 0 <= k < v.Length ==> v[k] == if k < i then Mul(was[k], -1.0) else was[k]
      {
        v[i] := v[i] * -1.0;
      }
    }
  }

  method FirstPass(xs: seq<Vector>, dim: nat) returns (r: Result<Moments, TrainError>)
    ensures r == if AllDim(xs, dim) then Success(Accumulate(xs, dim)) else Failure(WrongDimension)
  {
    var stats := new RunningStats(dim);
    for i := 0 to |xs|
      invariant stats.Valid() && stats.dim == dim && fresh(stats) && fresh(stats.mean) && fresh(stats.m2)
      invariant AllDim(xs[..i], dim) && stats.Value() == Accumulate(xs[..i], dim)
    {
      assert xs[..i+1][..i] == xs[..i];
      var u := stats.Update(xs[i]);
      if u.Failure? { return Failure(WrongDimension); }
    }
    assert xs[..|xs|] == xs;
    return Success(stats.Value());
  }

  method ScalerScale(libm: Libm, s: Moments, dim: nat) returns (scale: Vector)
    requires Shaped(s, dim) && s.n >= 2
    ensures scale == ScaleOf(libm, s, dim)
  {
    scale := [];
    for i := 0 to dim
      invariant |scale| == i && forall k :: 0 <= k < i ==> scale[k] == ScaleEntry(libm, s.m2[k][k], s.n)
    {
      var t := libm.sqrt(Quot(s.m2[i][i], (s.n - 1) as real));
      if t == 0.0 { t := 1.0; }
      scale := scale + [t];
    }
  }

  method Covariance(s: Moments, dim: nat, scale: Vector) returns (cov: array2<real>)
    requires Shaped(s, dim) && s.n >= 2 && |scale| == dim && NonZero(scale)
    ensures fresh(cov) && cov.Length0 == dim && cov.Length1 == dim
    ensures Rows(cov) == CovOf(s, dim, scale)
  {
    cov := new real[dim, dim];
    for i := 0 to dim
      invariant forall a, b :: 0 <= a < i && 0 <= b < dim ==> cov[a, b] == CovEntry(s.m2[a][b], s.n, scale[a], scale[b])
    {
      for j := 0 to dim
        invariant forall a, b :: 0 <= a < i && 0 <= b < dim ==>
          cov[a, b] == CovEntry(s.m2[a][b], s.n, scale[a], scale[b])
        invariant forall b :: 0 <= b < j ==> cov[i, b] == CovEntry(s.m2[i][b], s.n, scale[i], scale[b])
      {
        cov[i, j] := Quot(s.m2[i][j], (s.n - 1) as real);
        NonZeroProduct(scale[i], scale[j]);
        cov[i, j] := Quot(cov[i, j], Mul(scale[i], scale[j]));
      }
    }
    SameMatrix(Rows(cov), CovOf(s, dim, scale), dim, dim);
  }

  /** The `idx`-th eigenvector with its sign fixed. */
  method TakeComponent(e: Eigen, dim: nat, idx: nat) returns (comp: Vector)
    requires |e.values| == dim && IsMatrix(e.vectors, dim, dim) && idx < dim
    ensures comp == WithSign(Column(e.vectors, dim, dim, idx))
  {
    var v := new real[dim](_ => 0.0);
    for r := 0 to dim
      invariant forall k :: 0 <= k < r ==> v[k] == e.vectors[k][idx]
    {
      v[r] := e.vectors[r][idx];
    }
    assert v[..] == Column(e.vectors, dim, dim, idx);
    EnforceComponentSign(v);
    comp := v[..];
  }

  method SelectComponents(e: Eigen, dim: nat, k: nat) returns (components: array2<real>, explained: Vector)
    requires |e.values| == dim && IsMatrix(e.vectors, dim, dim) && k <= dim
    ensures fresh(components) && components.Length0 == k && components.Length1 == dim
    ensures Rows(components) == ComponentsOf(e, dim, k) && explained == ExplainedOf(e, dim, k)
  {
    var order := ArgsortDesc(e.values);
    components := new real[k, dim];
    explained := [];
    for i := 0 to k
      invariant |explained| == i && forall a :: 0 <= a < i ==> explained[a] == e.values[order[a]]
      invariant forall a, b :: 0 <= a < i && 0 <= b < dim ==> components[a, b] == ComponentOf(e, dim, a)[b]
    {
      var idx := order[i];
      explained := explained + [e.values[idx]];
      var comp := TakeComponent(e, dim, idx);
      for c := 0 to dim
        invariant forall a, b :: 0 <= a < i && 0 <= b < dim ==> components[a, b] == ComponentOf(e, dim, a)[b]
        invariant forall b :: 0 <= b < c ==> components[i, b] == comp[b]
      {
        components[i, c] := comp[c];
      }
    }
    SameMatrix(Rows(components), ComponentsOf(e, dim, k), k, dim);
  }

  method SecondPass(xs: seq<Vector>, dim: nat, mean: Vector, scale: Vector) returns (r: Result<Vector, TrainError>)
    requires |mean| == |scale| == dim && NonZero(scale)
    ensures r == if !AllDim(xs, dim) then Failure(WrongDimension)
                 else if xs == [] then Failure(NoSamples)
                 else Success(PcaMeanOf(xs, dim, mean, scale))
  {
    var pcaMean: Vector := seq(dim, _ => 0.0);
    var count := 0;
    for i := 0 to |xs|
      invariant AllDim(xs[..i], dim) && count == i && pcaMean == SumStandardised(xs[..i], dim, mean, scale)
    {
      assert xs[..i+1][..i] == xs[..i];
      if |xs[i]| != dim { return Failure(WrongDimension); }
      pcaMean := VecAdd(pcaMean, Standardise(xs[i], mean, scale));
      count := count + 1;
    }
    assert xs[..|xs|] == xs;
    if count == 0 { return Failure(NoSamples); }
    return Success(VecScale(pcaMean, Quot(1.0, count as real)));
  }

  /** Standardise, project, reconstruct, subtract; a trained scale has no zero. */
  method Residual(mean: Vector, scale: Vector, components: array2<real>, pcaMean: Vector, x: Vector)
    returns (diff: Vector)
    requires |mean| == |scale| == |pcaMean| == |x| == components.Length1 && NonZero(scale)
    ensures diff == ResidualOf(mean, scale, Rows(components), pcaMean, x)
  {
    var scaled := Standardise(x, mean, scale);
    var centred := VecSub(scaled, pcaMean);
    var proj := MatVec(components, centred);
    var t := Transpose(components);
    var recon := MatVec(t, proj.value);
    diff := VecSub(scaled, VecAdd(recon.value, pcaMean));
  }

  method L2Norm(libm: Libm, v: Vector) returns (r: real)
    ensures r == libm.sqrt(NormSq(v))
  {
    var sq := DotProduct(v, v);
    r := libm.sqrt(sq.value);
  }

  method RowError(libm: Libm, mean: Vector, scale: Vector, components: array2<real>, pcaMean: Vector, x: Vector)
    returns (err: real)
    requires |mean| == |scale| == |pcaMean| == |x| == components.Length1 && NonZero(scale)
    ensures err == ErrorOf(libm, mean, scale, Rows(components), pcaMean, x)
  {
    var diff := Residual(mean, scale, components, pcaMean, x);
    err := L2Norm(libm, diff);
  }

  method ThirdPass(libm: Libm, xs: seq<Vector>, dim: nat, mean: Vector, scale: Vector, components: array2<real>,
                   pcaMean: Vector)
    returns (r: Result<seq<real>, TrainError>)
    requires |mean| == |scale| == |pcaMean| == components.Length1 == dim && NonZero(scale)
    ensures r == if !AllDim(xs, dim) then Failure(WrongDimension)
                 else Success(ErrorsOf(libm, xs, dim, mean, scale, Rows(components), pcaMean))
  {
    var errors: seq<real> := [];
    ghost var c := Rows(components);
    for i := 0 to |xs|
      invariant AllDim(xs[..i], dim) && errors == ErrorsOf(libm, xs[..i], dim, mean, scale, c, pcaMean)
    {
      if |xs[i]| != dim { return Failure(WrongDimension); }
      var err := RowError(libm, mean, scale, components, pcaMean, xs[i]);
      errors := errors + [err];
    }
    assert xs[..|xs|] == xs;
    return Success(errors);
  }

  /** Scale, diagonalise and select. */
  method Fit(libm: Libm, s: Moments, dim: nat, k: nat)
    returns (scale: Vector, components: array2<real>, explained: Vector)
    requires Shaped(s, dim) && s.n >= 2 && k <= dim
    ensures components.Length0 == k && components.Length1 == dim && scale == ScaleOf(libm, s, dim)
    ensures var e := EigenOf(libm, CovOf(s, dim, scale), dim, MAX_ITER, EPS);
      Rows(components) == ComponentsOf(e, dim, k) && explained == ExplainedOf(e, dim, k)
  {
    scale := ScalerScale(libm, s, dim);
    var cov := Covariance(s, dim, scale);
    var eig := EigenSymJacobi(libm, cov, MAX_ITER, EPS);
    components, explained := SelectComponents(eig.value, dim, k);
  }

  method TrainPcaFromStream(libm: Libm, first: seq<Vector>, second: seq<Vector>, third: seq<Vector>, dim: nat,
                            nComponents: int, percentile: real) returns (r: Result<Artifact, TrainError>)
    ensures r == Train(libm, first, second, third, dim, nComponents, percentile)
  {
    if nComponents < 1 || nComponents > dim { return Failure(BadComponentCount); }
    var stats := FirstPass(first, dim);
    if stats.Failure? { return Failure(stats.error); }
    var s := stats.value;
    if s.n < 2 { return Failure(NotEnoughSamples); }
    var scale, components, explained := Fit(libm, s, dim, nComponents);
    var pcaMean := SecondPass(second, dim, s.mean, scale);
    if pcaMean.Failure? { return Failure(pcaMean.error); }
    var errors := ThirdPass(libm, third, dim, s.mean, scale, components, pcaMean.value);
    if errors.Failure? { return Failure(errors.error); }
    var threshold := PercentileValue(errors.value, percentile);
    if threshold.Failure? { return Failure(NoErrors); }
    return Success(Artifact(s.mean, scale, Rows(components), explained, pcaMean.value, threshold.value, nComponents));
  }

  /** `TrainPcaFromSamples`: every pass walks the same list. */
  method TrainPcaFromSamples(libm: Libm, samples: seq<Vector>, dim: nat, nComponents: int, percentile: real)
    returns (r: Result<Artifact, TrainError>)
    ensures r == Train(libm, samples, samples, samples, dim, nComponents, percentile)
  {
    r := TrainPcaFromStream(libm, samples, samples, samples, dim, nComponents, percentile);
  }
}
