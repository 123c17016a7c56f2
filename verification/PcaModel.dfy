/** The artifact document, loading it, and scoring a feature vector (`src/detectors/pca_model.cpp`). */
module PcaScoring {
  import opened Contract
  import opened Linalg
  import opened Doubles
  import opened OrderStats
  import opened RunningStatistics
  import opened PcaSpec
  import opened PcaTheorems

  /** The number tree of `model.json`; reading back what was written is the identity on it. */
  datatype Document = Document(
    mean: seq<real>, scale: seq<real>, components: seq<seq<real>>, explainedVariance: seq<real>,
    pcaMean: seq<real>, nComponents: int, threshold: real)

  /** `WriteArtifactJson` copies the component matrix into a list of lists. */
  method WriteArtifactJson(a: Artifact) returns (doc: Document)
    ensures doc == Document(a.scalerMean, a.scalerScale, a.components, a.explainedVariance,
                            a.pcaMean, a.nComponents, a.threshold)
  {
    var rows: seq<seq<real>> := [];
    for r := 0 to |a.components|
      invariant rows == a.components[..r]
    {
      var row: seq<real> := [];
      for c := 0 to |a.components[r]|
        invariant row == a.components[r][..c]
      {
        row := row + [a.components[r][c]];
      }
      assert row == a.components[r];
      rows := rows + [row];
    }
    return Document(a.scalerMean, a.scalerScale, rows, a.explainedVariance, a.pcaMean, a.nComponents, a.threshold);
  }

  /** The first `d` numbers of every row. */
  function FirstColumns(rows: seq<seq<real>>, d: nat): (m: Matrix)
    requires forall i :: 0 <= i < |rows| ==> |rows[i]| >= d
    ensures IsMatrix(m, |rows|, d) && forall i :: 0 <= i < |rows| ==> m[i] == rows[i][..d]
  {
    seq(|rows|, i requires 0 <= i < |rows| => rows[i][..d])
  }

  lemma AllColumns(rows: seq<seq<real>>, d: nat)
    requires IsMatrix(rows, |rows|, d)
    ensures FirstColumns(rows, d) == rows
  {
    SameMatrix(FirstColumns(rows, d), rows, |rows|, d);
  }

  method FillMatrix(rows: seq<seq<real>>, k: nat, d: nat) returns (m: array2<real>)
    requires |rows| == k && forall i :: 0 <= i < k ==> |rows[i]| >= d
    ensures fresh(m) && m.Length0 == k && m.Length1 == d && Rows(m) == FirstColumns(rows, d)
  {
    m := new real[k, d];
    for i := 0 to k
      invariant forall a, b :: 0 <= a < i && 0 <= b < d ==> m[a, b] == rows[a][b]
    {
      for c := 0 to d
        invariant forall a, b :: 0 <= a < i && 0 <= b < d ==> m[a, b] == rows[a][b]
        invariant forall b :: 0 <= b < c ==> m[i, b] == rows[i][b]
      {
        m[i, c] := rows[i][c];
      }
    }
    SameMatrix(Rows(m), FirstColumns(rows, d), k, d);
  }

  datatype LoadError = PreprocessingSize | NoComponents | ComponentSize

  datatype Score = Score(isAnomaly: bool, reconstructionError: Double, residuals: seq<Double>)

  /** What a loaded model answers for a row. */
  function ScoreWith(libm: Libm, a: Artifact, x: Vector): Score
    requires Consistent(a, |x|)
  {
    var err := ErrorWith(libm, a, x);
    Score(err > a.threshold, Fin(err), Lift(ResidualOf(a.scalerMean, a.scalerScale, a.components, a.pcaMean, x)))
  }

  // ---------------------------------------------------------------- scoring in doubles

  function ScaledOf(mean: Vector, scale: Vector, x: Vector): (r: seq<Double>)
    requires |mean| == |scale| == |x|
    ensures |r| == |x| && forall i :: 0 <= i < |x| ==> r[i] == Over(x[i] - mean[i], scale[i])
  {
    seq(|x|, i requires 0 <= i < |x| => Over(x[i] - mean[i], scale[i]))
  }

  /** Standardise, project, reconstruct, subtract. */
  function DoubleResidual(mean: Vector, scale: Vector, c: Matrix, pcaMean: Vector, x: Vector): (r: seq<Double>)
    requires |mean| == |scale| == |pcaMean| == |x| && IsMatrix(c, |c|, |x|)
    ensures |r| == |x|
  {
    var dim, k, scaled := |x|, |c|, ScaledOf(mean, scale, x);
    var proj := Product(c, k, dim, SubAll(scaled, Lift(pcaMean)));
    var recon := Product(TransposeOf(c, k, dim), dim, k, proj);
    SubAll(scaled, AddAll(recon, Lift(pcaMean)))
  }

  lemma LiftSub(a: Vector, b: Vector)
    requires |a| == |b|
    ensures SubAll(Lift(a), Lift(b)) == Lift(VecSub(a, b))
  {}

  lemma LiftAdd(a: Vector, b: Vector)
    requires |a| == |b|
    ensures AddAll(Lift(a), Lift(b)) == Lift(VecAdd(a, b))
  {}

  /** With no zero in the scale the doubles are the reals. */
  lemma FiniteResidual(mean: Vector, scale: Vector, c: Matrix, pcaMean: Vector, x: Vector)
    requires |mean| == |scale| == |pcaMean| == |x| && IsMatrix(c, |c|, |x|) && NonZero(scale)
    ensures DoubleResidual(mean, scale, c, pcaMean, x) == Lift(ResidualOf(mean, scale, c, pcaMean, x))
  {
    var dim, k, scaled := |x|, |c|, Standardise(x, mean, scale);
    assert ScaledOf(mean, scale, x) == Lift(scaled);
    LiftSub(scaled, pcaMean);
    var proj := MatVecOf(c, k, dim, VecSub(scaled, pcaMean));
    ProductLifts(c, k, dim, VecSub(scaled, pcaMean));
    var recon := MatVecOf(TransposeOf(c, k, dim), dim, k, proj);
    ProductLifts(TransposeOf(c, k, dim), dim, k, proj);
    LiftAdd(recon, pcaMean);
    LiftSub(scaled, VecAdd(recon, pcaMean));
  }

  /** A feature whose stored scale is zero is reconstructed as the same infinity, so nothing is left of it
      but NaN. */
  lemma ZeroScaleResidual(mean: Vector, scale: Vector, c: Matrix, pcaMean: Vector, x: Vector, i: nat)
    requires |mean| == |scale| == |pcaMean| == |x| && IsMatrix(c, |c|, |x|) && c != []
    requires i < |x| && scale[i] == 0.0
    ensures DoubleResidual(mean, scale, c, pcaMean, x)[i] == NaN
  {
    var dim, k, scaled := |x|, |c|, ScaledOf(mean, scale, x);
    var centred := SubAll(scaled, Lift(pcaMean));
    var proj, z := Product(c, k, dim, centred), scaled[i];
    assert centred[i] == z;
    var t := TransposeOf(c, k, dim);
    forall r | 0 <= r < k ensures Within(Times(Lift(t[i])[r], proj[r]), z) {
      TermDominates(Lift(c[r]), centred, dim, i);
      TwiceTheFactor(c[r][i], z, proj[r]);
    }
    TermsAgree(Lift(t[i]), proj, k, z);
  }

  lemma NaNNorm(diff: seq<Double>, i: nat)
    requires i < |diff| && diff[i] == NaN
    ensures DotUpTo(diff, diff, |diff|) == NaN
  {
    TermDominates(diff, diff, |diff|, i);
  }

  /** A zero in the stored scale silences the model: the error of every row is NaN and no row is flagged. */
  lemma ZeroScaleIsSilent(libm: Libm, mean: Vector, scale: Vector, c: Matrix, pcaMean: Vector, x: Vector, t: real)
    requires |mean| == |scale| == |pcaMean| == |x| && IsMatrix(c, |c|, |x|) && c != [] && !NonZero(scale)
    ensures var diff := DoubleResidual(mean, scale, c, pcaMean, x);
      var err := Root(libm.sqrt, DotUpTo(diff, diff, |diff|));
      err == NaN && !Exceeds(err, t)
  {
    var i :| 0 <= i < |scale| && scale[i] == 0.0;
    ZeroScaleResidual(mean, scale, c, pcaMean, x, i);
    NaNNorm(DoubleResidual(mean, scale, c, pcaMean, x), i);
  }

  lemma FiniteScore(libm: Libm, a: Artifact, x: Vector)
    requires Consistent(a, |x|)
    ensures var diff := DoubleResidual(a.scalerMean, a.scalerScale, a.components, a.pcaMean, x);
      var err := Root(libm.sqrt, DotUpTo(diff, diff, |diff|));
      Score(Exceeds(err, a.threshold), err, diff) == ScoreWith(libm, a, x)
  {
    var diff := ResidualOf(a.scalerMean, a.scalerScale, a.components, a.pcaMean, x);
    FiniteResidual(a.scalerMean, a.scalerScale, a.components, a.pcaMean, x);
    DotLifts(diff, diff, |diff|);
    NormSqNonNegative(diff, |diff|);
  }

  class PcaModel {
    var loaded: bool
    var curMean: Vector
    var curScale: Vector
    var components: array2<real>
    var pcaMean: Vector
    var threshold: real

    constructor ()
      ensures !loaded
    {
      loaded, curMean, curScale, pcaMean, threshold := false, [], [], [], 0.0;
      components := new real[0, 0];
    }

    ghost predicate Valid()
      reads this
    {
      loaded ==>
        && |curMean| == FEATURES && |curScale| == FEATURES
        && components.Length0 > 0 && components.Length1 == FEATURES
    }

    /** The model holds what a document with these numbers says; numbers of a component beyond the
        features are not read. */
    ghost predicate Holds(doc: Document)
      requires forall i :: 0 <= i < |doc.components| ==> |doc.components[i]| >= FEATURES
      reads this, components
    {
      loaded && curMean == doc.mean && curScale == doc.scale
      && Rows(components) == FirstColumns(doc.components, FEATURES)
      && pcaMean == doc.pcaMean && threshold == doc.threshold
    }

    /** The checks come one after the other: a failure leaves what was already copied. Only the length of
        the first component is checked; the code reads that many numbers of each. */
    method Load(doc: Document) returns (r: Result<(), LoadError>)
      requires forall i :: 0 <= i < |doc.components| ==> |doc.components[i]| >= |doc.components[0]|
      requires Valid()
      modifies this
      ensures Valid()
      ensures r.Success? <==>
        |doc.mean| == FEATURES && |doc.scale| == FEATURES && doc.components != [] && |doc.components[0]| == FEATURES
      ensures r.Success? ==> Holds(doc) && fresh(components)
      ensures r.Failure? ==> loaded == old(loaded) && components == old(components)
      ensures r.Failure? ==> pcaMean == old(pcaMean) && threshold == old(threshold)
      ensures r.Failure? ==>
        r.error == if |doc.mean| != FEATURES || |doc.scale| != FEATURES then PreprocessingSize
                   else if doc.components == [] then NoComponents else ComponentSize
      ensures r.Failure? && r.error.PreprocessingSize? ==> curMean == old(curMean) && curScale == old(curScale)
      ensures r.Failure? && !r.error.PreprocessingSize? ==> curMean == doc.mean && curScale == doc.scale
    {
      if |doc.mean| != FEATURES || |doc.scale| != FEATURES { return Failure(PreprocessingSize); }
      curMean := doc.mean;
      curScale := doc.scale;
      var k := |doc.components|;
      if k == 0 { return Failure(NoComponents); }
      var d := |doc.components[0]|;
      if d != FEATURES { return Failure(ComponentSize); }
      components := FillMatrix(doc.components, k, d);
      pcaMean := doc.pcaMean;
      threshold := doc.threshold;
      loaded := true;
      return Success(());
    }

    /** An unloaded model answers "no anomaly"; a stored PCA mean of the wrong size throws; a zero in the
        stored scale makes every error NaN, which is never flagged. */
    method ScoreRow(libm: Libm, x: Vector) returns (r: Result<Score, DimError>)
      requires Valid() && |x| == FEATURES
      ensures !loaded ==> r == Success(Score(false, Fin(0.0), []))
      ensures loaded && |pcaMean| != FEATURES ==> r == Failure(DimensionMismatch)
      ensures loaded && |pcaMean| == FEATURES && NonZero(curScale) ==>
        r == Success(ScoreWith(libm, Artifact(curMean, curScale, Rows(components), [], pcaMean, threshold, 0), x))
      ensures loaded && |pcaMean| == FEATURES && !NonZero(curScale) ==>
        r.Success? && r.value.reconstructionError == NaN && !r.value.isAnomaly
    {
      if !loaded { return Success(Score(false, Fin(0.0), [])); }
      if |pcaMean| != FEATURES { return Failure(DimensionMismatch); }
      var diff := ResidualLoop(curMean, curScale, components, pcaMean, x);
      var sq := DotLoop(diff);
      var err := Root(libm.sqrt, sq);
      if NonZero(curScale) {
        FiniteScore(libm, Artifact(curMean, curScale, Rows(components), [], pcaMean, threshold, 0), x);
      } else {
        ZeroScaleIsSilent(libm, curMean, curScale, Rows(components), pcaMean, x, threshold);
      }
      return Success(Score(Exceeds(err, threshold), err, diff));
    }
  }

  method ResidualLoop(mean: Vector, scale: Vector, components: array2<real>, pcaMean: Vector, x: Vector)
    returns (diff: seq<Double>)
    requires |mean| == |scale| == |pcaMean| == |x| == components.Length1
    ensures diff == DoubleResidual(mean, scale, Rows(components), pcaMean, x)
  {
    var scaled := ScaledOf(mean, scale, x);
    var proj := ProductLoop(components, SubAll(scaled, Lift(pcaMean)));
    var t := Transpose(components);
    var recon := ProductLoop(t, proj);
    diff := SubAll(scaled, AddAll(recon, Lift(pcaMean)));
  }

  /** Train, write, load, score: the loaded model gives every row, trained or not, the score of the
      artifact it came from. */
  method ServeRow(libm: Libm, a: Artifact, x: Vector) returns (s: Score)
    requires Consistent(a, FEATURES) && a.components != [] && |x| == FEATURES
    ensures s == ScoreWith(libm, a, x)
  {
    var doc := WriteArtifactJson(a);
    AllColumns(doc.components, FEATURES);
    var model := new PcaModel();
    var loaded := model.Load(doc);
    var scored := model.ScoreRow(libm, x);
    s := scored.value;
  }

  /** How many of the rows a model flags. */
  function Flagged(libm: Libm, a: Artifact, xs: seq<Vector>, dim: nat): nat
    requires Consistent(a, dim) && AllDim(xs, dim)
  {
    if xs == [] then 0
    else (if ScoreWith(libm, a, xs[0]).isAnomaly then 1 else 0) + Flagged(libm, a, xs[1..], dim)
  }

  lemma {:induction false} FlaggedCounts(libm: Libm, a: Artifact, xs: seq<Vector>, dim: nat)
    requires Consistent(a, dim) && AllDim(xs, dim)
    ensures Flagged(libm, a, xs, dim) == Count(ErrorsWith(libm, a, xs, dim), Above(a.threshold))
  {
    if xs != [] {
      FlaggedCounts(libm, a, xs[1..], dim);
      assert ErrorsWith(libm, a, xs, dim)[1..] == ErrorsWith(libm, a, xs[1..], dim);
    }
  }

  /** A model trained at percentile `p` in (0, 100] on `n` rows flags at most `n - ceil(p n / 100)` of
      them, and fewer than `p n / 100` rows (none, if that is at most 1) score strictly below its
      threshold. */
  lemma {:induction false} TrainingRowsFlagged(libm: Libm, xs: seq<Vector>, dim: nat, k: nat, p: real, rank: real)
    requires Trainable(libm, xs, dim, k) && 0.0 < p <= 100.0 && rank == Mul(p, |xs| as real) / 100.0
    ensures var r := Train(libm, xs, xs, xs, dim, k, p); r.Success? && FewFlagged(libm, r.value, xs, dim, rank)
  {
    ThresholdIsPercentile(libm, xs, dim, k, p);
    FlagBounds(libm, Train(libm, xs, xs, xs, dim, k, p).value, xs, dim, p, rank);
  }

  /** At most `n - ceil(rank)` of the rows are flagged, and fewer than `rank` of them (none, if that is at
      most 1) score strictly below the threshold. */
  ghost predicate FewFlagged(libm: Libm, a: Artifact, xs: seq<Vector>, dim: nat, rank: real) {
    && Consistent(a, dim) && AllDim(xs, dim) && 1 <= Ceil(rank) <= |xs|
    && Flagged(libm, a, xs, dim) <= |xs| - Ceil(rank)
    && var below := Count(ErrorsWith(libm, a, xs, dim), Below(a.threshold));
       if rank <= 1.0 then below == 0 else below as real < rank
  }

  lemma {:induction false} FlagBounds(libm: Libm, a: Artifact, xs: seq<Vector>, dim: nat, p: real, rank: real)
    requires Consistent(a, dim) && AllDim(xs, dim) && xs != [] && 0.0 < p <= 100.0
    requires rank == Mul(p, |xs| as real) / 100.0
    requires PercentileValue(ErrorsWith(libm, a, xs, dim), p) == Success(a.threshold)
    ensures FewFlagged(libm, a, xs, dim, rank)
  {
    var errors := ErrorsWith(libm, a, xs, dim);
    FlaggedCounts(libm, a, xs, dim);
    assert |errors| == |xs|;
    PercentileSplits(errors, p, rank);
  }
}
