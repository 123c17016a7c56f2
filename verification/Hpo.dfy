/** Hyper-parameter search: validation, the preflight estimate and trial generation
    (`src/training/pca_trainer.cpp`). Random draws are arbitrary in-range positions. */
module HpoSearch {

  /** The `algorithm` string: "grid", "random", or anything else. */
  datatype Algorithm = Grid | Random | Other(name: string)

  datatype Config = Config(
    algorithm: Algorithm, maxTrials: int, maxConcurrency: int, nComponents: seq<int>, percentile: seq<real>)

  datatype Trial = Trial(datasetId: string, nComponents: int, percentile: real)

  datatype CapReason = NoCap | MaxTrials | GridCap

  datatype Preflight = Preflight(estimatedCandidates: int, effectiveTrials: int, cappedBy: CapReason)

  /** The two axes, with the defaults for an empty one. */
  function ComponentAxis(h: Config): (r: seq<int>)
    ensures r != []
  {
    if h.nComponents == [] then [3] else h.nComponents
  }

  function PercentileAxis(h: Config): (r: seq<real>)
    ensures r != []
  {
    if h.percentile == [] then [99.5] else h.percentile
  }

  function Combinations(h: Config): nat { |ComponentAxis(h)| * |PercentileAxis(h)| }

  /** A cap is named exactly when fewer trials run than there are candidates. */
  function PreflightOf(h: Config): (r: Preflight)
    ensures r.effectiveTrials <= r.estimatedCandidates
    ensures r.cappedBy != NoCap <==> r.effectiveTrials < r.estimatedCandidates
    ensures r.cappedBy == GridCap <==> h.algorithm.Grid? && Combinations(h) > 100
  {
    var total := Combinations(h);
    if h.algorithm.Grid? then
      if total > 100 then Preflight(total, 100, GridCap)
      else if total > h.maxTrials then Preflight(total, h.maxTrials, MaxTrials)
      else Preflight(total, total, NoCap)
    else if h.algorithm.Random? then Preflight(h.maxTrials, h.maxTrials, NoCap)
    else Preflight(0, 0, NoCap)
  }

  // ---------------------------------------------------------------- validation

  predicate GoodComponents(n: int) { 1 <= n <= 5 }
  predicate GoodPercentile(p: real) { 50.0 <= p < 100.0 }

  predicate GoodAxes(h: Config) {
    && (forall k :: 0 <= k < |h.nComponents| ==> GoodComponents(h.nComponents[k]))
    && (forall k :: 0 <= k < |h.percentile| ==> GoodPercentile(h.percentile[k]))
  }

  /** The configurations that pass. */
  predicate Accepts(h: Config) {
    && (h.algorithm.Grid? || h.algorithm.Random?)
    && 1 <= h.maxTrials <= 50 && 1 <= h.maxConcurrency <= 10
    && !(h.nComponents == [] && h.percentile == [])
    && GoodAxes(h)
    && (h.algorithm.Grid? ==> Combinations(h) <= 100)
  }

  /** The `field` of a validation error. */
  datatype Field = AlgorithmField | TrialsField | ConcurrencyField | SpaceField | ComponentsField | PercentileField

  /** What each reported field stands for. */
  ghost predicate Offends(h: Config, f: Field) {
    match f
    case AlgorithmField => h.algorithm.Other?
    case TrialsField => h.maxTrials <= 0 || h.maxTrials > 50
    case ConcurrencyField => h.maxConcurrency <= 0 || h.maxConcurrency > 10
    case SpaceField => (h.nComponents == [] && h.percentile == []) || (h.algorithm.Grid? && Combinations(h) > 100)
    case ComponentsField => exists k :: 0 <= k < |h.nComponents| && !GoodComponents(h.nComponents[k])
    case PercentileField => exists k :: 0 <= k < |h.percentile| && !GoodPercentile(h.percentile[k])
  }

  lemma AcceptsExactly(h: Config)
    ensures Accepts(h) <==> forall f :: !Offends(h, f)
  {
    if Accepts(h) {
      forall f ensures !Offends(h, f) {}
    } else {
      assert Offends(h, AlgorithmField) || Offends(h, TrialsField) || Offends(h, ConcurrencyField)
          || Offends(h, SpaceField) || Offends(h, ComponentsField) || Offends(h, PercentileField);
    }
  }

  method CheckLimits(h: Config) returns (errors: seq<Field>)
    ensures forall f :: f in errors <==>
      (f == AlgorithmField || f == TrialsField || f == ConcurrencyField) && Offends(h, f)
  {
    errors := [];
    if h.algorithm.Other? { errors := errors + [AlgorithmField]; }
    if h.maxTrials <= 0 || h.maxTrials > 50 { errors := errors + [TrialsField]; }
    if h.maxConcurrency <= 0 || h.maxConcurrency > 10 { errors := errors + [ConcurrencyField]; }
  }

  method CheckSpace(h: Config) returns (errors: seq<Field>)
    ensures forall f :: f in errors <==>
      (f == SpaceField || f == ComponentsField || f == PercentileField) && Offends(h, f)
  {
    errors := [];
    if h.nComponents == [] && h.percentile == [] { errors := errors + [SpaceField]; }
    var badN := AnyBadComponents(h.nComponents);
    if badN { errors := errors + [ComponentsField]; }
    var badP := AnyBadPercentile(h.percentile);
    if badP { errors := errors + [PercentileField]; }
    if h.algorithm.Grid? {
      var total := 1;
      if h.nComponents != [] { total := total * |h.nComponents|; }
      if h.percentile != [] { total := total * |h.percentile|; }
      assert total == Combinations(h);
      if total > 100 { errors := errors + [SpaceField]; }
    }
  }

  /** Every offending field is reported and no other; nothing is reported exactly for the accepted
      configurations. */
  method ValidateHpoConfig(h: Config) returns (errors: seq<Field>)
    ensures forall f :: f in errors <==> Offends(h, f)
    ensures errors == [] <==> Accepts(h)
  {
    var limits := CheckLimits(h);
    var space := CheckSpace(h);
    errors := limits + space;
    forall f ensures f in errors <==> Offends(h, f) {
      assert f in errors <==> f in limits || f in space;
    }
    AcceptsExactly(h);
    if errors != [] { assert errors[0] in errors; }
  }

  method AnyBadComponents(axis: seq<int>) returns (bad: bool)
    ensures bad <==> exists k :: 0 <= k < |axis| && !GoodComponents(axis[k])
  {
    for i := 0 to |axis|
      invariant forall k :: 0 <= k < i ==> GoodComponents(axis[k])
    {
      if axis[i] <= 0 || axis[i] > 5 { return true; }
    }
    return false;
  }

  method AnyBadPercentile(axis: seq<real>) returns (bad: bool)
    ensures bad <==> exists k :: 0 <= k < |axis| && !GoodPercentile(axis[k])
  {
    for i := 0 to |axis|
      invariant forall k :: 0 <= k < i ==> GoodPercentile(axis[k])
    {
      if axis[i] < 50.0 || axis[i] >= 100.0 { return true; }
    }
    return false;
  }

  // ---------------------------------------------------------------- generation

  lemma PositionInRange(i: nat, j: nat, n: nat, p: nat)
    requires i < n && j < p
    ensures i * p + j < n * p
  {
    assert i * p + p <= n * p by { assert (i + 1) * p <= n * p; }
  }

  lemma MulMonotone(a: int, b: int, p: nat)
    ensures a <= b ==> a * p <= b * p
  {}

  lemma PositionParts(i: nat, j: nat, p: nat)
    requires j < p
    ensures (i * p + j) / p == i && (i * p + j) % p == j
  {
    var k := i * p + j;
    assert k == (k / p) * p + k % p;
    MulMonotone(i + 1, k / p, p);
    MulMonotone(k / p + 1, i, p);
  }

  lemma PartsInRange(k: nat, n: nat, p: nat)
    requires p > 0 && k < n * p
    ensures k / p < n && k % p < p
  {
    MulMonotone(n, k / p, p);
  }

  function Min(a: int, b: int): int { if a < b then a else b }
  function AtLeastZero(a: int): nat { if a < 0 then 0 else a }

  /** Grid trial `k`: components vary slowest. */
  function GridTrial(h: Config, dataset: string, k: nat): Trial
    requires k < Combinations(h)
  {
    var ns, ps := ComponentAxis(h), PercentileAxis(h);
    PartsInRange(k, |ns|, |ps|);
    Trial(dataset, ns[k / |ps|], ps[k % |ps|])
  }

  function GridTrials(h: Config, dataset: string, n: nat): (r: seq<Trial>)
    requires n <= Combinations(h)
    ensures |r| == n && forall k :: 0 <= k < n ==> r[k] == GridTrial(h, dataset, k)
  {
    seq(n, k requires 0 <= k < n => GridTrial(h, dataset, k))
  }

  /** Position pairs drawn for the random search. */
  ghost predicate InRange(h: Config, pick: nat -> (nat, nat)) {
    forall i :: pick(i).0 < |ComponentAxis(h)| && pick(i).1 < |PercentileAxis(h)|
  }

  function RandomTrials(h: Config, dataset: string, pick: nat -> (nat, nat), n: nat): (r: seq<Trial>)
    requires InRange(h, pick)
    ensures |r| == n
    ensures forall i :: 0 <= i < n ==> r[i] == Trial(dataset, ComponentAxis(h)[pick(i).0], PercentileAxis(h)[pick(i).1])
  {
    seq(n, i requires 0 <= i < n => Trial(dataset, ComponentAxis(h)[pick(i).0], PercentileAxis(h)[pick(i).1]))
  }

  /** How many trials are generated. */
  function TrialCount(h: Config): nat {
    if h.algorithm.Grid? then AtLeastZero(Min(Combinations(h), h.maxTrials))
    else if h.algorithm.Random? then AtLeastZero(h.maxTrials)
    else 0
  }

  method GenerateTrials(h: Config, dataset: string, pick: nat -> (nat, nat)) returns (trials: seq<Trial>)
    requires InRange(h, pick)
    ensures |trials| == TrialCount(h)
    ensures h.algorithm.Grid? ==> trials == GridTrials(h, dataset, TrialCount(h))
    ensures h.algorithm.Random? ==> trials == RandomTrials(h, dataset, pick, TrialCount(h))
  {
    trials := [];
    if h.algorithm.Grid? {
      trials := GenerateGrid(h, dataset);
    } else if h.algorithm.Random? {
      trials := GenerateRandom(h, dataset, pick);
    }
  }

  method GenerateRandom(h: Config, dataset: string, pick: nat -> (nat, nat)) returns (trials: seq<Trial>)
    requires InRange(h, pick)
    ensures trials == RandomTrials(h, dataset, pick, AtLeastZero(h.maxTrials))
  {
    var ns, ps := ComponentAxis(h), PercentileAxis(h);
    trials := [];
    var i := 0;
    while i < h.maxTrials
      invariant 0 <= i <= AtLeastZero(h.maxTrials) && |trials| == i
      invariant forall k :: 0 <= k < i ==> trials[k] == Trial(dataset, ns[pick(k).0], ps[pick(k).1])
    {
      trials := trials + [Trial(dataset, ns[pick(i).0], ps[pick(i).1])];
      i := i + 1;
    }
  }

  /** One row of the grid: stops as soon as the trial limit is reached. */
  method GenerateRow(h: Config, dataset: string, i: nat, before: seq<Trial>) returns (trials: seq<Trial>)
    requires i < |ComponentAxis(h)| && i * |PercentileAxis(h)| <= Combinations(h)
    requires before == GridTrials(h, dataset, i * |PercentileAxis(h)|) && |before| < AtLeastZero(h.maxTrials)
    ensures (i + 1) * |PercentileAxis(h)| <= Combinations(h)
    ensures trials == GridTrials(h, dataset, Min((i + 1) * |PercentileAxis(h)|, h.maxTrials))
  {
    var ns, ps := ComponentAxis(h), PercentileAxis(h);
    trials := before;
    var j := 0;
    PositionInRange(i, |ps| - 1, |ns|, |ps|);
    while j < |ps|
      invariant 0 <= j <= |ps| && i * |ps| + j <= Combinations(h)
      invariant i * |ps| + j <= h.maxTrials && trials == GridTrials(h, dataset, i * |ps| + j)
    {
      if |trials| >= h.maxTrials { break; }
      PositionInRange(i, j, |ns|, |ps|);
      PositionParts(i, j, |ps|);
      assert GridTrial(h, dataset, i * |ps| + j) == Trial(dataset, ns[i], ps[j]);
      trials := trials + [Trial(dataset, ns[i], ps[j])];
      j := j + 1;
    }
  }

  method GenerateGrid(h: Config, dataset: string) returns (trials: seq<Trial>)
    ensures trials == GridTrials(h, dataset, AtLeastZero(Min(Combinations(h), h.maxTrials)))
  {
    var ns, ps := ComponentAxis(h), PercentileAxis(h);
    trials := [];
    if h.maxTrials <= 0 { return; }
    var i := 0;
    while i < |ns|
      invariant 0 <= i <= |ns| && i * |ps| <= Combinations(h) && |trials| < h.maxTrials
      invariant trials == GridTrials(h, dataset, i * |ps|)
    {
      trials := GenerateRow(h, dataset, i, trials);
      i := i + 1;
      if |trials| >= h.maxTrials { return; }
    }
  }

  // ---------------------------------------------------------------- estimate and generation agree

  /** For every accepted configuration the estimate is exact. */
  lemma AcceptedIsExact(h: Config)
    requires Accepts(h)
    ensures TrialCount(h) == PreflightOf(h).effectiveTrials
    ensures 1 <= TrialCount(h) <= 50
  {
    Nonempty(|ComponentAxis(h)|, |PercentileAxis(h)|);
  }

  lemma Nonempty(n: nat, p: nat)
    requires n > 0 && p > 0
    ensures n * p >= 1
  {}

  /** For every configuration, accepted or not, when the estimate is what generation delivers. */
  lemma EstimateExactly(h: Config)
    ensures TrialCount(h) == PreflightOf(h).effectiveTrials <==>
      if h.algorithm.Grid? then (if Combinations(h) > 100 then h.maxTrials == 100 else h.maxTrials >= 0)
      else h.algorithm.Random? ==> h.maxTrials >= 0
  {
    Nonempty(|ComponentAxis(h)|, |PercentileAxis(h)|);
  }

  /** Grid trial `k` in terms of the configuration alone: components vary slowest, an empty component axis
      stands for three components and an empty percentile axis for 99.5. */
  lemma GridMeans(h: Config, dataset: string, k: nat)
    requires k < Combinations(h)
    ensures var width := if h.percentile == [] then 1 else |h.percentile|;
      var t := GridTrial(h, dataset, k);
      && t.datasetId == dataset
      && t.nComponents == (if h.nComponents == [] then 3 else At(h.nComponents, k / width, 3))
      && t.percentile == (if h.percentile == [] then 99.5 else At(h.percentile, k % width, 99.5))
  {
    PartsInRange(k, |ComponentAxis(h)|, |PercentileAxis(h)|);
    AxesMean(h, k / |PercentileAxis(h)|, k % |PercentileAxis(h)|);
  }

  function At<T>(s: seq<T>, i: int, default: T): T { if 0 <= i < |s| then s[i] else default }

  lemma AxesMean(h: Config, i: nat, j: nat)
    requires i < |ComponentAxis(h)| && j < |PercentileAxis(h)|
    ensures ComponentAxis(h)[i] == (if h.nComponents == [] then 3 else At(h.nComponents, i, 3))
    ensures PercentileAxis(h)[j] == (if h.percentile == [] then 99.5 else At(h.percentile, j, 99.5))
    ensures |PercentileAxis(h)| == if h.percentile == [] then 1 else |h.percentile|
  {}

  /** Every trial of a configuration whose values lie within the validated bounds does so too; the
      defaults for an empty axis are within them. */
  lemma GridWithinBounds(h: Config, dataset: string, k: nat)
    requires GoodAxes(h) && k < Combinations(h)
    ensures var t := GridTrial(h, dataset, k); 1 <= t.nComponents <= 5 && 50.0 <= t.percentile < 100.0
  {
    var ns, ps := ComponentAxis(h), PercentileAxis(h);
    PartsInRange(k, |ns|, |ps|);
    AxesWithinBounds(h, k / |ps|, k % |ps|);
  }

  lemma AxesWithinBounds(h: Config, i: nat, j: nat)
    requires GoodAxes(h) && i < |ComponentAxis(h)| && j < |PercentileAxis(h)|
    ensures GoodComponents(ComponentAxis(h)[i]) && GoodPercentile(PercentileAxis(h)[j])
  {}

  lemma RandomWithinBounds(h: Config, dataset: string, pick: nat -> (nat, nat), n: nat, i: nat)
    requires GoodAxes(h) && InRange(h, pick) && i < n
    ensures var t := RandomTrials(h, dataset, pick, n)[i]; 1 <= t.nComponents <= 5 && 50.0 <= t.percentile < 100.0
  {
    AxesWithinBounds(h, pick(i).0, pick(i).1);
  }

  /** The grid visits every combination of the two axes once: position and combination determine each
      other. */
  lemma GridCoversOnce(h: Config, dataset: string, i: nat, j: nat)
    requires i < |ComponentAxis(h)| && j < |PercentileAxis(h)|
    ensures var k := i * |PercentileAxis(h)| + j;
      && k < Combinations(h) && GridTrial(h, dataset, k) == Trial(dataset, ComponentAxis(h)[i], PercentileAxis(h)[j])
      && k / |PercentileAxis(h)| == i && k % |PercentileAxis(h)| == j
  {
    PositionInRange(i, j, |ComponentAxis(h)|, |PercentileAxis(h)|);
    PositionParts(i, j, |PercentileAxis(h)|);
  }
}
