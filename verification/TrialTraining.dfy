/** Search and training fit together: what validation accepts, training can train. */
module TrialTraining {
  import opened Contract
  import opened Linalg
  import opened RunningStatistics
  import opened PcaSpec
  import opened PcaTheorems
  import HpoSearch

  /** Every grid trial of an accepted configuration trains on every dataset of at least two rows. */
  lemma AcceptedTrialTrains(libm: Libm, h: HpoSearch.Config, dataset: string, k: nat, xs: seq<Vector>)
    requires HpoSearch.Accepts(h) && k < HpoSearch.Combinations(h) && AllDim(xs, FEATURES) && |xs| >= 2
    ensures var t := HpoSearch.GridTrial(h, dataset, k);
      Train(libm, xs, xs, xs, FEATURES, t.nComponents, t.percentile).Success?
  {
    HpoSearch.GridWithinBounds(h, dataset, k);
    var t := HpoSearch.GridTrial(h, dataset, k);
    TrainSucceedsExactly(libm, xs, xs, xs, FEATURES, t.nComponents, t.percentile);
  }
}
