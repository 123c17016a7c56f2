# Verified model of the telemetry anomaly platform

The platform trains PCA models on stored telemetry, scores rows with them, watches live streams with a
robust statistical detector, fuses both detectors into alerts, and runs training, tuning and scoring as
background jobs. This project models that core in Dafny and proves what it promises, for every input,
every run or every interleaving.

`dafny verify dfyconfig.toml` checks everything.

## How it is organised

Code that changes state is written as methods and classes, each proved equal to a function of its
inputs or of its old state; the promises are lemmas about those functions.

| file | models |
|---|---|
| `Contract.dfy`, `Sealing.dfy` | shared declarations; a device that keeps large definitions out of the solver's way |
| `Linalg.dfy`, `RotationAngle.dfy`, `Jacobi.dfy`, `EigenSym.dfy` | vectors and matrices; the Jacobi angle; plane rotations, their invariants and convergence; the in-place diagonalisation |
| `OrderStats.dfy` | `nth_element`, percentile, median and MAD |
| `RunningStats.dfy` | the one-pass mean and co-moment accumulator |
| `PcaSpec.dfy`, `Reconstruction.dfy`, `Spectrum.dfy`, `PcaTheorems.dfy`, `Eigenpairs.dfy`, `PcaTrainer.dfy` | what training computes, the theory of its output, and the training code |
| `Doubles.dfy`, `PcaModel.dfy` | doubles with infinities and NaN; the artifact document, loading and scoring |
| `Telemetry.dfy` | keyset pagination, batched training, the scoring worker |
| `DetectorA.dfy`, `AlertManager.dfy` | the streaming detector; hysteresis, cooldown and fusion |
| `ModelCache.dfy`, `CacheLaws.dfy` | the model cache with its lock dropped while loading; what its runs tell from their events |
| `JobManager.dfy`, `JobLaws.dfy`, `Tuning.dfy`, `TuningJobs.dfy`, `BestTrial.dfy` | job threads and how jobs end; the tuning loop; the loop on top of the job manager; the choice of the best trial |
| `Hpo.dfy`, `TrialTraining.dfy`, `EvalMetrics.dfy` | search validation and generation; accepted trials train; confusion counts and curves |

## Main results

- **Diagonalisation.** For every symmetric matrix and iteration limit the loop ends with orthonormal `V`,
  symmetric `D`, `D = VᵀAV` and `A = VDVᵀ`. Each rotation lowers the off-diagonal weight by exactly twice
  the squared pivot, the weight shrinks geometrically, and the break is reached within logarithmically many
  iterations. The angle the code takes is shown to meet the two equations this rests on.
- **Training.** The one-pass accumulator equals the two-pass definition, so the second pass yields the zero
  vector; explained variances are non-negative, descending and sum to the number of varying features; a
  row's error never rises with the number of components and is zero with all of them; the threshold is
  monotone in both parameters. The components are eigenvectors: for five features, whatever the rows, each
  misses by a squared error of at most 2e-8. Errors and variances are tied together: the squared training errors sum to
  `n - 1` times the variance the kept components leave unexplained. The training code, batched or in memory,
  computes exactly this.
- **Scoring.** After a write and load the model gives every row the score of its artifact, and a model
  trained at percentile `p` flags at most `n - ceil(p n / 100)` of its own rows. A zero in a stored scale makes
  every error NaN and silences the model.
- **Streams.** The detector's window, sums, median and MAD after any stream; exactly which values are flagged
  and which are kept out, in terms of the window's median and MAD; exactly when a score comes from
  uninitialised statistics; exactly when an alert fires; how far apart alerts are.
- **Concurrency.** The cache's bounds in every interleaving of two-phase look-ups; its byte counter is exact if
  and only if every insertion that overwrote an entry its own evictions had kept was followed by a `Clear`,
  and without overlapping misses on one id none overwrites. A model served without loading was answered for
  within the time to live, and conversely. How every job ends, from the events alone; the job table's invariant in every interleaving;
  a cancelled job never completes; after the first call of `Stop` every thread was joined once.
- **Search and evaluation.** Pagination visits every row once, and exactly when a pass misses some; the tuning
  loop's limit, order and pairing, and when the job manager's slots are too few for it;
  the trial estimate is exact for accepted configurations; the shape of the ROC and PR curves.

Nine promises hold only under a condition, and the model states which:

- the tuning loop pairs runs with their own configurations if and only if no creation succeeds after a failed
  one (`PairedExactly`, failing input in `LateSuccessMispairs`);
- launching trials does not throw if and only if the job manager has as many free slots as trials are wanted
  (`BurstThrowsExactly`, with the default settings in `DefaultSlotsTooFew`);
- a warm detector avoids uninitialised statistics if and only if the recompute interval divides a positive
  history (`ColdScoresExactly`, failing input in `TenIsNoMultipleOfSeven`);
- a start ends the process if and only if the id is running and the manager would take the job
  (`StartTerminatesExactly`, failing run in `RestartTerminates`);
- the cooldown is kept after an alert if and only if that alert carries a time after the epoch
  (`CooldownKeptExactly`, failing input in `EpochDefeatsCooldown`);
- the cache's byte counter is exact if and only if no overwriting insertion is left without a later `Clear`
  (`CounterExactly`, failing run in `OverlapDrifts`);
- a training pass sees the whole dataset if and only if no query that returns rows is interrupted, ids are
  positive and the batch size is not zero (`WholeDataset`, failing input in `SecondPageLost`): a failed query
  ends the pass silently;
- a scoring job resumed from its record scores every row once if and only if no row lies between the stored
  checkpoint and the last row scored (`ResumeExactly`); that is so unless a write of its progress was lost,
  which the code only logs (`ScoreDataset`);
- the best trial is chosen if and only if it has a run id (`SelectBest`, failing input in `UnnamedForgets`). The
  database cannot return an empty one, since the id is a UUID primary key (`db/init.sql:91`); only another
  implementation of the database interface (`src/idb_client.h:72`) could.

## Model

| member | source | states |
|---|---|---|
| `Linalg.DotProduct` | src/linalg/matrix.cpp:68-77 | the loop returns the inner product, or the dimension error on unequal lengths |
| `Linalg.MatVec` | src/linalg/matrix.cpp:53-66 | entry i of the result is the inner product of row i with the vector; dimension error otherwise |
| `Linalg.Transpose` | src/linalg/matrix.cpp:27-35 | entry (i, j) of the new matrix is entry (j, i) of the old one |
| `RotationAngle.HalfAngleAnnihilates` | src/linalg/matrix.cpp:136-138 | cosine and sine of half the angle of `(aqq - app, 2 apq)` lie on the unit circle and zero the pivot entry, for every pivot |
| `RotationAngle.AngleExists` | src/linalg/matrix.cpp:136-138 | whatever square root is given, an angle function with the properties the other lemmas require exists |
| `Jacobi.FindPivot` | src/linalg/matrix.cpp:98-113 | the returned magnitude bounds every entry above the diagonal and is attained at the returned position unless it is zero |
| `EigenSym.MaxOffdiag` | src/linalg/matrix.cpp:98-113 | the scanning loop finds that pivot |
| `Jacobi.RotateDot` | src/linalg/matrix.cpp:158-163 | a plane rotation keeps every inner product |
| `Jacobi.OverwriteAgrees` | src/linalg/matrix.cpp:140-156 | on a symmetric matrix the four values written over the pivot block are the ones the two rotations already gave |
| `Jacobi.StepDecomposes` | src/linalg/matrix.cpp:132-163 | one pass keeps V orthonormal by rows and by columns and complete, D symmetric, D = VᵀAV and A = VDVᵀ |
| `Jacobi.StepDropsWeight` | src/linalg/matrix.cpp:132-156 | one pass lowers the sum of squared off-diagonal entries by exactly twice the squared pivot |
| `Jacobi.StepKeepsTrace` | src/linalg/matrix.cpp:132-156 | one pass keeps the trace |
| `Jacobi.DiagonaliseDecomposes` | src/linalg/matrix.cpp:116-172 | after any number of passes the decomposition and the trace hold; leaving by the break means every off-diagonal entry is below eps, otherwise the limit was used up |
| `Jacobi.RotationsCostWeight` | src/linalg/matrix.cpp:124-164 | k rotations lower the weight by at least `2 k eps²` |
| `Jacobi.WeightShrinksGeometrically` | src/linalg/matrix.cpp:124-164 | after k rotations the weight is at most `(1 - 2/(n(n-1)))^k` of the initial weight |
| `Jacobi.EnoughIterationsConverge` | src/linalg/matrix.cpp:124-164 | an iteration limit above `weight / (2 eps²)` makes the loop leave by its break |
| `Jacobi.FewIterationsConverge` | src/linalg/matrix.cpp:124-164 | logarithmically many iterations suffice: the break is reached once `(1 - 2/(n(n-1)))^(limit - 1)` times the initial weight is below `2 eps²` |
| `EigenSym.RotateAt` | src/linalg/matrix.cpp:132-163 | the in-place body rewrites both matrices to the rotated ones |
| `EigenSym.RunLoop` | src/linalg/matrix.cpp:124-164 | the in-place loop, with its break and its limit, leaves the iterated matrices |
| `EigenSym.EigenSymJacobi` | src/linalg/matrix.cpp:116-172 | the code returns the diagonal and the vectors of that iteration; dimension error on a non-square input |
| `EigenSym.EigenpairsOf` | src/linalg/matrix.cpp:116-172 | for the caller: orthonormal vectors v with value `v A v` each, values summing to the trace of A; with enough iterations `u A v` is below eps for any two and each pair misses `A v = value v` by a squared length of at most `(n - 1) eps²` |
| `EigenSym.DefectIsOffRow` | src/linalg/matrix.cpp:116-172 | at any number of passes the squared length of `A v - value v` is exactly what the row of D holds off the diagonal |
| `EigenSym.DefectsShrink` | src/linalg/matrix.cpp:116-172 | after k rotations, the limit used up or not, the squared defects of all returned pairs sum to at most `(1 - 2/(n(n-1)))^k` of the initial weight |
| `RunningStatistics.RunningStats.Update` | src/training/pca_trainer.cpp:32-51 | in place: count, mean and co-moments become the updated ones; a row of the wrong size is refused and changes nothing |
| `RunningStatistics.MeanIsAverage` | src/training/pca_trainer.cpp:36-41 | after every non-empty sequence the mean is the column sum over the count |
| `RunningStatistics.OnePassIsTwoPass` | src/training/pca_trainer.cpp:36-50 | after every sequence `m2(i, j)` is the sum of products of deviations from the final means |
| `RunningStatistics.M2Symmetric` | src/training/pca_trainer.cpp:46-50 | the co-moment matrix is symmetric although each update is not |
| `OrderStats.KthCounts` | src/training/pca_trainer.cpp:95-97 | at most k values are below the value at sorted position k, more than k are at most it |
| `OrderStats.KthIgnoresOrder` | src/detectors/detector_a.cpp:21-31 | an order statistic does not depend on the order `nth_element` left the buffer in |
| `OrderStats.KthMonotone` | src/training/pca_trainer.cpp:95-97 | order statistics keep pointwise order |
| `OrderStats.PercentileSplits` | src/training/pca_trainer.cpp:82-98 | at most `n - ceil(p n / 100)` values exceed the result; fewer than `p n / 100` (none at rank up to 1) lie below it |
| `OrderStats.MadCoversMajority` | src/detectors/detector_a.cpp:12-35 | the MAD is positive and at least `n/2 + 1` window values lie within it of the median |
| `OrderStats.MedianExactly` | src/detectors/detector_a.cpp:17-22 | the median is the one value with at most half of the window (rounded down) below it and more than that at or below it |
| `OrderStats.MadExactly` | src/detectors/detector_a.cpp:24-34 | the MAD is the one distance that at most half of the window is nearer to the median than and more than that within; 1e-6 stands for zero |
| `OrderStats.MadAttained` | src/detectors/detector_a.cpp:24-34 | every non-empty window has such a distance |
| `OrderStats.MedianBreakdown` | src/detectors/detector_a.cpp:18-22 | replacing at most `(n-1)/2` of n values by anything leaves the median between two untouched values |
| `Reconstruction.ArgsortFacts` | src/linalg/matrix.cpp:83-95 | every index once, values descending, ties by index |
| `PcaSpec.SignIsCanonical` | src/training/pca_trainer.cpp:100-115 | a vector and its opposite give the same component, whose entry of largest magnitude is not negative |
| `PcaTrainer.EnforceComponentSign` | src/training/pca_trainer.cpp:100-115 | the in-place code gives that sign |
| `Reconstruction.ComponentsOrthonormal` | src/training/pca_trainer.cpp:150-168 | selecting, ordering and sign-fixing keep the components orthonormal |
| `Reconstruction.ResidualIsRest` | src/training/pca_trainer.cpp:186-192 | project-and-reconstruct equals removing the projections one after the other from the centred row |
| `Reconstruction.RestNorm` | src/training/pca_trainer.cpp:186-193 | one more component lowers the squared error by exactly the squared projection |
| `Reconstruction.RestShrinks` | src/training/pca_trainer.cpp:186-193 | the squared error is non-negative and non-increasing in the number of components |
| `Reconstruction.AllComponentsExplain` | src/training/pca_trainer.cpp:186-193 | with all components nothing is left of any vector |
| `Spectrum.GramQuadratic` | src/training/pca_trainer.cpp:141-148 | the quadratic form of a Gram matrix is a sum of squares |
| `Spectrum.CovIsGram` | src/training/pca_trainer.cpp:134-148 | the scaled covariance is the Gram matrix of the standardised rows over n - 1 |
| `Spectrum.CovQuadratic` | src/training/pca_trainer.cpp:134-148 | the quadratic form of the scaled covariance is the sum of squared projections of the standardised rows over n - 1 |
| `Spectrum.CovPositive` | src/training/pca_trainer.cpp:134-148 | the scaled covariance of every sample stream is positive semidefinite |
| `Spectrum.SpreadVanishes` | src/training/pca_trainer.cpp:134-139 | a second moment is zero exactly when the feature is constant, which is when the scale falls back to 1 |
| `Spectrum.ScaleMeans` | src/training/pca_trainer.cpp:134-139 | the scale of a feature is its sample standard deviation, or one if the feature is constant |
| `Spectrum.SamplesDecompose` | src/training/pca_trainer.cpp:150 | the eigenpairs of every stream decompose its covariance, also when 200 iterations did not suffice |
| `Spectrum.ExplainedVariances` | src/training/pca_trainer.cpp:150-159 | explained variances are non-negative and descending; all of them sum to the number of non-constant features |
| `Spectrum.ProjectionVariance` | src/training/pca_trainer.cpp:150-168 | the squared projections of the rows on a component sum to n - 1 times its explained variance |
| `Spectrum.UnexplainedVariance` | src/training/pca_trainer.cpp:150-168 | what the first k components leave of the rows is n - 1 times the variance they do not explain |
| `PcaTheorems.PcaMeanIsZero` | src/training/pca_trainer.cpp:170-181 | the second pass over the training rows yields the zero vector |
| `PcaTheorems.PcaMeanMeans` | src/training/pca_trainer.cpp:170-181 | whatever rows it sees: the second pass yields how far their average lies from the given mean, in units of the scale |
| `PcaTheorems.ErrorFallsWithComponents` | src/training/pca_trainer.cpp:150-194 | for every row, trained or not, more components never raise the error |
| `PcaTheorems.FullModelIsExact` | src/training/pca_trainer.cpp:183-194 | with every component kept every row has error zero |
| `PcaTheorems.ThresholdMonotone` | src/training/pca_trainer.cpp:82-98 | the trained threshold is non-increasing in the components and non-decreasing in the percentile |
| `PcaTheorems.TotalTrainingError` | src/training/pca_trainer.cpp:150-194 | the squared errors of the n training rows sum to exactly `(n - 1)` times (varying features minus the explained variances of the kept components), also when 200 iterations did not suffice |
| `PcaTheorems.TrainSucceedsExactly` | src/training/pca_trainer.cpp:123-196 | training succeeds exactly for one to `dim` components, rows of that size, at least two in the first pass and one in each of the others |
| `TrialTraining.AcceptedTrialTrains` | src/training/pca_trainer.cpp:358-444 | every grid trial of an accepted configuration trains on every dataset of at least two rows |
| `TrainedEigenpairs.EntryAtMostOne` | src/training/pca_trainer.cpp:141-148 | every entry of the scaled covariance is at most one in magnitude |
| `TrainedEigenpairs.TrainedPairs` | src/training/pca_trainer.cpp:150 | for every training list, 200 rotations have shrunk the defects of the pairs to `(1 - 2/(d(d-1)))^200` of the off-diagonal weight, or any two vectors are conjugate up to 1e-12 |
| `TrainedEigenpairs.FiveFeaturePairs` | src/training/pca_trainer.cpp:150 | for five features the pairs miss being eigenpairs of the covariance by a total squared length of at most 2e-8 |
| `TrainedEigenpairs.TrainedComponents` | src/training/pca_trainer.cpp:150-168 | each component of a trained artifact with its explained variance is an eigenpair of the covariance of the standardised rows up to a squared error of 2e-8 |
| `PcaTrainer.FirstPass` | src/training/pca_trainer.cpp:127-128 | the accumulator object fed with a stream holds the accumulated moments; a row of the wrong size fails |
| `PcaTrainer.SelectComponents` | src/training/pca_trainer.cpp:151-168 | the nested loops fill row i with the sign-fixed i-th best eigenvector, and its eigenvalue |
| `PcaTrainer.SecondPass` | src/training/pca_trainer.cpp:170-181 | the mean of the standardised rows, or the error on no row or a wrong one |
| `PcaTrainer.ThirdPass` | src/training/pca_trainer.cpp:183-194 | one reconstruction error per row, in order |
| `PcaTrainer.TrainPcaFromStream` | src/training/pca_trainer.cpp:119-208 | the whole training code, every error case included, returns the specified artifact of what its three passes deliver |
| `PcaTrainer.TrainPcaFromSamples` | src/training/pca_trainer.cpp:272-281 | training on a list is training with that list in each pass |
| `PcaScoring.WriteArtifactJson` | src/training/pca_trainer.cpp:284-307 | the document holds the artifact's numbers, the matrix as a list of rows |
| `PcaScoring.PcaModel.Load` | src/detectors/pca_model.cpp:62-95 | succeeds exactly for documents of the right sizes and then holds their numbers, the first five of each component; what a failed load leaves behind |
| `PcaScoring.PcaModel.ScoreRow` | src/detectors/pca_model.cpp:114-155 | error, flag and residuals of the loaded model; unloaded answers no anomaly; a PCA mean of the wrong size fails; with a zero in the stored scale the error is NaN and nothing is flagged |
| `PcaScoring.FiniteResidual` | src/detectors/pca_model.cpp:120-140 | without a zero in the scale, computing in doubles gives the residual of the reals |
| `PcaScoring.ZeroScaleIsSilent` | src/detectors/pca_model.cpp:120-152 | a zero in the stored scale silences the model: its infinity is reconstructed and cancels to NaN in every row, and NaN exceeds no threshold |
| `Doubles.TermDominates` | src/linalg/matrix.cpp:59-62 | a sum of products with an infinite or NaN term is that term or NaN |
| `PcaScoring.ServeRow` | src/detectors/pca_model.cpp:114-155 | write, load and score gives every row the score of the artifact |
| `PcaScoring.TrainingRowsFlagged` | src/training/pca_trainer.cpp:185-196 | of n training rows at most `n - ceil(p n / 100)` are flagged and fewer than `p n / 100` lie below the threshold |
| `Telemetry.Page` | src/db_client.cpp:185-190 | a query returns the next rows of the table and moves the position past exactly those; it is empty exactly at the end |
| `Telemetry.CutAndResume` | src/db_client.cpp:158-160 | a scan cut at any id and resumed from it covers the rest once, in order |
| `Telemetry.TelemetryBatchIterator.NextBatch` | src/training/telemetry_iterator.cpp:21-57 | batch, cursor and count after one call, also when the query or the reading of a row throws: then false, as at the end of the data |
| `Telemetry.TelemetryBatchIterator.Reset` | src/training/telemetry_iterator.cpp:59-62 | cursor and count return to zero |
| `Telemetry.TelemetryBatchIterator.ForEach` | src/training/pca_trainer.cpp:221-235 | one pass terminates and delivers whole pages in id order up to the first interrupted query |
| `Telemetry.WholeDataset` | src/training/telemetry_iterator.cpp:21-62 | a pass delivers the whole dataset if and only if it is empty, or ids are positive, the batch size is not zero and no query that returns rows is interrupted |
| `Telemetry.DeliveredExactly` | src/training/pca_trainer.cpp:221-235 | a pass over any rows delivers all of them if and only if none of the queries that return rows is interrupted |
| `Telemetry.SecondPageLost` | src/training/telemetry_iterator.cpp:53-56 | a pass whose second query fails delivers the first page only |
| `Telemetry.TrainPcaFromDbBatched` | src/training/pca_trainer.cpp:212-244 | trains on what its three passes deliver; if each delivers the whole dataset this is training on the stored list in memory, independently of the batch size |
| `Telemetry.ScoreDataset` | src/api_server.cpp:1876-1947 | terminates; stores for each row in `(start, last]`, in order, its id, error and flag, 5000 rows a turn; the count grows by their number; completed means no row is left; cancelled exactly if the flag is up at the last reading, failed exactly if a query or an insertion threw; the stored checkpoint is true of some earlier point, and of this one exactly unless the last write was lost |
| `Telemetry.ResumeExactly` | src/api_server.cpp:1880-1915 | a worker and a later one that resumes from the stored checkpoint score every row once if and only if no row lies between the checkpoint and where the first one stopped; those rows are scored twice |
| `Telemetry.StoredFlagMeans` | src/api_server.cpp:1909-1910 | for a loaded model a stored flag is set if and only if the row's error exceeds the threshold, and the stored error is that error |
| `Telemetry.TrainingSetFlags` | src/api_server.cpp:1897-1912 | a job that scores the training set of its model stores at most `n - ceil(p n / 100)` flags |
| `StreamingDetector.WindowIsRecentAccepted` | src/detectors/detector_a.cpp:70-82 | after every stream the buffer is the last `size` accepted values and both sums match it |
| `StreamingDetector.VarianceNonNegative` | src/detectors/detector_a.h:39-45 | the variance `Std` takes the root of is never negative |
| `StreamingDetector.VarianceMeans` | src/detectors/detector_a.h:39-45 | `Mean` is the average of the window and `Std` takes the root of its average squared distance from that |
| `StreamingDetector.WarmthIsKept` | src/detectors/detector_a.cpp:49 | the window never shrinks, so warmth is never lost |
| `StreamingDetector.StatsFromLatestRefresh` | src/detectors/detector_a.cpp:43-52 | median and MAD are those of the window at the latest recompute tick at which it was warm |
| `StreamingDetector.RefreshesExactly` | src/detectors/detector_a.cpp:43-52 | median and MAD are recomputed exactly at multiples of the interval at which the window holds `min_history` values |
| `StreamingDetector.FlaggedExactly` | src/detectors/detector_a.cpp:54-94 | with w the window of the latest recompute, a value scores its distance from the median of w over the MAD of w and is flagged if and only if that exceeds the threshold |
| `StreamingDetector.SkippedExactly` | src/detectors/detector_a.cpp:61-68 | it is kept out of the window if and only if mitigation is on and that exceeds the skip threshold |
| `StreamingDetector.FlaggedWithoutWindow` | src/detectors/detector_a.cpp:54-94 | before the first recompute a warm feature is judged by the bare magnitude over 1e-6, a cold one not at all |
| `StreamingDetector.MajorityScoresLow` | src/detectors/detector_a.cpp:54-59 | more than half of the window a feature is judged by scores at most one |
| `StreamingDetector.ColdScore` | src/detectors/detector_a.cpp:54-59 | a score before the first recompute is the magnitude of the value over 1e-6 |
| `StreamingDetector.ColdScoresExactly` | src/detectors/detector_a.cpp:43-59 | on every stream longer than the history such a score happens if and only if the window can become warm and the interval does not divide a positive history |
| `StreamingDetector.TenIsNoMultipleOfSeven` | src/detectors/detector_a.cpp:43-59 | history ten and interval seven: the eleventh value of every stream is scored by its magnitude over 1e-6 |
| `StreamingDetector.VerdictMeaning` | src/detectors/detector_a.cpp:84-102 | flagged if and only if some warm feature exceeds the threshold; the score is the largest such z-score |
| `StreamingDetector.DetectorA.UpdateFeature` | src/detectors/detector_a.cpp:45-82 | one feature's new state and z-score |
| `StreamingDetector.DetectorA.Update` | src/detectors/detector_a.cpp:37-105 | every feature's state stays that of its own stream, and the verdict is over the flags and scores of the five features as the rows above describe them |
| `AlertFusion.Fused` | src/alert_manager.cpp:40-69 | the alert's score is the largest among the detectors that flagged, never that of one that did not |
| `AlertFusion.FusedMeans` | src/alert_manager.cpp:40-69 | run id and details are passed on; source and severity are each value exactly for its combination of flags and, for the statistical detector alone, of a score above ten |
| `AlertFusion.SeverityMonotone` | src/alert_manager.cpp:47-69 | more evidence never lowers the severity; critical exactly when both detectors flagged |
| `AlertFusion.CounterIsStreak` | src/alert_manager.cpp:21-26 | the counter is at least k if and only if the last k evaluations were flagged and raised nothing |
| `AlertFusion.FiresExactlyWhen` | src/alert_manager.cpp:19-38 | an alert is raised if and only if the latest `max(1, hysteresis)` evaluations are flagged with no alert among the earlier ones and the last alert is a cooldown ago |
| `AlertFusion.AlertsSpaced` | src/alert_manager.cpp:33-38 | the k-th alert is at least `(k - i)` cooldowns after the i-th if the alerts from the i-th up to it carry times after the epoch |
| `AlertFusion.CooldownKeptExactly` | src/alert_manager.cpp:33-38 | for every configuration: after an alert, every continuation keeps the cooldown before the next one if and only if that alert carries a time after the epoch |
| `AlertFusion.EpochDefeatsCooldown` | src/alert_manager.cpp:34 | two alerts at the epoch with no cooldown between them |
| `AlertFusion.TracksStep` | src/alert_manager.cpp:17 | an evaluation of any host leaves every host with the state and alerts of its own evaluations alone |
| `AlertFusion.AlertManager.Evaluate` | src/alert_manager.cpp:9-82 | the alert it returns, and that invariant for all hosts |
| `ModelCaching.PcaModelCache.EvictLru` | src/pca_model_cache.cpp:104-119 | removes one entry that no other is older than, with its bytes, and counts it |
| `ModelCaching.PcaModelCache.EnsureCapacity` | src/pca_model_cache.cpp:98-102 | evicts oldest entries until the model fits or nothing is left |
| `ModelCaching.PcaModelCache.LookUp` | src/pca_model_cache.cpp:18-44 | the step `CacheLaws.ServedFresh` and `ServedAgain` speak of: hit, expiry, path mismatch and miss |
| `ModelCaching.PcaModelCache.Insert` | src/pca_model_cache.cpp:57-78 | oversized models are not stored; otherwise evictions, then the entry |
| `ModelCaching.PcaModelCache.InvalidateId` | src/pca_model_cache.cpp:81-89 | exactly that entry and its bytes go |
| `ModelCaching.PcaModelCache.ClearAll` | src/pca_model_cache.cpp:91-96 | everything goes and the counter is zero |
| `ModelCaching.InsertSound` | src/pca_model_cache.cpp:66-73 | after an insertion the bounds hold, evicted entries were no newer than kept ones, and the counter is off by the overwritten entry |
| `ModelCaching.FinishSound` | src/pca_model_cache.cpp:57-78 | the second half of a miss keeps the invariant, evicts old entries first, and drifts by exactly the size of an entry of the same id that the evictions kept |
| `ModelCaching.FinishDrift` | src/pca_model_cache.cpp:66-73 | an insertion raises the drift if it overwrites an entry of positive size and leaves it alone if not |
| `ModelCaching.NextSound` | src/pca_model_cache.cpp:16-119 | every atomic step keeps the invariant |
| `ModelCaching.NextDrift` | src/pca_model_cache.cpp:16-119 | `Clear` removes the drift, an overwriting insertion raises it, nothing else changes it |
| `ModelCaching.EveryRunSound` | src/pca_model_cache.cpp:16-119 | in every interleaving the counter is at least the real footprint, that never exceeds the budget, the entry count never exceeds `max(1, max_entries)`, and each returned model is the one at the requested path |
| `ModelCaching.CounterExactly` | src/pca_model_cache.cpp:16-119 | at every point of every run the byte counter is exact if and only if every overwriting insertion so far was followed by a `Clear` |
| `ModelCaching.CounterExactWithoutClear` | src/pca_model_cache.cpp:16-119 | in a run without `Clear` the counter is exact throughout if and only if no insertion overwrites |
| `ModelCaching.ExactWithoutOverlap` | src/pca_model_cache.cpp:42-73 | without overlapping misses on one id the byte counter is exact |
| `ModelCaching.OverlapDrifts` | src/pca_model_cache.cpp:72-73 | a run of two overlapping misses whose counter ends at twice the footprint |
| `ModelCaching.DriftedCacheHoldsOne` | src/pca_model_cache.cpp:98-102 | once the drift leaves no room, inserting a model evicts everything else |
| `CacheLaws.ServedFresh` | src/pca_model_cache.cpp:21-40 | a request answered at once was preceded by an answered one for the same id and path, at most the time to live earlier, with no invalidation of the id and no clearing since that answer |
| `CacheLaws.ServedAgain` | src/pca_model_cache.cpp:21-78 | conversely, a request within the time to live of an answered one is answered at once with the model at that path, if nothing since was about the id and nothing was evicted |
| `CacheLaws.CountersTell` | src/pca_model_cache.cpp:29-43 | hits and misses add up to the requests, and hits are the answers that no load gave |
| `CacheLaws.LastEvictionNeeded` | src/pca_model_cache.cpp:98-102 | before the last eviction the model did not fit |
| `JobManagement.EveryRunInv` | src/job_manager.cpp:18-149 | in every interleaving the counter is the number of running jobs, both tables have equal keys, and no start hits a joinable slot |
| `JobManagement.StartTerminatesExactly` | src/job_manager.cpp:32-57 | a start overwrites a joinable thread if and only if that id is running and the manager is neither stopping nor full |
| `JobManagement.RestartTerminates` | src/job_manager.cpp:57 | the shortest such run: one start, and the same id again |
| `JobManagement.CleanupNeverBlocks` | src/job_manager.cpp:18-30 | a thread joined under the lock has already left its epilogue, which needs the lock |
| `JobManagement.CancelReachesWorker` | src/job_manager.cpp:99-105 | cancelling a running job raises the flag of the worker that runs it |
| `JobManagement.NothingTakenBack` | src/job_manager.cpp:57-96 | over any stretch of a run a worker keeps its job, a raised flag and its outcome, and does not complete once flagged |
| `JobManagement.CancelledNeverCompletes` | src/job_manager.cpp:57-105 | a job cancelled while running is never recorded as completed until its id is started anew |
| `JobManagement.AllJoinedOnce` | src/job_manager.cpp:125-149 | when the first call of `Stop` has returned every thread ever started is over and was joined exactly once, and no job is running |
| `JobManagement.LaterStopReturnsEarly` | src/job_manager.cpp:126 | a run in which a later call of `Stop` returns while a thread is running and not joined |
| `JobLaws.FlagExactly` | src/job_manager.cpp:99-105 | an undone worker's flag is up if and only if its job was cancelled or `Stop` took the threads since it was started |
| `JobLaws.OutcomeExactly` | src/job_manager.cpp:57-96 | for good: failed if and only if the work threw, cancelled if it returned after a cancellation or a `Stop` since its start, completed otherwise; the record says the same until the id is started anew |
| `JobLaws.RunningUntilFinished` | src/job_manager.cpp:50-54 | until then the record says running |
| `JobLaws.StoppingStartsNothing` | src/job_manager.cpp:36-38 | once `Stop` has begun no thread is started any more |
| `JobManagement.JobManager.StartJob` | src/job_manager.cpp:32-57 | outcome and state of a start, each refusal included |
| `JobManagement.JobManager.CleanupFinishedThreads` | src/job_manager.cpp:18-30 | joins and forgets exactly the threads of finished jobs |
| `JobManagement.JobManager.WorkerEpilogue` | src/job_manager.cpp:63-95 | the step `JobLaws.OutcomeExactly` speaks of: the outcome, the record and the counter |
| `JobManagement.JobManager.CancelId` | src/job_manager.cpp:99-105 | raises that job's flag and nothing else |
| `JobManagement.JobManager.BeginStop` | src/job_manager.cpp:125-126 | the flag exchange outside the lock; tells the first call from later ones |
| `JobManagement.JobManager.CollectThreads` | src/job_manager.cpp:130-144 | the locked section raises every flag and takes every thread |
| `JobManagement.JobManager.JoinCollected` | src/job_manager.cpp:146-148 | joins one collected thread |
| `TuningLoop.CreateTrials` | src/api_server.cpp:1036-1065 | the ids kept are the non-empty ones, in order |
| `TuningLoop.PairedExactly` | src/api_server.cpp:1061-1082 | every run gets its own configuration if and only if no creation succeeds after a failed one |
| `TuningLoop.LateSuccessMispairs` | src/api_server.cpp:1061-1084 | one failed creation before a successful one: the second trial is launched with the first configuration |
| `TuningLoop.EveryRun` | src/api_server.cpp:1068-1103 | in every run at most `max_concurrency` trials are active, the launched ones are a prefix in order with their configurations, retired ones were seen terminal, and a normal end means all were |
| `TuningLoop.FinishesInTime` | src/api_server.cpp:1071-1103 | if every poll retires some trial the loop ends after at most one turn more than there are trials |
| `TuningLoop.StopEndsLoop` | src/api_server.cpp:1072-1077 | a raised stop flag ends the loop at that turn, for good and with nothing more launched |
| `TuningLoop.StoppedOnlyByFlag` | src/api_server.cpp:1072-1077 | nothing else ends it that way |
| `TuningLoop.Orchestrator.Launch` | src/api_server.cpp:1080-1087 | the inner loop launches up to the limit, or stops at the launch that throws |
| `TuningLoop.Orchestrator.Poll` | src/api_server.cpp:1093-1102 | exactly the terminal trials leave the active set |
| `TuningLoop.Orchestrator.TakeOneTurn` | src/api_server.cpp:1071-1103 | one turn of the loop keeps the state that of the specified run |
| `TuningJobs.BurstIsLaunch` | src/api_server.cpp:1080-1087 | launching through the job manager is the loop's own launching, refused where the manager refuses |
| `TuningJobs.StartTakesSlot` | src/job_manager.cpp:32-57 | a trial that is not running is started if a slot is free and refused as queue full otherwise |
| `TuningJobs.BurstThrowsExactly` | src/api_server.cpp:1079-1087 | a burst of launches, no job ending meanwhile, throws if and only if the loop wants to start more trials than the manager has free slots |
| `TuningJobs.DefaultSlotsTooFew` | src/api_server.cpp:1306 | with the default four slots and only the tuning job running, the first turn throws if and only if there are four trials or more and the limit is four or more |
| `TuningJobs.AcceptedNotClamped` | src/api_server.cpp:1306 | for an accepted configuration the clamp of the concurrency limit to one to ten changes nothing |
| `TrialSelection.SelectBest` | src/api_server.cpp:1495-1528 | the first completed eligible trial that none beats on threshold, completion time, index is chosen if and only if it has a run id; such a trial exists unless there is no candidate, and then none is chosen; in general the answer is the best from after some candidate without an id |
| `TrialSelection.BestMeans` | src/api_server.cpp:1492-1520 | no candidate has a lower threshold than the best; at the same threshold none was completed earlier; at the same time none has a lower index |
| `TrialSelection.UnnamedForgets` | src/api_server.cpp:1507-1508 | a best trial without a run id is passed over for a worse one |
| `TrialSelection.BestIgnoresOrder` | src/api_server.cpp:1492-1528 | with distinct indexes the choice does not depend on the order the trials are listed in |
| `HpoSearch.ValidateHpoConfig` | src/training/pca_trainer.cpp:358-402 | exactly the offending fields are reported; nothing is reported exactly for the accepted configurations |
| `HpoSearch.GenerateTrials` | src/training/pca_trainer.cpp:404-444 | grid trial i is `(N[i / P], P[i % P])` up to the limit, random trials are the drawn ones, anything else yields none |
| `HpoSearch.PreflightOf` | src/training/pca_trainer.cpp:325-356 | the estimate never exceeds the candidates, and a cap is named exactly when it is below them |
| `HpoSearch.AcceptedIsExact` | src/training/pca_trainer.cpp:325-444 | for every accepted configuration the estimate is the number of generated trials, between 1 and 50 |
| `HpoSearch.EstimateExactly` | src/training/pca_trainer.cpp:325-444 | for every configuration, when the estimate is exact |
| `HpoSearch.GridWithinBounds` | src/training/pca_trainer.cpp:377-425 | grid trials lie within the validated bounds, defaults included |
| `HpoSearch.RandomWithinBounds` | src/training/pca_trainer.cpp:427-440 | so do random ones |
| `HpoSearch.GridCoversOnce` | src/training/pca_trainer.cpp:414-426 | every combination has exactly one position in the grid |
| `HpoSearch.GridMeans` | src/training/pca_trainer.cpp:407-426 | grid trial k in terms of the configuration alone, with three components and 99.5 for an empty axis |
| `Evaluation.ReadSamples` | src/db_client.cpp:1887-1893 | the first `max_samples` rows if that is positive, else all |
| `Evaluation.CountConfusion` | src/db_client.cpp:1895-1902 | each count is its class, and they sum to the number of samples |
| `Evaluation.BuildCurve` | src/db_client.cpp:1906-1938 | the nested loops compute the points of the sampled thresholds; no samples give no points |
| `Evaluation.CurveShape` | src/db_client.cpp:1904-1938 | along the curve thresholds never rise, both rates never fall, everything lies in [0, 1], and each point is that of the unsorted samples |
| `Evaluation.CurveEnds` | src/db_client.cpp:1904-1938 | the curve spans all errors; the last point has `tpr = 1` if a positive exists and `fpr = 1` if a negative exists |
| `Evaluation.PointIgnoresOrder` | src/db_client.cpp:1904-1905 | a point does not depend on how ties were sorted |
| `Evaluation.PointMeans` | src/db_client.cpp:1929-1931 | precision is the share of positives among the samples at or above the threshold, the rates the shares of positives and of negatives that are there |
| `Evaluation.PointIndexExactly` | src/db_client.cpp:1921 | point i of m takes its threshold at index `i (n - 1) / (m - 1)`, rounded down |
| `Evaluation.PointCount` | src/db_client.cpp:1906-1908 | the requested number of points, fifty by default, held between ten and two hundred |

## Left out

What the model takes as given:

- Doubles are exact reals: rounding, overflow and signed zeros are not modelled, so nothing is said about drift of the incremental sums in floating point. Infinities and NaN are modelled in scoring only (`Doubles`).
- `sqrt` is a parameter that returns the non-negative root, the rotation angle a parameter that returns a cosine and sine; `RotationAngle` shows that half the `atan2` angle qualifies.
- `nth_element` and `sort` are their results (the value at a sorted position, a sorted permutation); the elementwise `vec_*` helpers are sequence functions.
- Counters, `size_t` and record ids are unbounded integers; only the `size_t` casts of the detector's configuration are explicit.
- The JSON file is the identity on its number tree; file errors, metadata and the `details` strings are left out.
- The telemetry table holds distinct ids and is not written during a job. The scoring worker's reading of its own record succeeds, also in its failure handler; its model load and status transitions are left out.
- The artifact store does not change while the cache runs, and `EstimateMemoryUsage` is a number stored with the model.
- A run of the job manager never restarts an id that is still running; `StartTerminatesExactly` says what the code does when one is.
- The tuning loop's database statuses, stop flag and refused launches are inputs of each turn (`TuningJobs` says which launches the manager refuses); run ids are distinct; `max_concurrency` is taken after its cast, and with limit zero nothing is ever launched.
- Random search positions are arbitrary in-range draws; seeds and distributions are left out.

Members that state less than the code does:

- EigenSym.EigenSymJacobi: requires `eps > 0`, because with `eps <= 0` the code goes on to rotate a diagonal matrix at position (0, 0), which is no rotation.
- PcaScoring.PcaModel.Load: requires component rows no shorter than the first, because the code reads past the end of a shorter row, which C++ leaves undefined.
- StreamingDetector.DetectorA.Update: requires a non-zero recompute interval, because the code takes a remainder by it.
- TrialSelection.SelectBest: completion times are strings of characters, compared in code order, and every candidate carries a metric value.

Not modelled:

- `matmul`, which none of the modelled code calls, and `GetStats`, `GetStatus` and `ListJobs`, which only read.
- HTTP routing, JSON assembly, error classification, logging, metrics and heartbeats.
- SQL, the connection pool, gRPC, the generator and the database's own status transitions; the finite job state table.
- Time parsing and bucketing, error histograms, dataset fingerprints, status aggregation of tuning runs.
- The user interface, deployment files, migrations and scripts.
