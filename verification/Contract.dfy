/** Shared declarations: `src/contract.h`, and results of operations that can fail. */
module Contract {
  /** `FeatureVector::kSize`. */
  const FEATURES: nat := 5

  datatype Option<+T> = None | Some(value: T)

  datatype Result<+T, +E> = Success(value: T) | Failure(error: E)
}
