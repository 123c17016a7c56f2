module Sealing {
  /** The key to a sealed fact: one stated as `forall k :: Key(k) ==> ...` stays out of the solver's
      way until a proof names a key. */
  ghost predicate Key(k: int) { true }
}
