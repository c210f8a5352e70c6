/** Definitions of the form `forall k: nat {:trigger Open(k)} :: Open(k) ==> ...` mean what stands after the arrow.
    They are used as a whole, since the verifier looks inside only where `Open` is mentioned. */
module Folding {
  ghost predicate Open(k: nat) { true }
}
