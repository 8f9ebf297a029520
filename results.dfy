/** Errors the mappings raise, and a failure-compatible result type for them. */
module Results {

  /** The exceptions of the modelled code, one constructor per kind. */
  datatype Error =
    | RankError(expected: nat, got: seq<nat>)  // the ValueError of an ndim check in a mapping
    | AxisError                                // an axis or index out of range for a leaf's rank
    | ConcatError                              // leaves that cannot be concatenated or stacked
    | SplitError                               // an array whose extent does not match the split
    | BroadcastError                           // two shapes that do not broadcast
    | StructureMismatch                        // tree.map over trees of different structure
    | KeyError(key: string)                    // a missing dictionary key
    | EmptySequence                            // an operation over no members
    | InconsistentShapes                       // sub-embeddings that declare different contracts
    | ArityError(given: nat)                   // the TypeError of a constructor called with too few or too many arguments

  datatype Result<+T> = Success(value: T) | Failure(error: Error) {

    predicate IsFailure() {
      Failure?
    }

    function PropagateFailure<U>(): Result<U>
      requires Failure?
    {
      Failure(error)
    }

    function Extract(): T
      requires Success?
    {
      value
    }
  }

  datatype Option<+T> = None | Some(value: T)
}
