/** Failure-compatible result type shared by the STDA modules, and the error
    conditions the converters and accessors raise. */
module StdaResult {

  /** Why an operation raised. The first two are raised by the STDA layer
      itself; the rest are the conditions under which the array libraries it
      calls (indexing, rename, expand_dims, assign_coords, construction,
      transpose) raise. */
  datatype Error =
    | ShapeMismatch                      // buffer rank differs from the number of dimension names
    | InvalidDimensionName(name: string) // a dimension name outside the six canonical ones
    | IndexOutOfRange                    // positional access past the end of an axis
    | NotFound(name: string)             // rename/assign_coords/lookup of a dimension that is not there
    | NameConflict(name: string)         // rename or expand_dims onto a name already in use
    | ConflictingSize                    // coordinate values whose length differs from the axis length
    | DuplicateDimension                 // the same dimension name given twice
    | NotAPermutation                    // transpose order is not a permutation of the dimensions
    | InvalidTime                        // a time or lead-time label that is not a whole number of hours
    | InvalidMember                      // a member label that is not text

  datatype Result<T> = Success(value: T) | Failure(error: Error) {
    predicate IsFailure() { Failure? }

    function PropagateFailure<U>(): Result<U>
      requires Failure?
    {
      Failure(error)
    }

    function Extract(): T
      requires Success?
    {
      value
    }
  }

  datatype Option<T> = None | Some(value: T)
}
