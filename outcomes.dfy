/** Outcomes of the star-set operations: every place where the Python code raises
    becomes an `Err` carrying a tag for that raise site. */
module Outcomes {

  datatype Error =
    | BasisDimension          // a basis row's length differs from len(center)
    | PredicateWidth          // C's column count differs from the generator count m
    | PredicateLength         // len(g) differs from the row count of C
    | BasisCount              // superposition with a different number of generators
    | ConstraintLength        // the (broken) "should be of length n" guards of the intersections
    | RhsLength               // len(rhs) differs from the row count of the constraint matrix
    | IndexOutOfRange         // Python IndexError
    | ShapeMismatch           // numpy / scipy ValueError from matmul, vstack or linprog's input validation
    | UnexpectedSolverStatus  // linprog status other than 0 (optimal) or 2 (infeasible)
    | NoSolution              // linprog answered without a point (res.x is None), so reading it fails
    | TooManyMisses           // rejection sampling saw too many consecutive misses
    | NoPoints                // post_cont_pca: empty point cloud
    | PointDimension          // a point's dimension differs from the star's
    | BasisShape              // post_cont_pca: derived basis shape differs from the star's basis
    | NoValidMu               // post_cont_pca: optimizer found no mu even with the generic predicate
    | RectLength              // rect_to_star: min and max lists of different lengths
    | NotASequence            // rect_to_star handed a StarSet where a list is expected (TypeError)
    | NotImplemented          // operations that raise unconditionally
    | AssertionFailed         // a failing Python assert
    | CandidatesExhausted     // model only: the supplied stream of sample candidates ran out

  datatype Result<+T> = Ok(value: T) | Err(error: Error) {
    predicate IsFailure() { Err? }

    function PropagateFailure<U>(): Result<U>
      requires Err?
    {
      Err(error)
    }

    function Extract(): T
      requires Ok?
    {
      value
    }
  }

  datatype Option<+T> = None | Some(value: T)
}
