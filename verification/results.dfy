/** Failure-carrying return types used throughout the pipeline in place of
    the source's printed errors and raised exceptions. */
module Results {

  /** A value that may be absent: the cleaners return nothing after they have
      reported an error. */
  datatype Option<+T> = None | Some(value: T)

  /** Either a computed value or the kind of error the stage raised. */
  datatype Result<+T, +E> = Success(value: T) | Failure(error: E)
}
