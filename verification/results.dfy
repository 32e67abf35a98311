/** Failure-carrying values shared by both balance providers. */
module Results {

  /** A value that may be absent; stands for a nullable reference in the source. */
  datatype Option<+T> = None | Some(value: T)

  /** Either a computed value or the reason the computation stopped. */
  datatype Result<+T, +E> = Success(value: T) | Failure(error: E)
}
