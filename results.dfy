/** Failure-carrying datatypes shared by the other modules: an optional value and
    the value-or-error result that Rust's `Option` and `Result` stand for. */
module Results {

  datatype Option<+T> = None | Some(value: T)

  datatype Result<+T, +E> = Success(value: T) | Failure(error: E)
}
