/** Failure-compatible wrappers shared by the model: an optional value and a
    value-or-error result. */
module Results {

  /** An optional value; `None` is what a lookup of an absent key yields. */
  datatype Option<+T> = None | Some(value: T)

  /** Either a computed value or the error the computation raised. */
  datatype Result<+R, +E> = Success(value: R) | Failure(error: E)
}
