/** Optional values and success-or-error results, used for nullable columns
    and for the exceptions the ORM raises. */
module Results {

  /** A nullable column value: `None` is SQL NULL / Python `None`. */
  datatype Option<+T> = None | Some(value: T)

  /** The outcome of an operation that may raise instead of returning. */
  datatype Result<+R, +E> = Success(value: R) | Failure(error: E)
}
