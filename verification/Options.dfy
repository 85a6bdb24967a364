/** Optional values and results that may carry an error. */
module Options {

  datatype Option<+T> = None | Some(value: T)

  datatype Result<+T, +E> = Ok(value: T) | Err(error: E)

  /** Both values are present and equal: the engine's "exact" match. */
  predicate Matches<T(==)>(a: Option<T>, b: Option<T>) {
    a.Some? && a == b
  }

  /** Both values are present and different: the engine's "conflict". */
  predicate Contradicts<T(==)>(a: Option<T>, b: Option<T>) {
    a.Some? && b.Some? && a != b
  }
}
