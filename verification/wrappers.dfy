/** Failure-carrying datatypes used across the model. */
module Wrappers {

  /** A value that may be absent: Python's `Optional[T]`, with `None` as the absent case. */
  datatype Option<+T> = None | Some(value: T)

  /** The outcome of an operation that can raise: `Ok` carries the value, `Err` the error. */
  datatype Result<+T, +E> = Ok(value: T) | Err(error: E)

  /** Named form of `o.Some?`, so that the same predicate value can be passed around. */
  predicate IsSome<T>(o: Option<T>) {
    o.Some?
  }
}
