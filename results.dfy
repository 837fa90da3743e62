/** Go's two error conventions, as values: a bare `error` (nil or an error)
    and a `(value, error)` pair where exactly one side is meaningful. */
module Results {

  /** An optional value: a parsed id, or a request field that may be nil. */
  datatype Option<T> = None | Some(value: T)

  /** A Go `error` result: `Nil` is the nil error. */
  datatype Outcome<E> = Nil | Fail(error: E)

  /** A Go `(T, error)` result. */
  datatype Result<T, E> = Ok(value: T) | Err(error: E)
}
