/** Failure-carrying wrappers shared by both services. */
module Common {

  /** An optional value; `None` stands for JavaScript's `undefined` (an absent field or header). */
  datatype Option<+T> = None | Some(value: T)

  /** The outcome of an operation: a value, or the typed error the source throws. */
  datatype Result<+T, +E> = Ok(value: T) | Err(error: E)

  /** JavaScript truthiness of an optional string: absent and empty are both falsy. */
  predicate IsTruthy(s: Option<string>)
  {
    s.Some? && s.value != ""
  }
}
