/** The two wrappers the model uses in place of Java's nullable references and
    thrown exceptions, and the one string test both request filters rely on. */
module Base {

  /** A Java reference that may be null: `None` is null. */
  datatype Option<+T> = None | Some(value: T)

  /** A computation that either returns a value or throws an exception. */
  datatype Result<+T, +E> = Ok(value: T) | Err(error: E)

  /** Spring's `StringUtils.hasLength`: the string is neither null nor empty.
      Whitespace counts as content. */
  predicate HasLength(s: Option<string>)
  {
    s.Some? && |s.value| > 0
  }
}
