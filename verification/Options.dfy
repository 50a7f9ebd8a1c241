/** A value that may be absent: the source's null and undefined. */
module Options {
  datatype Option<+T> = None | Some(value: T)

  /** A text that is present and not empty, which is what a truth test on it asks. */
  predicate Given(s: Option<string>) { s.Some? && s.value != "" }
}
