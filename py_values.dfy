/** Python values the checkers look at: optional strings and their truthiness. */
module PyValues {

  /** `Optional[str]`: a `__doc__` attribute, a docstring, an `err` or `msg` argument. */
  datatype Option<+T> = None | Some(value: T)

  /** `bool(x)` for an optional string: `None` and the empty string are falsy. */
  predicate Truthy(s: Option<string>) {
    s.Some? && s.value != ""
  }
}
