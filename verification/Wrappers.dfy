/** Shared result types. */
module Wrappers {
  datatype Option<+T> = None | Some(value: T)

  /** What Python's `if text:` asks of a text that may be missing. */
  predicate Truthy(o: Option<string>) { o.Some? && o.value != "" }
}
