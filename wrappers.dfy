/** The optional value the source writes as `None` / a value (Python's Optional). */
module Wrappers {
  datatype Option<+T> = None | Some(value: T)
}
