/** An optional value: what a pattern search returns. */
module Wrappers {
  datatype Option<+T> = None | Some(value: T)
}
