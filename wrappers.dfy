/** The "value or nothing" wrapper that stands in for JavaScript's `undefined`. */
module Wrappers {
  datatype Option<+T> = None | Some(value: T)
}
