/** The optional value used by both components (Swift's `Optional`). */
module Wrappers {
  datatype Option<+T> = None | Some(value: T)
}
