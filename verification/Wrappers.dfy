/** Shared value types. */
module Wrappers {

  /** A nullable column or return value. */
  datatype Option<+T> = None | Some(value: T)
}
