/** Option, used for an optional's content and for reading quoted text back. */
module Wrappers {
  datatype Option<+T> = None | Some(value: T)
}
