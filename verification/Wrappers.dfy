/** A value that may be missing: nil in Go, an SQL NULL or a JavaScript null. */
module Wrappers {
  datatype Option<+T> = None | Some(value: T)
}
