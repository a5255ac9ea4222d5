/** The optional value used for Go's `(value, err)` pairs and nil-able errors. */
module Wrappers {
  datatype Option<+T> = None | Some(value: T)
}
