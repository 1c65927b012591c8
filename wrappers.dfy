/** A value that may be absent, for Go's nil messages and unset keys. */
module Wrappers {
  datatype Option<T> = None | Some(value: T)
}
