/** Option type for Go's nil sink and nil error. */
module Wrappers {

  /** `None` plays the role of Go's nil. */
  datatype Option<+T> = None | Some(value: T)
}
