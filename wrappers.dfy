/** The optional value used wherever the webhook code reads a field that may be undefined. */
module Wrappers {

  datatype Option<+T> = None | Some(value: T)
}
