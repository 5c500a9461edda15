/** The option type shared by every module of the model. */
module Wrappers {

  /** A Go pointer field: nil or a value. */
  datatype Option<+T> = None | Some(value: T)
}
