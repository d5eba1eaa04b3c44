/** The optional value used for error returns and absent results. */
module Wrappers {
  datatype Option<+T> = None | Some(value: T)
}
