/** The optional values the models pass around: the source's `undefined`. */
module Wrappers {
  datatype Option<+T> = None | Some(value: T)
}
