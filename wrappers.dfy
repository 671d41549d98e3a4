/** The optional value used for callbacks that may or may not fire. */
module Wrappers {

  datatype Option<T> = None | Some(value: T)
}
