/** The optional value used where the component may or may not act. */
module Wrappers {

  datatype Option<T> = None | Some(value: T)
}
