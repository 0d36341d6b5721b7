/** The optional value used for a regular-expression match that may fail and for
    a timer handle that may not have been set yet (`null` in the component). */
module Wrappers {
  datatype Option<+T> = None | Some(value: T)
}
