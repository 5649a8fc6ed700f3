/** The optional value used for the source's `None` defaults and failed matches. */
module Wrappers {

  datatype Option<+T> = None | Some(value: T)
}
