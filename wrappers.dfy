/** The optional value used for possibly-null Java references. */
module Wrappers {

  datatype Option<+T> = None | Some(value: T)
}
