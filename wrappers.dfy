/** The optional value used for "no partner" and "no turn". */
module Wrappers {

  datatype Option<T> = None | Some(value: T)
}
