/** The optional value used for "no match" and "no number". */
module Wrappers {

  datatype Option<+T> = None | Some(value: T)
}
