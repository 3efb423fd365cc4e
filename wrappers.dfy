/** The optional value used for "no match" and "payload could not be decoded". */
module Wrappers {

  datatype Option<+T> = None | Some(value: T)
}
