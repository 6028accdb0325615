/** The optional value used for the record fields that Java leaves `null` until a setter runs. */
module Wrappers {
  datatype Option<+T> = None | Some(value: T)
}
