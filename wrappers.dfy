/** The usual Some/None datatype, used for decoding that can fail and for lookups that can miss. */
module Wrappers {

  datatype Option<+T> = None | Some(value: T)
}
