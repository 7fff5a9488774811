/** The stock option type, for values the program may find missing. */
module Wrappers {
  datatype Option<+T> = None | Some(value: T)
}
