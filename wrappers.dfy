/** The Option type used for an optional hour and for parse results. */
module Wrappers {
  datatype Option<+T> = None | Some(value: T)
}
