/** A value that may be missing: a nullable column, an unset variable, an absent field. */
module Wrappers {

  datatype Option<+T> = None | Some(value: T)
}
