/** The optional value used in place of Java's `null`. */
module Wrappers {

  datatype Option<+T> = None | Some(value: T)
}
