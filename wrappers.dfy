/** Option, for values the host may leave out (a null reference on the Java side). */
module Wrappers {
  datatype Option<+T> = None | Some(value: T)
}
