/** Option, for operations of the program that either produce a value or fail. */
module Wrappers {

  datatype Option<+T> = None | Some(value: T)

}
