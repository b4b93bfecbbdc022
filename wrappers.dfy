/** The optional value of Swift's failable initialisers. */
module Wrappers {
  datatype Option<T> = None | Some(value: T)
}
