/** The optional value used for Swift's `String?` results and titles. */
module Wrappers {

  datatype Option<+T> = None | Some(value: T)
}
