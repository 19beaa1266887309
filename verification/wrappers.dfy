/** Swift's optional value (`T?`). */
module Wrappers {

  datatype Option<+T> = None | Some(value: T)
}
