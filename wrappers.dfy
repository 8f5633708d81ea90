/** The optional value the log parser returns in place of JavaScript's `null`. */
module Wrappers {

  datatype Option<T> = None | Some(value: T)
}
