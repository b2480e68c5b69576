/** The optional value used throughout the model in place of Python's `None` and TypeScript's `null`. */
module Wrappers {
  datatype Option<+T> = None | Some(value: T)
}
