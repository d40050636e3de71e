/** The optional-value datatype the matcher's searches return (Python's `None` or a match). */
module Wrappers {
  datatype Option<+T> = None | Some(value: T)
}
