/** The optional-value datatype used where the page holds "a value or nothing". */
module Wrappers {

  datatype Option<+T> = None | Some(value: T)
}
