/** The optional-value datatype used for "no match" results and for the
    index key of hunks seen before any file header. */
module Wrappers {

  datatype Option<+T> = None | Some(value: T)
}
