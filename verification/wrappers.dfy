/** The optional-value datatype used wherever the source has `T | undefined`
    or an optional (`?:`) field. */
module Wrappers {

  datatype Option<+T> = None | Some(value: T)
}
