/** The absent-or-present value used for JavaScript's `null` and for results that can fail. */
module Wrappers {

  datatype Option<+T> = None | Some(value: T)

}
