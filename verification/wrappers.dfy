/** The absent-or-present value used for JavaScript `undefined` / `null`. */
module Wrappers {

  datatype Option<+T> = None | Some(value: T)
}
