/** The absent-or-present value the JavaScript code expresses with `null`
    or `undefined`. */
module Wrappers {

  datatype Option<+T> = None | Some(value: T)
}
