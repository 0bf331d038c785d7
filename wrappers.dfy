/** The optional value used wherever the quiz engine returns `null` or
    `undefined` (no progress yet, no quiz id, `NaN` from parseInt). */
module Wrappers {

  datatype Option<+T> = None | Some(value: T)
}
