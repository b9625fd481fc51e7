/** The Option datatype used for the JavaScript `null` / `undefined` results. */
module Wrappers {

  datatype Option<+T> = None | Some(value: T)
}
