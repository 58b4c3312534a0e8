/** The optional value used throughout the model: JavaScript's `undefined`
    result of a lookup, a NaN from parseFloat, an unset variable. */
module Wrappers {

  datatype Option<+T> = None | Some(value: T)
}
