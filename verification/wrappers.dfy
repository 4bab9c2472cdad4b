/** Optional values, used for "a tick without a numeral" and for a canvas
    program that fails (a `restore` with nothing saved). */
module Wrappers {

  datatype Option<+T> = None | Some(value: T)
}
