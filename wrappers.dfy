/** An optional value: a JavaScript `undefined` (or an absent field) is None. */
module Wrappers {

  datatype Option<+T> = None | Some(value: T)
}
