/** The optional value used for the source's `null` / `undefined` results and fields. */
module Wrappers {

  datatype Option<+T> = None | Some(value: T)
}
