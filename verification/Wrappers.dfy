/** A value that may be absent, in place of null, undefined and a missing key. */
module Wrappers {

  datatype Option<+T> = None | Some(value: T)
}
