/** A value that may be missing: a dictionary key that is absent, a form field not sent. */
module Wrappers {

  datatype Option<+T> = None | Some(value: T)
}
