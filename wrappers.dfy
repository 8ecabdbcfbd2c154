/** The optional value the front end writes as `null` before a field is loaded. */
module Wrappers {

  datatype Option<+T> = None | Some(value: T)
}
