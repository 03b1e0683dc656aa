/** The optional value used for every field that may be absent or unparsable. */
module Wrappers {

  datatype Option<+T> = None | Some(value: T)
}
