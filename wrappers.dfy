/** A value that may be absent: an optional property, a nullable field or a
    storage key that holds nothing. */
module Wrappers {

  datatype Option<+T> = None | Some(value: T)
}
