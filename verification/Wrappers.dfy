/** Values that may be absent: nil, a failed lookup, an error return. */
module Wrappers {
  datatype Option<+T> = None | Some(value: T)
}
