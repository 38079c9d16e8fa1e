/** Shared value types. */
module Wrappers {
  /** A value that may be absent: a failed search, a rejected input, a missing file. */
  datatype Option<+T> = None | Some(value: T)

  type Byte = b: nat | b < 256
}
