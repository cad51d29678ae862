/** A value that may be absent (`undefined`/`null`, or a failed parse). */
module Wrappers {
  datatype Option<T> = None | Some(value: T)
}
