/** Small shared datatypes. */
module Wrappers {

  /** A value that may be absent; stands for a nullable pointer or a failed parse. */
  datatype Option<+T> = None | Some(value: T)
}
