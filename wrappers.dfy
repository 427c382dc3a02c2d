/** Small value wrappers shared by the other modules. */
module Wrappers {

  /** A value that may be absent (a Kotlin nullable). */
  datatype Option<+T> = None | Some(value: T)
}
