/** A minimal optional-value datatype shared by the buffer's modules. */
module Wrappers {

  /** Either nothing, or one value. */
  datatype Option<+T> = None | Some(value: T)
}
