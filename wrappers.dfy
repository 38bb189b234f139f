/** Small result types shared by every module of the model. */
module Wrappers {

  /** A Python value that may be `None`. */
  datatype Option<+T> = None | Some(value: T)

  /** The outcome of a Python call: it returns a value, or an exception escapes from it. */
  datatype Outcome<+T> = Returned(value: T) | Raised
}
