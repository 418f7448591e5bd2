/** Values shared by the backend modules: Python's `None`-or-value results and
    the exceptions the backend raises, as data. */
module Wrappers {

  datatype Option<+T> = None | Some(value: T)

  /** The Python exceptions the modelled code raises itself or lets escape. */
  datatype PyError = TypeError | ValueError | KeyError

  /** What a Python call does: returns a value or raises an exception. */
  datatype Outcome<+T> = Returned(value: T) | Raised(error: PyError)
}
