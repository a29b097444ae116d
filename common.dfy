/** Values shared by every script: an optional value, and the outcome of a
    Python call that either returns or raises one of the exceptions the
    scripts can raise. */
module Common {

  datatype Option<T> = None | Some(value: T)

  /** The Python exceptions the modelled code can raise (and does not catch). */
  datatype PyError =
    | IndexError  // a list subscript past the end
    | KeyError    // a dictionary lookup of a missing key
    | NameError   // a reference to an undefined variable

  datatype Result<T> = Ok(value: T) | Err(error: PyError)
}
