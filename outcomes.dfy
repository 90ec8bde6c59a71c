/** Failure-carrying values shared by every module of the model. */
module Outcomes {

  datatype Option<+T> = None | Some(value: T)

  /** The Python exceptions that the modelled code can raise and let escape. */
  datatype PyError =
    | ValueError      // int() of a non-number, a tuple unpacking of the wrong length
    | KeyError        // a dict lookup of an absent key
    | IndexError      // a page index beyond the end of a document
    | ZeroDivisionError

  datatype Result<+T> = Ok(value: T) | Err(error: PyError)
}
