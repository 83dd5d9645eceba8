/**
 * The error kinds raised by the front end and the compiler, and the
 * optional and fallible result types used throughout.  An error keeps its
 * kind and its location; the human-readable message text is not modelled.
 */
module Errors {
  import opened Locations

  datatype Error =
    | Message
    | MessageWithLocation(location: Location)
    | UnexpectedEndOfDocument

  datatype Option<T> = None | Some(value: T)

  datatype Result<T> = Ok(value: T) | Err(error: Error)
}
