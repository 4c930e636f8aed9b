/** Failure values shared by the stores. */
module Wrappers {

  datatype Option<+T> = None | Some(value: T) {
    function GetOr(default: T): T {
      match this
      case Some(v) => v
      case None => default
    }
  }

  /** An optional argument that is neither absent nor empty. */
  predicate Given(s: Option<string>) {
    s.Some? && s.value != ""
  }

  /** The storage exceptions, and the ones other libraries raise through the stores. */
  datatype Error =
    | NotFound     // a file or object that does not exist
    | Conflict     // a write or transition that contradicts the stored state
    | Invalid      // input that fails validation (the store's own or the schema's)
    | Database     // the index transaction raised and rolled back
    | MissingKey   // a required key was absent from a payload read raw from disk
    | BadIndex     // the first line of a text that has none

  datatype Result<+T> = Ok(value: T) | Err(error: Error)
}
