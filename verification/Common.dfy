/** Types shared by every component of the model. */
module Common {

  /** Row identifiers are opaque strings (UUIDs in the database). */
  type Id = string

  datatype Option<+T> = None | Some(value: T)

  /** `supplied ?? fallback`: an update request leaves out the fields it does not change. */
  function OrElse<T>(supplied: Option<T>, fallback: T): T {
    match supplied
    case Some(value) => value
    case None => fallback
  }
}
