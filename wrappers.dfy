/** Optional values and results with an error message, shared by the modules below. */
module Wrappers {

  /** A JavaScript value that may be `undefined` or `null`. */
  datatype Option<+T> = None | Some(value: T) {
    function GetOr(default: T): T {
      match this
      case Some(v) => v
      case None => default
    }
  }

  /** JavaScript truthiness of an optional string: present and non-empty. */
  predicate Truthy(s: Option<string>) {
    s.Some? && s.value != ""
  }

  /** The outcome of a call into a collaborator that may throw. */
  datatype Result<+T> = Ok(value: T) | Err(error: string)
}
