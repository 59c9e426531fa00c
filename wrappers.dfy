/** Optional values and results carrying an error message, the shapes the
    TypeScript code expresses with `T | null`, `T?` and thrown `Error`s. */
module Wrappers {

  datatype Option<+T> = None | Some(value: T) {
    function GetOr(default: T): T {
      match this
      case Some(v) => v
      case None => default
    }
  }

  /** `Err(message)` stands for a thrown `Error` whose `message` is `message`. */
  datatype Result<+T> = Ok(value: T) | Err(message: string)
}
