/** Absent values, and calls that return or throw. */
module Wrappers {
  datatype Option<+T> = None | Some(value: T)

  datatype Result<+T> = Ok(value: T) | Threw(reason: string)

  /** `value ?? fallback` */
  function OrElse<T>(value: Option<T>, fallback: T): T {
    match value
    case Some(v) => v
    case None => fallback
  }
}
