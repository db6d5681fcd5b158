/** How the modelled Python functions end: with a value, or by raising. */
module Outcomes {
  datatype Option<+T> = None | Some(value: T)

  datatype Result<+T> = Ok(value: T) | Raised(reason: string)
}
