/** Absent values and refusals, for the source's `None` and its exceptions. */
module Wrappers {
  datatype Option<+T> = None | Some(value: T)

  /** An accepted value, or a refusal that names the check which failed. */
  datatype Result<+T> = Ok(value: T) | Refused(reason: string)
}
