/** Absent values and refusals, as the source returns them. */
module Options {

  datatype Option<+T> = None | Some(value: T)

  datatype Result<+T> = Ok(value: T) | Refused
}
