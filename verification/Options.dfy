/** The option and result types of the modelled code. */
module Options {
  datatype Option<+T> = None | Some(value: T)

  datatype Result = Ok | Err(message: string)
}
