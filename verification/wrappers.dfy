/** Failure-carrying results shared by the modules of this model.
    `Error` names the Python exception that the modelled code raises. */
module Wrappers {

  datatype Option<+T> = None | Some(value: T)

  /** The exceptions the modelled Python code can raise. */
  datatype Error =
    | KeyError
    | IndexError
    | ValueError
    | AttributeError
    | NameError
    | NotImplementedError
    | PlainException

  datatype Result<+T> = Ok(value: T) | Err(error: Error)
}
