/** Failure-carrying datatypes shared by every module of the model:
    Python's `None`-or-value becomes `Option`, and a call that either
    returns or raises becomes `Result`. */
module Common {

  datatype Option<+T> = None | Some(value: T)

  datatype Result<+T, +E> = Ok(value: T) | Err(error: E)

  /** The Python exception classes the modelled code raises or catches;
      `msg` is what `str(e)` yields. */
  datatype PyError =
    | AttributeError(msg: string)
    | TypeError(msg: string)
    | ValueError(msg: string)
    | IndexError(msg: string)
    | ZeroDivisionError(msg: string)
}
