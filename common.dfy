/** Small value types shared by the catalog and the report model. */
module Common {

  /** An optional value; `None` also stands for Python's falsy "nothing" results. */
  datatype Option<+T> = None | Some(value: T)

  /** A value, or the exception raised instead of producing it. */
  datatype Result<+T> = Ok(value: T) | Err(error: PyError)

  /** The Python exceptions that escape the modelled operations. */
  datatype PyError =
    | AttributeError(name: string)  // a missing attribute or method was looked up
    | ValueError(reason: string)    // a builtin rejected its argument (for example `min([])`)
}
