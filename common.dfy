/** The error kinds the Python code raises, and the optional and failing values the model returns. */
module Common {

  /** Python exceptions raised by the modelled code; GeneratorExhausted is the model's own (see GenerateProfiles). */
  datatype Error =
    | TypeError(msg: string)
    | ValueError(msg: string)
    | IndexError
    | AttributeError
    | AssertionError
    | GeneratorExhausted

  datatype Option<+T> = None | Some(value: T)

  datatype Result<+T> = Success(value: T) | Failure(error: Error)
}
