/** Failure tags of the expression engine and the result types that carry them. */
module Results {

  /** The ways one `evaluate` call can fail. The first three are the error classes the
      engine throws; `UndefinedToken` is the runtime TypeError raised when the parser
      reads a property of the token past the end of the token list. */
  datatype Error =
    | TokenizationError
    | ParseError
    | EvaluateError
    | UndefinedToken

  datatype Option<+T> = None | Some(value: T)

  datatype Result<+T> = Ok(value: T) | Err(error: Error)
}
