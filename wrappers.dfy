/** Option and Result, the failure-compatible wrappers the rest of the model uses. */
module Wrappers {

  datatype Option<+T> = None | Some(value: T)

  datatype Result<+T, +E> = Ok(value: T) | Err(error: E) {
    predicate IsFailure() { Err? }

    function PropagateFailure<U>(): Result<U, E>
      requires Err?
    {
      Err(error)
    }

    function Extract(): T
      requires Ok?
    {
      value
    }
  }
}

/** The ways an extraction call can fail. */
module GrokErrors {

  datatype GrokError =
    /** A `%{TYPE...}` token names a TYPE that is not in the template table. */
    | UndefinedTemplate(name: string)
    /** The rewritten pattern is not a regular expression the engine accepts. */
    | InvalidRegex(regex: string)
    /** `Dictionary.Add` was asked to add a key that is already present. */
    | DuplicateKey(key: string)
}
