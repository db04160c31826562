/** The Python exceptions the modelled code can raise, and the result type that carries them. */
module Errors {

  /** Exceptions raised by the bot helpers. `StopBot` is the bot's own `StopBotException`;
      the others are the built-in exceptions the helpers run into. */
  datatype Exception =
    | StopBot         // an unsupported GraphQL variable
    | AssertionError  // a failed `assert` on the keyword arguments or the result shape
    | KeyError        // an operation name missing from the operation catalogue
    | IndexError      // the least key of an empty dict
    | AttributeError  // `.keys()` on a non-dict, or a primitive that does not exist
    | TypeError       // `len()` of a value that has no length, `_status` given an operation, or a
                      // primitive given `self` or `op` as a keyword

  datatype Result<+T> = Ok(value: T) | Err(error: Exception)

  datatype Option<+T> = None | Some(value: T)
}
