/** The controller's error values: a WordPress error carries a machine-readable code
    and a human-readable message, and every handler returns either its reply or one. */
module Errors {

  datatype Error = Error(code: string, message: string)

  /** A handler's return value: the reply array, or an error returned in its place. */
  datatype Result<T> = Ok(value: T) | Err(error: Error)

  /** The error `validateMeta` returns for the first missing required key. */
  function InvalidMeta(key: string): Error
  {
    Error("invalid_meta", key + " is required")
  }

  /** The error `createSnippet` returns for PHP code that already carries its opening tag. */
  const InvalidCode: Error := Error("invalid_code", "Please remove <?php from the beginning of the code")
}
