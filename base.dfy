/** Values shared by every module of the model: optional values, results, and the
    exceptions the backend raises or lets through. */
module Base {

  datatype Option<+T> = None | Some(value: T)

  /** The value an operation returns, or the exception it raises. */
  datatype Result<+T, +E> = Ok(value: T) | Err(error: E)

  /** A call that returns nothing useful: it either completes or raises. */
  datatype Outcome<+E> = Pass | Fail(error: E)

  /** The Python exception classes that reach the backend's handlers. */
  datatype Kind =
    | ValueError
    | TypeError
    | KeyError
    | AttributeError
    | GithubException  // raised by the GitHub client for an error status of the REST API
    | ClientError      // raised inside the GitHub client library before any request is sent
    | GeminiError      // raised by the Gemini client (transport, quota, blocked reply)

  /** A raised exception: its class and the text `str(e)` gives. */
  datatype Error = Error(kind: Kind, message: string)
}
