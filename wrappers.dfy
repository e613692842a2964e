/** Option and Result values shared by every module of the model. */
module Wrappers {

  datatype Option<+T> = None | Some(value: T) {
    function GetOr(default: T): T {
      match this
      case Some(v) => v
      case None => default
    }
  }

  /** An operation that either returns a value or raises the named Python error. */
  datatype Result<+T> = Ok(value: T) | Err(error: PyError)

  /** The Python exceptions that the modelled code lets escape. */
  datatype PyError =
    | ValueError      // bad unpacking, or int()/float() of a non-number
    | IndexError      // a list index past the end
    | KeyError        // a dictionary lookup of a missing key
    | AttributeError  // a method called on None (a failed regex match)
    | TypeError       // None used where a string is required
    | UnboundLocal    // a local read before any assignment
    | AssertionError  // a failed `assert`
    | CalledProcess   // a subprocess exited with a non-zero status
    | Abort           // the command line framework's abort: the command stops with exit status 1
    | ExitCode(code: int)  // sys.exit(code)
}
