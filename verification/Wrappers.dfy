/** Results of operations that may have nothing to return, or that may throw. */
module Wrappers {

  datatype Option<+T> = None | Some(value: T)

  datatype Result<+T, +E> = Ok(value: T) | Err(error: E)

  /** What happens to one remote call: it works, it fails without having had
      any effect, or it takes effect and its response is lost. */
  datatype Fault = NoFault | FailsBefore | FailsAfter
}
