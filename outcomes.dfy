/** The error taxonomy shared by both handler sets, in place of FastAPI's HTTPException. */
module Outcomes {

  /** The four ways a request can be refused. */
  datatype Error = AlreadyRegistered | NotFound | InvalidCredential | HashMismatch

  /** The result of a handler that reports success or one error. */
  datatype Outcome = Pass | Fail(error: Error)

  /** The result of a handler that also returns a value on success. */
  datatype Result<T> = Ok(value: T) | Err(error: Error)

  /** The HTTP status each handler raises for an error: all of them are client errors. */
  function StatusCode(e: Error): (code: nat)
    ensures 400 <= code < 500
    ensures code == 404 <==> e == NotFound
    ensures code == 401 <==> e == InvalidCredential
    ensures code == 400 <==> e == AlreadyRegistered || e == HashMismatch
  {
    match e
    case AlreadyRegistered => 400
    case NotFound => 404
    case InvalidCredential => 401
    case HashMismatch => 400
  }
}
