/** The error responses a handler raises as `HTTPException`s, and their status codes. */
module Http {
  import opened Wrappers

  datatype Error =
    | MissingUserHeader   // the temporary `X-User-Id` header is absent
    | Unauthorized        // the bearer token or the login credentials do not check out
    | Forbidden           // the caller is not the owner of the task
    | NotFound            // no task with that id
    | InvalidStatus       // a status string outside the enumeration
    | IntegrityViolation  // the database refused a task insert (foreign key)
    | PasswordTooShort    // register: fewer than six characters
    | UsernameExists      // register: the unique constraint on `username` fired
    | InternalError       // an exception the handler does not catch
  {
    /** The HTTP status code the response carries. */
    function Code(): (c: int)
      ensures c in {400, 401, 403, 404, 500}
      ensures c == 400 <==> this in {MissingUserHeader, InvalidStatus, IntegrityViolation, PasswordTooShort, UsernameExists}
    {
      match this
      case MissingUserHeader => 400
      case Unauthorized => 401
      case Forbidden => 403
      case NotFound => 404
      case InvalidStatus => 400
      case IntegrityViolation => 400
      case PasswordTooShort => 400
      case UsernameExists => 400
      case InternalError => 500
    }
  }

  /** What a handler answers: a body (status 200, 201 or 204 by route) or an error. */
  type Response<T> = Result<T, Error>

  /** Status codes of the successful responses. */
  const OK: int := 200
  const CREATED: int := 201
  const NO_CONTENT: int := 204
}
