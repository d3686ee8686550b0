/** Values shared by the routes: optional values, HTTP errors and route results. */
module Http {

  datatype Option<+T> = None | Some(value: T)

  /** An `HTTPException`: the status code and the `detail` text the client receives. */
  datatype HttpError = HttpError(status: nat, detail: string)

  /** What a route answers: its response body, or the HTTP error it raises. */
  datatype Result<+T> = Ok(value: T) | Err(error: HttpError)

  const BAD_REQUEST: nat := 400
  const UNAUTHORIZED: nat := 401
  const NOT_FOUND: nat := 404
  const INTERNAL_SERVER_ERROR: nat := 500
}
