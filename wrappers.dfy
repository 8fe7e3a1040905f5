/** Option and endpoint reply types shared by every module. */
module Wrappers {

  datatype Option<T> = None | Some(value: T)
  {
    function GetOr(default: T): T
    {
      match this
      case None => default
      case Some(v) => v
    }
  }

  /**
   * What an endpoint sends back: a success payload, or an error carrying the
   * HTTP status code the handler chose.
   */
  datatype Reply<T> = Ok(data: T) | Fail(code: int)

  const BadRequest: int := 400
  const Unauthorized: int := 401
  const Forbidden: int := 403
  const NotFound: int := 404
  const MethodNotAllowed: int := 405
  const Conflict: int := 409
  const Unprocessable: int := 422
  const TooManyRequests: int := 429
  const ServerError: int := 500
  const ServiceUnavailable: int := 503
}
