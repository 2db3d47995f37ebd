/** What a route handler answers, and the rate limiter's verdict. */
module Http {
  import opened Wrappers

  /** `NextResponse.json({ message, data }, { status })` */
  datatype Response<T> = Response(status: nat, message: string, data: Option<T>)

  const OK: nat := 200
  const BAD_REQUEST: nat := 400
  const UNAUTHORIZED: nat := 401
  const NOT_FOUND: nat := 404
  const TOO_MANY_REQUESTS: nat := 429
  const SERVER_ERROR: nat := 500

  function Ok<T>(message: string, data: T): (r: Response<T>)
    ensures r.status == OK && r.data == Some(data)
  {
    Response(OK, message, Some(data))
  }

  function Fail<T>(status: nat, message: string): (r: Response<T>)
    ensures r.status == status && r.data.None?
  {
    Response(status, message, None)
  }

  /** A success that carries no document (`{ message }` alone). */
  function Done<T>(message: string): (r: Response<T>)
    ensures r.status == OK && r.data.None? && r.message == message
  {
    Response(OK, message, None)
  }

  /**
   * The result of `rateLimiter.applyLimit(ip)`: allowed, or denied with the
   * limiter's error text. The fixed-window counting itself lives in a
   * library and is an input here.
   */
  datatype Limit = Allowed | Denied(error: string)
}
