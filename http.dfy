/** The parts of an HTTP request and response that the two handlers read and write. */
module Http {
  import opened Common

  /**
   * A request parameter as a handler receives it: absent, a string, or some other
   * JSON value (a number, a boolean, null, an object, or the array a repeated query
   * parameter becomes).
   */
  datatype Param = Absent | Str(text: string) | NonString

  /**
   * `verb` is `req.method`. `headers` holds the request headers by lower-case name (repeated headers already
   * joined with ", "); `remoteAddress` is the socket's peer address, when known.
   * `queryToken` and `bodyToken` are `req.query.token` and `req.body.token`.
   */
  datatype Request = Request(
    verb: string,
    headers: map<string, string>,
    remoteAddress: Option<string>,
    queryToken: Param,
    bodyToken: Param)

  /** A status code, the `Allow` and `Cache-Control` headers when they are set, and the JSON body. */
  datatype Response<+B> = Response(status: int, allow: Option<string>, cacheControl: Option<string>, body: B)

  /** `req.headers[name] || fallback`: a missing or empty header counts as absent. */
  function HeaderOr(req: Request, name: string, fallback: Option<string>): Option<string> {
    if name in req.headers && req.headers[name] != "" then Some(req.headers[name]) else fallback
  }
}
