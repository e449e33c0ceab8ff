/** What the modules that read requests and write responses share. */
module Http {
  /** HttpRequest's ParseState, which the body decoder shares. */
  datatype ParseState = REQUEST_LINE | HEADERS | BODY | COMPLETE | ERROR

  const BAD_REQUEST: int := 400
  const PAYLOAD_TOO_LARGE: int := 413
  const URI_TOO_LONG: int := 414
  const INTERNAL_SERVER_ERROR: int := 500
  const NOT_IMPLEMENTED: int := 501
  const BAD_GATEWAY: int := 502
  const GATEWAY_TIMEOUT: int := 504
  const VERSION_NOT_SUPPORTED: int := 505
}
