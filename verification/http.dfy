/** What an HTTP handler hands back to the web framework. */
module Http {
  const StatusOK: int := 200
  const StatusTemporaryRedirect: int := 307
  const StatusBadRequest: int := 400
  const StatusUnauthorized: int := 401
  const StatusForbidden: int := 403
  const StatusNotFound: int := 404
  const StatusServiceUnavailable: int := 503

  /** Outcome of an outbound request: the transport failed, or a status came back. */
  datatype HttpOutcome = TransportError(msg: string) | Status(code: int)

  datatype Reply =
    | Text(status: int, body: string)            // a response with a plain-text body
    | RedirectTo(status: int, location: string)  // a redirect response
    | HandlerError(msg: string)                  // the handler returned a Go error
    | HandlerPanic                               // the handler panicked
}
