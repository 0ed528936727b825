/** HTTP reduced to what the handlers and middleware decide: a status code and a body. */
module Http {
  import opened Domain

  const StatusOK := 200
  const StatusBadRequest := 400
  const StatusUnauthorized := 401
  const StatusForbidden := 403
  const StatusNotFound := 404
  const StatusInternalServerError := 500

  /** A JSON-encoded listing or service, or the plain text written by `http.Error`. */
  datatype Body = ListBody(list: ServiceListResponse) | ServiceBody(service: ServiceWithVersions) | Text(message: string)

  datatype Response = Response(status: int, body: Body)

  /** `http.Error(w, message, status)` */
  function Error(message: string, status: int): Response {
    Response(status, Text(message))
  }
}
