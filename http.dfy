/** What a handler sends back: a status code and a text body. */
module Http {

  datatype Response = Response(status: nat, body: string)

  const Ok := 200
  const NoContent := 204
  const BadRequest := 400
  const Unauthorized := 401
}
