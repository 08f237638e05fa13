/** What a request handler sends back. */
module Http {

  /** The HTTP status code and the `message` field of the JSON body. */
  datatype Response = Response(status: int, message: string)
}
