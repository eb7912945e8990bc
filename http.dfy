/** An error response: the HTTP status and the `message` field of its JSON body. */
module Http {

  datatype Failure = Failure(status: nat, message: string)
}
