/** What a controller hands back to the HTTP layer. */
module Http {
  import opened Json

  datatype Response =
    | BadRequest(message: string)   // ctx.badRequest: the error id, or the caught error's message
    | Created(entity: Record)       // ctx.created
    | Sent(entity: Record)          // ctx.send, or the entity a controller returns
    | ServerError(error: Thrown)    // an exception that escapes the controller
}
