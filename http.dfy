/** The error responses the route handlers return. */
module Http {

  datatype HttpError =
    | Unauthorized   // no session
    | BadRequest     // the body fails its schema, or a required field is missing
    | Forbidden      // the actor may not use the referenced project
    | InternalError  // the database refused the query or the write

  /** The HTTP status code each error is sent with. */
  function Code(e: HttpError): (c: nat)
    ensures 400 <= c < 600
    ensures c == 500 <==> e == InternalError
  {
    match e
    case Unauthorized => 401
    case BadRequest => 400
    case Forbidden => 403
    case InternalError => 500
  }
}
