/** Optional values and the tagged outcome every route handler responds with. */
module Outcomes {

  /** A value that may be absent: a missing body field, header or file. */
  datatype Option<+T> = None | Some(value: T)

  /** The response of a route handler, one variant per HTTP status it sends. */
  datatype Outcome<+T> =
    | Ok(value: T)        // 200
    | Created(value: T)   // 201
    | BadRequest          // 400
    | Unauthenticated     // 401
    | Forbidden           // 403
    | NotFound            // 404
    | ServerError         // 500
  {
    /** The HTTP status code the handler answers with. */
    function Status(): (code: int)
      ensures 200 <= code < 600
      ensures code < 300 <==> Ok? || Created?
    {
      match this
      case Ok(_) => 200
      case Created(_) => 201
      case BadRequest => 400
      case Unauthenticated => 401
      case Forbidden => 403
      case NotFound => 404
      case ServerError => 500
    }
  }
}
