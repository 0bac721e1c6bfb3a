/** The HTTP statuses the backend produces and Spring's `ResponseEntity`. */
module Http {
  import opened Common

  datatype HttpStatus =
    | Ok
    | NoContent
    | BadRequest
    | Unauthorized
    | Forbidden
    | NotFound
    | MethodNotAllowed
    | Conflict
    | InternalServerError
  {
    /** `HttpStatus.value()` */
    function Value(): int
    {
      match this
      case Ok => 200
      case NoContent => 204
      case BadRequest => 400
      case Unauthorized => 401
      case Forbidden => 403
      case NotFound => 404
      case MethodNotAllowed => 405
      case Conflict => 409
      case InternalServerError => 500
    }

    /** `HttpStatus.getReasonPhrase()` */
    function ReasonPhrase(): string
    {
      match this
      case Ok => "OK"
      case NoContent => "No Content"
      case BadRequest => "Bad Request"
      case Unauthorized => "Unauthorized"
      case Forbidden => "Forbidden"
      case NotFound => "Not Found"
      case MethodNotAllowed => "Method Not Allowed"
      case Conflict => "Conflict"
      case InternalServerError => "Internal Server Error"
    }
  }

  /** A status and an optional body. */
  datatype ResponseEntity<B> = ResponseEntity(status: HttpStatus, body: Option<B>)
}
