/** The central exception handler: every exception that reaches it becomes
    one `ErrorResponse` with a status, a reason phrase, a message, the request
    path, a trace id and a (possibly empty) list of field errors. */
module ExceptionHandler {
  import opened Common
  import opened Failures
  import opened Http
  import opened Dto

  /** The request the failure happened in; only a servlet request has a path. */
  datatype WebRequest = ServletRequest(requestUri: string) | OtherRequest

  function RequestPath(request: WebRequest): (path: Option<string>)
    ensures path.Some? <==> request.ServletRequest?
  {
    if request.ServletRequest? then Some(request.requestUri) else None
  }

  /** `buildErrorResponse`: the clock reading and the random trace id are
      passed in. */
  function BuildErrorResponse(status: HttpStatus, message: Option<string>, request: WebRequest,
                              fieldErrors: Option<seq<FieldError>>, now: Time, traceId: string): (body: ErrorResponse)
    ensures body.status == status.Value() && body.error == Some(status.ReasonPhrase())
    ensures body.message == message && body.path == RequestPath(request)
    ensures body.timestamp == Some(now) && body.traceId == Some(traceId)
    ensures body.errors.Some?
    ensures fieldErrors.Some? ==> body.errors == fieldErrors
    ensures fieldErrors.None? ==> body.errors == Some([])
    ensures body.service.None? && body.metadata.None?
  {
    Blank.(timestamp := Some(now), status := status.Value(), error := Some(status.ReasonPhrase()),
           message := message, path := RequestPath(request), traceId := Some(traceId),
           errors := Some(if fieldErrors.None? then [] else fieldErrors.value))
  }

  /** The stream that `handleValidation` maps over the binding result. */
  function BindingFieldErrors(errs: seq<BindingError>): seq<FieldError>
  {
    if errs == [] then []
    else [FieldError(Some(errs[0].field), Some(ValueOf(errs[0].rejectedValue)), errs[0].defaultMessage)]
         + BindingFieldErrors(errs[1..])
  }

  /** The stream that `handleConstraintViolation` maps over the violations. */
  function ViolationFieldErrors(vs: seq<Violation>): seq<FieldError>
  {
    if vs == [] then []
    else [FieldError(Some(vs[0].propertyPath), Some(ValueOf(vs[0].invalidValue)), vs[0].message)]
         + ViolationFieldErrors(vs[1..])
  }

  /** The status of the handler Spring selects for the exception's class. */
  function HandlerStatus(ex: Exception): (status: HttpStatus)
    ensures status == BadRequest <==>
              ex.MethodArgumentNotValidException? || ex.ConstraintViolationException? || ex.HttpMessageNotReadableException?
    ensures status == Unauthorized <==> ex.UnauthorizedException?
    ensures status == Forbidden <==> ex.AccessDeniedException? || ex.ForbiddenException?
    ensures status == NotFound <==> ex.NotFoundException?
    ensures status == MethodNotAllowed <==> ex.HttpRequestMethodNotSupportedException?
    ensures status == Conflict <==> ex.ConflictException? || ex.DataIntegrityViolationException?
    ensures status == InternalServerError <==> ex.BadRequestException? || ex.RuntimeException?
    ensures status != Ok && status != NoContent
  {
    match ex
    case MethodArgumentNotValidException(_) => BadRequest
    case ConstraintViolationException(_) => BadRequest
    case HttpMessageNotReadableException(_) => BadRequest
    case UnauthorizedException(_) => Unauthorized
    case AccessDeniedException(_) => Forbidden
    case ForbiddenException(_) => Forbidden
    case NotFoundException(_) => NotFound
    case ConflictException(_) => Conflict
    case DataIntegrityViolationException(_) => Conflict
    case HttpRequestMethodNotSupportedException(_) => MethodNotAllowed
    case BadRequestException(_) => InternalServerError
    case RuntimeException(_) => InternalServerError
  }

  /** The message the selected handler passes to `buildErrorResponse`. */
  function HandlerMessage(ex: Exception): Option<string>
  {
    match ex
    case MethodArgumentNotValidException(_) => Some("Validation failed")
    case ConstraintViolationException(_) => Some("Constraint violation")
    case HttpMessageNotReadableException(_) => Some("Malformed JSON request")
    case DataIntegrityViolationException(_) => Some("Database error")
    case BadRequestException(_) => Some("Internal server error")
    case RuntimeException(_) => Some("Internal server error")
    case _ => ex.message
  }

  /** The field-error list the selected handler passes; only the two
      validation handlers pass one. */
  function HandlerFieldErrors(ex: Exception): Option<seq<FieldError>>
  {
    match ex
    case MethodArgumentNotValidException(errs) => Some(BindingFieldErrors(errs))
    case ConstraintViolationException(vs) => Some(ViolationFieldErrors(vs))
    case _ => None
  }

  /** The nine `@ExceptionHandler` methods as one function of the exception. */
  function Handle(ex: Exception, request: WebRequest, now: Time, traceId: string): (r: ResponseEntity<ErrorResponse>)
    ensures r.status == HandlerStatus(ex)
    ensures r.body.Some?
    ensures r.body.value.status == r.status.Value()
    ensures r.body.value.error == Some(r.status.ReasonPhrase())
    ensures r.body.value.message == HandlerMessage(ex)
    ensures r.body.value.timestamp == Some(now) && r.body.value.traceId == Some(traceId)
    ensures r.body.value.path == RequestPath(request)
    ensures r.body.value.errors.Some?
    ensures ex.MethodArgumentNotValidException? ==> r.body.value.errors == Some(BindingFieldErrors(ex.fieldErrors))
    ensures ex.ConstraintViolationException? ==> r.body.value.errors == Some(ViolationFieldErrors(ex.violations))
    ensures !ex.MethodArgumentNotValidException? && !ex.ConstraintViolationException? ==> r.body.value.errors == Some([])
    ensures "service" !in JsonProperties(r.body.value) && "metadata" !in JsonProperties(r.body.value)
  {
    var status := HandlerStatus(ex);
    ResponseEntity(status, Some(BuildErrorResponse(status, HandlerMessage(ex), request, HandlerFieldErrors(ex), now, traceId)))
  }

  /** Which handlers hide the exception's own message behind a fixed text,
      and which pass `getMessage()` through. */
  lemma HandlerMessages(ex: Exception, request: WebRequest, now: Time, traceId: string)
    ensures var m := Handle(ex, request, now, traceId).body.value.message;
      && (ex.MethodArgumentNotValidException? ==> m == Some("Validation failed"))
      && (ex.ConstraintViolationException? ==> m == Some("Constraint violation"))
      && (ex.HttpMessageNotReadableException? ==> m == Some("Malformed JSON request"))
      && (ex.DataIntegrityViolationException? ==> m == Some("Database error"))
      && (ex.BadRequestException? || ex.RuntimeException? ==> m == Some("Internal server error"))
      && ((|| ex.UnauthorizedException? || ex.AccessDeniedException? || ex.ForbiddenException?
           || ex.NotFoundException? || ex.ConflictException? || ex.HttpRequestMethodNotSupportedException?)
          ==> m == ex.message)
  {
  }

  /** One field error per binding error, in the same order, with the
      rejected value printed by `String.valueOf`. */
  lemma {:induction false} BindingFieldErrorsInOrder(errs: seq<BindingError>)
    ensures |BindingFieldErrors(errs)| == |errs|
    ensures forall i :: 0 <= i < |errs| ==>
      BindingFieldErrors(errs)[i] == FieldError(Some(errs[i].field), Some(ValueOf(errs[i].rejectedValue)), errs[i].defaultMessage)
  {
    if errs != [] {
      BindingFieldErrorsInOrder(errs[1..]);
    }
  }

  /** One field error per constraint violation, in the same order. */
  lemma {:induction false} ViolationFieldErrorsInOrder(vs: seq<Violation>)
    ensures |ViolationFieldErrors(vs)| == |vs|
    ensures forall i :: 0 <= i < |vs| ==>
      ViolationFieldErrors(vs)[i] == FieldError(Some(vs[i].propertyPath), Some(ValueOf(vs[i].invalidValue)), vs[i].message)
  {
    if vs != [] {
      ViolationFieldErrorsInOrder(vs[1..]);
    }
  }
}
