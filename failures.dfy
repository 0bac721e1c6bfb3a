/** The exceptions the services throw and the exception handler recognises.
    Each constructor stands for the most specific class of the thrown object,
    which is what Spring's annotation-driven dispatch selects a handler by. */
module Failures {
  import opened Common

  /** One field error of a failed request-body validation (`FieldError` of
      Spring's binding result); a null rejected value is `None`, any other
      value is given by its `toString()`. */
  datatype BindingError = BindingError(field: string, rejectedValue: Option<string>, defaultMessage: Option<string>)

  /** One violation of a method-parameter constraint (`ConstraintViolation`). */
  datatype Violation = Violation(propertyPath: string, invalidValue: Option<string>, message: Option<string>)

  datatype Exception =
    | MethodArgumentNotValidException(fieldErrors: seq<BindingError>)
    | ConstraintViolationException(violations: seq<Violation>)
    | HttpMessageNotReadableException(message: Option<string>)
    | UnauthorizedException(message: Option<string>)
    | AccessDeniedException(message: Option<string>)
    | ForbiddenException(message: Option<string>)
    | NotFoundException(message: Option<string>)
    | ConflictException(message: Option<string>)
    | DataIntegrityViolationException(message: Option<string>)
    | HttpRequestMethodNotSupportedException(message: Option<string>)
      /** `org.apache.coyote.BadRequestException`, thrown by `createTask`; no handler names it. */
    | BadRequestException(message: Option<string>)
      /** A plain `RuntimeException`, or any other class no handler names. */
    | RuntimeException(message: Option<string>)

  /** What a service call does: returns a value or throws. */
  datatype Result<+T> = Success(value: T) | Failure(error: Exception)
}
