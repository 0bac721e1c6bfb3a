/** The structured error body (`ErrorResponse`), its field-level errors and
    the `of` factory. */
module Dto {
  import opened Common

  /** A field-level validation error: three nullable strings, nothing derived. */
  datatype FieldError = FieldError(field: Option<string>, rejectedValue: Option<string>, message: Option<string>)

  /** `HttpStatusLike`: whatever code and reason an implementation reports. */
  datatype StatusLike = StatusLike(code: int, reason: Option<string>)

  /** Every property is nullable except `status`, a primitive `int`.
      `metadata` maps names to the text of arbitrary objects. */
  datatype ErrorResponse = ErrorResponse(
    timestamp: Option<Time>,
    status: int,
    error: Option<string>,
    message: Option<string>,
    path: Option<string>,
    traceId: Option<string>,
    service: Option<string>,
    errors: Option<seq<FieldError>>,
    metadata: Option<map<string, string>>)

  /** The service name `of` stamps. */
  const ServiceName: string := "TaskFodge"

  /** The response built by the no-argument constructor: every reference null. */
  const Blank: ErrorResponse := ErrorResponse(None, 0, None, None, None, None, None, None, None)

  function PropertyIf(present: bool, name: string): set<string>
  {
    if present then {name} else {}
  }

  /** The JSON properties Jackson writes for a response under NON_NULL
      inclusion: null properties are omitted, `status` is always written. */
  function JsonProperties(r: ErrorResponse): set<string>
  {
    {"status"}
    + PropertyIf(r.timestamp.Some?, "timestamp")
    + PropertyIf(r.error.Some?, "error")
    + PropertyIf(r.message.Some?, "message")
    + PropertyIf(r.path.Some?, "path")
    + PropertyIf(r.traceId.Some?, "traceId")
    + PropertyIf(r.service.Some?, "service")
    + PropertyIf(r.errors.Some?, "errors")
    + PropertyIf(r.metadata.Some?, "metadata")
  }

  /** `ErrorResponse.of(status, message, path)`, with the clock reading and
      the random trace id passed in. */
  function Of(status: StatusLike, message: Option<string>, path: Option<string>, now: Time, traceId: string): (r: ErrorResponse)
    ensures r.status == status.code && r.error == status.reason
    ensures r.message == message && r.path == path
    ensures r.timestamp == Some(now) && r.traceId == Some(traceId)
    ensures r.service == Some(ServiceName)
    ensures JsonProperties(r)
         == {"status", "timestamp", "traceId", "service"}
          + PropertyIf(status.reason.Some?, "error")
          + PropertyIf(message.Some?, "message")
          + PropertyIf(path.Some?, "path")
  {
    Blank.(timestamp := Some(now), status := status.code, error := status.reason, message := message,
           path := path, traceId := Some(traceId), service := Some(ServiceName))
  }
}
