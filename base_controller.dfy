/** `BaseController`: each endpoint turns what the service returned into a
    status and a body. A service exception is not caught here; it travels on
    to the exception handler. */
module Controller {
  import opened Common
  import opened Failures
  import opened Http

  /** `POST`: 200 with what `save` returned. */
  function Create<E>(saved: E): (r: ResponseEntity<E>)
    ensures r.status.Value() == 200 && r.body == Some(saved)
  {
    ResponseEntity(Ok, Some(saved))
  }

  /** `GET /{id}`: 200 with the entity when `findById` found one, otherwise
      404 with no body. */
  function GetById<E>(found: Option<E>): (r: ResponseEntity<E>)
    ensures r.status.Value() == 200 <==> found.Some?
    ensures r.status.Value() == 404 <==> found.None?
    ensures r.body == found
  {
    match found
    case Some(e) => ResponseEntity(Ok, Some(e))
    case None => ResponseEntity(NotFound, None)
  }

  /** `GET`: 200 with the list `findAll` returned. */
  function GetAll<E>(all: seq<E>): (r: ResponseEntity<seq<E>>)
    ensures r.status.Value() == 200 && r.body == Some(all)
  {
    ResponseEntity(Ok, Some(all))
  }

  /** `PUT /{id}`: 200 with what `update` returned; an exception from
      `update` propagates unchanged and no 200 is produced. */
  function Update<E>(updated: Result<E>): (r: Result<ResponseEntity<E>>)
    ensures r.Success? <==> updated.Success?
    ensures r.Success? ==> r.value.status.Value() == 200 && r.value.body == Some(updated.value)
    ensures r.Failure? ==> r.error == updated.error
  {
    match updated
    case Success(e) => Success(ResponseEntity(Ok, Some(e)))
    case Failure(ex) => Failure(ex)
  }

  /** `DELETE /{id}`: once `deleteById` has returned, 204 with no body. */
  function Delete(): (r: ResponseEntity<()>)
    ensures r.status.Value() == 204 && r.body.None?
  {
    ResponseEntity(NoContent, None)
  }
}
