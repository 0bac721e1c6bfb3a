/** Requests end to end: controller, service and table, with a thrown
    exception turned into an error response by the exception handler. */
module Endpoints {
  import opened Common
  import opened Failures
  import opened Http
  import opened Dto
  import opened ExceptionHandler
  import opened Domain
  import opened Crud
  import Controller
  import Tasks
  import Users
  import Roles

  /** What the client receives: the endpoint's own response, or the error
      response the handler built from the exception. */
  datatype Reply<B> = Answered(response: ResponseEntity<B>) | Rejected(error: ResponseEntity<ErrorResponse>)
  {
    function StatusCode(): int
    {
      match this
      case Answered(r) => r.status.Value()
      case Rejected(r) => r.status.Value()
    }
  }

  /** Routes an endpoint's outcome through the exception handler. */
  function Respond<B>(outcome: Result<ResponseEntity<B>>, request: WebRequest, now: Time, traceId: string): (reply: Reply<B>)
    ensures outcome.Success? ==> reply == Answered(outcome.value)
    ensures outcome.Failure? ==> reply == Rejected(Handle(outcome.error, request, now, traceId))
  {
    match outcome
    case Success(response) => Answered(response)
    case Failure(ex) => Rejected(Handle(ex, request, now, traceId))
  }

  /** The status and message each service exception reaches the client
      with. Only `TaskService`'s NotFound has a handler of its own; the
      generic not-found, the deadline rule and every duplicate or not-found
      exception of the user and role services end in the 500 fallback. */
  lemma ServiceExceptionsAsResponses(id: Id, request: WebRequest, now: Time, traceId: string)
    ensures var r := Handle(Tasks.TaskNotFound, request, now, traceId);
      r.status.Value() == 404 && r.body.value.message == Some("Task not found!")
    ensures forall ex | ex in {EntityNotFound(id), Tasks.DeadlineBeforeCreation, Users.EmailExists, Users.UsernameExists,
                               Users.UserIdExists, Users.UserNotFound, Roles.RoleExists, Roles.RoleNotFound} ::
      var r := Handle(ex, request, now, traceId);
      r.status.Value() == 500 && r.body.value.error == Some("Internal Server Error")
      && r.body.value.message == Some("Internal server error") && r.body.value.errors == Some([])
  {
  }

  /** `PUT /{id}` on any of the three resources: the generic `update`, then
      the controller, then the handler for a thrown exception. An unknown
      identifier ends in 500, never in a silent create. */
  method UpdateEndpoint<D(==)>(service: BaseService<D>, id: Id, entity: Entity<D>,
                               request: WebRequest, now: Time, traceId: string) returns (reply: Reply<Entity<D>>)
    requires service.Valid()
    modifies service
    ensures service.Valid()
    ensures id !in old(service.rows) ==>
      && reply == Rejected(Handle(EntityNotFound(id), request, now, traceId))
      && reply.StatusCode() == 500
      && service.rows == old(service.rows)
    ensures id in old(service.rows) ==>
      && reply.Answered? && reply.StatusCode() == 200 && reply.response.body.Some?
      && SaveEffect(old(service.rows), old(service.nextId), entity, service.rows, service.nextId, reply.response.body.value)
  {
    var updated := service.Update(id, entity);
    reply := Respond(Controller.Update(updated), request, now, traceId);
  }

  /** `POST /` on any of the three resources: the generic `save` and the
      controller. For tasks this is the route without timestamps and without
      the deadline rule: the stored fields are exactly the client's. */
  method CreateEndpoint<D(==)>(service: BaseService<D>, entity: Entity<D>) returns (reply: ResponseEntity<Entity<D>>)
    requires service.Valid()
    modifies service
    ensures service.Valid()
    ensures reply.status.Value() == 200 && reply.body.Some?
    ensures SaveEffect(old(service.rows), old(service.nextId), entity, service.rows, service.nextId, reply.body.value)
    ensures reply.body.value.fields == entity.fields
  {
    var saved := service.Save(entity);
    reply := Controller.Create(saved);
  }

  /** `DELETE /{id}`: 204 whether or not the identifier was stored, and a
      repeated delete changes nothing more. */
  method DeleteEndpoint<D(==)>(service: BaseService<D>, id: Id) returns (reply: ResponseEntity<()>)
    requires service.Valid()
    modifies service
    ensures service.Valid()
    ensures reply.status.Value() == 204 && reply.body.None?
    ensures id !in service.rows && service.rows == old(service.rows) - {id}
  {
    service.DeleteById(id);
    reply := Controller.Delete();
  }

  /** `GET /{id}`: 200 exactly when the table holds the identifier. */
  lemma GetByIdFollowsTable<D>(service: BaseService<D>, id: Id)
    ensures var r := Controller.GetById(service.FindById(id));
      && (r.status.Value() == 200 <==> id in service.rows)
      && (r.status.Value() == 404 <==> id !in service.rows)
      && (id in service.rows ==> r.body == Some(service.rows[id]))
  {
  }
}
