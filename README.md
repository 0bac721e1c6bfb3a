# TaskFodge service core in Dafny

A model of the service layer of TaskFodge, a Spring task-tracking backend.

- The generic CRUD service (`BaseServiceImpl`) and its repository are one in-memory table: a map from `Long` identifier to entity, plus the next identifier the identity column hands out.
- The task, user and role services are classes that share that table and add their own rules:
  - timestamps and a deadline check on task creation;
  - null-skipping merges on update;
  - ordered uniqueness checks and password encoding on user creation;
  - name uniqueness for roles;
  - a query for tasks due within 24 hours.
- The central exception handler and `ErrorResponse` are pure functions from a thrown exception to a structured error response.
- `BaseController` is a set of pure functions from a service result to a status and a body.
- A small `Endpoints` module composes controller, service and handler for whole requests.

Files: `common.dfy`, `failures.dfy` (exception kinds), `http.dfy`, `error_response.dfy`, `exception_handler.dfy`, `domain.dfy` (entities), `base_service.dfy`, `task_service.dfy`, `user_service.dfy`, `role_service.dfy`, `base_controller.dfy`, `endpoints.dfy`.

Parameters stand in for what the code reads from outside:
- the clock readings (`LocalDateTime.now()`, `Instant.now()`), as integer nanoseconds;
- the random trace id (`UUID.randomUUID()`);
- the password encoder, as a function that may fail.

Repository behaviour this model assumes:
- `save(e)` merges into the stored row when `e` carries a stored identifier. Otherwise it inserts `e` under a newly generated identifier. A body with an unknown identifier is treated as an insert. That is Hibernate's `merge` before version 6.6. From 6.6 on, such a merge raises an optimistic-locking failure, which would reach the 500 fallback.
- `deleteById` of a missing identifier does nothing.
- `findByDeadlineBetween` includes both ends, like SQL `BETWEEN`.
- A derived `existsBy…` query with a null argument matches stored nulls.
- `existsByUsername` compares the user's `userName` property.

Where the code differs from what its own comments and names suggest (GlobalExceptionHandler.java:114 and :121 announce 409 for conflicts and duplicate keys), the model follows the code:
- Duplicate and not-found errors of `UserService` and `RoleService` are plain `RuntimeException`s. They get 500, not 409 or 404.
- `createTask` throws `org.apache.coyote.BadRequestException`. No handler names that class, so it gets 500, not 400.
- `buildErrorResponse` never sets `service`, so handler responses carry no service name. Only `ErrorResponse.of` sets it.
- Handler responses always carry an `errors` list, empty when there are no field errors.
- `updateUser` stores a new password as given, unencoded.
- `PUT /api/tasks/{id}` replaces the whole entity, keyed by the body's own identifier. Only the path identifier has to exist. A body without an identifier inserts a new row.
- `POST /api/tasks` uses the plain `save`, with no timestamps and no deadline rule. Only `/api/tasks/custom` uses `createTask`.

## Model

| member | source | states |
|---|---|---|
| `Dto.Of` | src/main/java/org/example/dto/ErrorResponse.java:57-67 | status code and reason come from the status-like value; message and path pass through; timestamp and trace id are the given clock reading and identifier; service is always "TaskFodge"; the JSON has exactly timestamp, status, traceId, service, plus error, message and path when non-null. No errors or metadata. |
| `ExceptionHandler.RequestPath` | src/main/java/org/example/exception/GlobalExceptionHandler.java:32 | a path exists exactly for a servlet request |
| `ExceptionHandler.BuildErrorResponse` | src/main/java/org/example/exception/GlobalExceptionHandler.java:31-48 | body status equals the status value and error is its reason phrase; message, path, timestamp and trace id are filled; errors is never null (the given list, else empty); service and metadata stay unset |
| `ExceptionHandler.HandlerStatus` | src/main/java/org/example/exception/GlobalExceptionHandler.java:50-142 | the status table, each line an if-and-only-if: 400 for validation, constraint violation and malformed JSON; 401; 403 for access denied and forbidden; 404; 405; 409 for conflict and data integrity; 500 exactly for coyote BadRequest and any other RuntimeException |
| `ExceptionHandler.Handle` | src/main/java/org/example/exception/GlobalExceptionHandler.java:50-142 | the response status is the selected handler's; `body.status` equals it and `body.error` is its reason phrase; timestamp, trace id and path are filled; errors is the mapped list for the two validation kinds and empty for all others; the JSON never has service or metadata |
| `ExceptionHandler.HandlerMessages` | src/main/java/org/example/exception/GlobalExceptionHandler.java:64-141 | fixed texts for validation, constraint, malformed JSON, database error and the fallback; `getMessage()` passed through for 401, 403, 404, 405 and Conflict |
| `ExceptionHandler.BindingFieldErrorsInOrder` | src/main/java/org/example/exception/GlobalExceptionHandler.java:53-62 | one field error per binding error, same order; field and default message copied; rejected value printed by `String.valueOf`, so null becomes "null" |
| `ExceptionHandler.ViolationFieldErrorsInOrder` | src/main/java/org/example/exception/GlobalExceptionHandler.java:72-79 | one field error per constraint violation, same order, with property path, `String.valueOf` of the invalid value, and the message |
| `Crud.SavedIsFound` | src/main/java/org/example/service/Implementation/BaseServiceImpl.java:14-16 | after `save` returns `r`, the table holds `r` under `r`'s identifier with the fields that were passed in; no key is lost and every other row is unchanged |
| `Crud.BaseService.Save` | src/main/java/org/example/service/Implementation/BaseServiceImpl.java:14-16 | merge into the row of a stored identifier, else insert under the next generated identifier; table invariant kept |
| `Crud.BaseService.FindById` | src/main/java/org/example/service/Implementation/BaseServiceImpl.java:18-21 | the stored entity exactly when the id is in the table, empty otherwise; a read that cannot fail |
| `Crud.BaseService.Query` | src/main/java/org/example/repository/TaskRepository.java:12 | a repository query returns every stored entity satisfying the condition and nothing else, each once, in identifier order |
| `Crud.BaseService.FindAll` | src/main/java/org/example/service/Implementation/BaseServiceImpl.java:23-26 | every stored entity and nothing else, no identifier twice; the table is not changed |
| `Crud.BaseService.Update` | src/main/java/org/example/service/Implementation/BaseServiceImpl.java:28-34 | missing id: "Entity not found with ID <id>" and the table is unchanged; present id: whole-entity `save` of the body keyed by the body's own identifier, so the row under the path id is untouched when the body names another |
| `Crud.BaseService.DeleteById` | src/main/java/org/example/service/Implementation/BaseServiceImpl.java:36-39 | the id is absent afterwards and nothing else changes; a missing id leaves the table as it was |
| `Tasks.CloseDeadlineBoundaries` | src/main/java/org/example/service/Implementation/TaskService.java:68-72 | deadlines at now and at now+24h are in the window; now−1ns, now+25h and no deadline are not |
| `Tasks.TaskService.CreateTask` | src/main/java/org/example/service/Implementation/TaskService.java:27-37 | fails iff the deadline is present and strictly before `createdAt` (equal is accepted), with BadRequest and nothing saved; on success the two clock readings overwrite the client's timestamps and the stamped task is saved |
| `Tasks.TaskService.GetTaskByIdOrThrow` | src/main/java/org/example/service/Implementation/TaskService.java:39-42 | the stored task exactly when present, else NotFound "Task not found!" |
| `Tasks.TaskService.UpdateTask` | src/main/java/org/example/service/Implementation/TaskService.java:44-67 | missing id: NotFound and the table is unchanged; else title, status, priority, deadline and assignee take the non-null incoming values; id and `createdAt` stay; `updatedAt` is the clock; only that row changes; no deadline check |
| `Tasks.TaskService.GetTasksWithCloseDeadline` | src/main/java/org/example/service/Implementation/TaskService.java:68-72 | exactly the stored tasks whose deadline lies in the closed window [now, now+24h], each once |
| `Tasks.TaskService.DeleteTask` | src/main/java/org/example/service/Implementation/TaskService.java:74-77 | removes that id and nothing else |
| `Users.FirstCollision` | src/main/java/org/example/service/Implementation/UserService.java:33-41 | the reported collision is email if the email exists, else user name if that exists, else user id if `String.valueOf(id)` exists, else none; every branch is an if-and-only-if |
| `Users.UserService.CreateUser` | src/main/java/org/example/service/Implementation/UserService.java:31-46 | the first collision fails with its own message; an encoder failure propagates; any failure leaves the table unchanged; success iff no collision and the encoder succeeds, storing the encoded password, after which the email and the user name exist |
| `Users.CreateUserTwice` | src/main/java/org/example/service/Implementation/UserService.java:33-35 | the second `createUser` of the same user always fails, on the email check when the first succeeded |
| `Users.UserService.GetUserById` | src/main/java/org/example/service/Implementation/UserService.java:55-59 | the stored user exactly when present, else "User not found!" |
| `Users.UserService.GetAllUsers` | src/main/java/org/example/service/Implementation/UserService.java:49-52 | every stored user and nothing else, no identifier twice |
| `Users.UserService.UpdateUser` | src/main/java/org/example/service/Implementation/UserService.java:62-82 | missing id fails and leaves the table unchanged; else user name, email, password (unencoded) and roles take the non-null incoming values; id and user id stay; only that row changes |
| `Users.UserService.DeleteUser` | src/main/java/org/example/service/Implementation/UserService.java:85-88 | removes that id and nothing else |
| `Users.UserService.AssignRoles` | src/main/java/org/example/service/Implementation/UserService.java:91-95 | missing user fails and the table is unchanged; else the role set becomes exactly the given one (no union) and nothing else of the user changes |
| `Roles.RoleService.CreateRole` | src/main/java/org/example/service/Implementation/RoleService.java:26-34 | fails iff a stored role has the name, with "Role already exists!" and nothing saved; on success the role is saved and the name exists |
| `Roles.CreateRoleTwice` | src/main/java/org/example/service/Implementation/RoleService.java:26-34 | the first call succeeds iff the name was new; the second always fails with "Role already exists!" |
| `Roles.RoleService.GetAllRoles` | src/main/java/org/example/service/Implementation/RoleService.java:37-40 | every stored role and nothing else, no identifier twice |
| `Roles.RoleService.GetRoleById` | src/main/java/org/example/service/Implementation/RoleService.java:43-47 | the stored role exactly when present, else "Role not found!" |
| `Roles.RoleService.UpdateRole` | src/main/java/org/example/service/Implementation/RoleService.java:50-56 | the payload is ignored: returns the stored role, or "Role not found!", and the table is unchanged either way |
| `Roles.RoleService.DeleteRole` | src/main/java/org/example/service/Implementation/RoleService.java:59-62 | removes that id and nothing else |
| `Controller.Create` | src/main/java/org/example/controller/BaseController.java:18-22 | 200 with the saved value |
| `Controller.GetById` | src/main/java/org/example/controller/BaseController.java:24-29 | 200 iff found, 404 iff absent; body is the found value, none for 404 |
| `Controller.GetAll` | src/main/java/org/example/controller/BaseController.java:31-34 | 200 with exactly the service's list |
| `Controller.Update` | src/main/java/org/example/controller/BaseController.java:36-40 | 200 with the updated value iff the service succeeded; otherwise the service's exception propagates unchanged |
| `Controller.Delete` | src/main/java/org/example/controller/BaseController.java:42-46 | 204 with no body |
| `Endpoints.Respond` | src/main/java/org/example/exception/GlobalExceptionHandler.java:26-27 | an endpoint's response reaches the client as it is; a thrown exception reaches it as the handler's response |
| `Endpoints.ServiceExceptionsAsResponses` | src/main/java/org/example/exception/GlobalExceptionHandler.java:137-141 | only the task NotFound gets 404; generic not-found, the deadline rule and every user and role duplicate or not-found get 500 "Internal server error" with no field errors |
| `Endpoints.UpdateEndpoint` | src/main/java/org/example/controller/BaseController.java:36-40 | PUT with an unknown id ends in the handler's 500 with the table unchanged, never a silent create; with a known id, 200 and a whole-entity save |
| `Endpoints.CreateEndpoint` | src/main/java/org/example/controller/BaseController.java:18-22 | plain POST: 200 and the entity saved with exactly the client's fields, so no timestamps and no deadline rule |
| `Endpoints.DeleteEndpoint` | src/main/java/org/example/controller/BaseController.java:42-46 | 204 with no body whether or not the id existed; the id is absent afterwards |
| `Endpoints.GetByIdFollowsTable` | src/main/java/org/example/controller/BaseController.java:24-29 | GET by id, composed with the service's `findById`, answers 200 exactly when the table holds the id, with that entity, and 404 otherwise |

## Left out

- Logging: every `log.*` call and `LogUtils`, including the severity grading by status class. They have no behaviour a caller can observe.
- JPA, Spring Data, transactions and dependency injection. Repositories are the table; derived queries are predicates over it. Rollback is not modelled because no modelled operation writes before failing.
- `Users.UserService.DeleteUser`, `Roles.RoleService.DeleteRole`, `Tasks.TaskService.CreateTask`, `Tasks.TaskService.UpdateTask`, `Users.UserService.CreateUser`, `Roles.RoleService.CreateRole`: schema constraints and interleaved requests are not modelled. Each method is one atomic step over an unconstrained table. So the model does not capture these cases:
  - Deleting a user that a task's `assignedTo` refers to fails at commit with `DataIntegrityViolationException`, which the handler turns into 409 "Database error". So does deleting a role still in a user's role set, or saving a task whose `assignedTo` names no user. In the model the deletes always succeed, and no operation reaches that 409.
  - Two interleaved `createUser` or `createRole` requests can both pass the existence check before either saves.
- Freshness and uniqueness of trace ids, and clock monotonicity. The clock readings and the trace id are parameters.
- Mutation of the caller's object. `createTask` stamps, and `createUser` re-encodes, the very object they were given, even when the call then fails. Managed-entity aliasing is not modelled either. Entities here are values.
- `Long` overflow of the identity column: identifiers are unbounded integers.
- `LocalDateTime` calendar arithmetic: instants are nanoseconds on one scale, and `plusHours(24)` adds 24 hours of them.
- Spring's class-hierarchy handler resolution: an exception is modelled by its most specific class, as a datatype constructor.
- Jackson serialisation beyond which properties are written: `Dto.JsonProperties` models NON_NULL inclusion only.
- `TaskController`'s two custom routes: they only wrap `createTask` and `getTasksWithCloseDeadline` in a 200 response, which is `Controller.Create` and `Controller.GetAll` applied to the modelled service results.
- `Task.java` gives only the fields of `Domain.TaskFields`. `ApiException` and the `BaseService` interface are only a type hierarchy and an interface.
- `User.java` and `Role.java` are not part of this model. Their fields are inferred from the services and repositories: id, userId, userName, email, password, roles; and id, name.
- The enum members of task status and priority: a status or priority is its constant's name.
- `Crud.BaseService.FindAll`: does not state the order of the list. The repository promises none. `Crud.BaseService.Query` returns identifier order.
