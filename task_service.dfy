/** `TaskService`: task creation with server-side timestamps and the deadline
    rule, the null-skipping merge of `updateTask`, and the query for tasks due
    within the next 24 hours. The clock is read by the caller and passed in. */
module Tasks {
  import opened Common
  import opened Failures
  import opened Domain
  import opened Crud

  const DeadlineBeforeCreation: Exception := BadRequestException(Some("Deadline cannot be before creation date!"))
  const TaskNotFound: Exception := NotFoundException(Some("Task not found!"))

  /** `LocalDateTime.isBefore`: strictly earlier. */
  predicate IsBefore(a: Time, b: Time)
  {
    a < b
  }

  /** The repository's `findByDeadlineBetween(from, to)`: SQL BETWEEN takes
      both ends; a task without a deadline never matches. */
  predicate DeadlineBetween(t: Task, from: Time, to: Time)
  {
    t.fields.deadline.Some? && from <= t.fields.deadline.value <= to
  }

  /** The window of `getTasksWithCloseDeadline`: from now to now plus 24 hours. */
  function WindowEnd(now: Time): Time
  {
    now + 24 * NanosPerHour
  }

  /** `updateTask`'s result from the stored task: each of the five editable
      fields takes the incoming value when it is non-null; the identifier and
      `createdAt` stay; `updatedAt` is the clock reading. */
  ghost predicate MergedTask(stored: Task, incoming: Task, now: Time, merged: Task)
  {
    && merged.id == stored.id
    && merged.fields.title == NonNullOr(incoming.fields.title, stored.fields.title)
    && merged.fields.taskStatus == NonNullOr(incoming.fields.taskStatus, stored.fields.taskStatus)
    && merged.fields.taskPriority == NonNullOr(incoming.fields.taskPriority, stored.fields.taskPriority)
    && merged.fields.deadline == NonNullOr(incoming.fields.deadline, stored.fields.deadline)
    && merged.fields.assignedTo == NonNullOr(incoming.fields.assignedTo, stored.fields.assignedTo)
    && merged.fields.createdAt == stored.fields.createdAt
    && merged.fields.updatedAt == Some(now)
  }

  /** A task due exactly now or exactly 24 hours from now is in the window;
      one due a nanosecond earlier or an hour later than that is not, and
      neither is a task without a deadline. */
  lemma CloseDeadlineBoundaries(t: Task, now: Time)
    ensures t.fields.deadline == Some(now) ==> DeadlineBetween(t, now, WindowEnd(now))
    ensures t.fields.deadline == Some(now + 24 * NanosPerHour) ==> DeadlineBetween(t, now, WindowEnd(now))
    ensures t.fields.deadline == Some(now - 1) ==> !DeadlineBetween(t, now, WindowEnd(now))
    ensures t.fields.deadline == Some(now + 25 * NanosPerHour) ==> !DeadlineBetween(t, now, WindowEnd(now))
    ensures t.fields.deadline.None? ==> !DeadlineBetween(t, now, WindowEnd(now))
  {
  }

  class TaskService {
    /** The inherited generic service and the task repository: one table. */
    const base: BaseService<TaskFields>

    ghost predicate Valid()
      reads base
    {
      base.Valid()
    }

    constructor ()
      ensures Valid() && fresh(base) && base.rows == map[]
    {
      base := new BaseService<TaskFields>();
    }

    /** `createTask`: stamps `createdAt` and `updatedAt` with two clock
        readings, whatever the client sent, then refuses a deadline strictly
        before `createdAt`. */
    method CreateTask(task: Task, createdAt: Time, updatedAt: Time) returns (r: Result<Task>)
      requires Valid()
      modifies base
      ensures Valid()
      ensures r.Failure? <==> task.fields.deadline.Some? && IsBefore(task.fields.deadline.value, createdAt)
      ensures r.Failure? ==> r.error == DeadlineBeforeCreation && unchanged(base)
      ensures r.Success? ==>
        && r.value.fields == task.fields.(createdAt := Some(createdAt), updatedAt := Some(updatedAt))
        && SaveEffect(old(base.rows), old(base.nextId), task.(fields := r.value.fields), base.rows, base.nextId, r.value)
    {
      var stamped := task.(fields := task.fields.(createdAt := Some(createdAt)));
      stamped := stamped.(fields := stamped.fields.(updatedAt := Some(updatedAt)));
      if stamped.fields.deadline.Some? && IsBefore(stamped.fields.deadline.value, stamped.fields.createdAt.value) {
        return Failure(DeadlineBeforeCreation);
      }
      var saved := base.Save(stamped);
      r := Success(saved);
    }

    /** `getTaskByIdOrThrow`: the stored task, or NotFound. */
    function GetTaskByIdOrThrow(id: Id): (r: Result<Task>)
      reads base
      ensures r.Success? <==> id in base.rows
      ensures r.Success? ==> r.value == base.rows[id]
      ensures r.Failure? ==> r.error == TaskNotFound
    {
      match base.FindById(id)
      case Some(t) => Success(t)
      case None => Failure(TaskNotFound)
    }

    /** `updateTask`: setter by setter on the stored task, then save. The
        deadline rule is not checked again. */
    method UpdateTask(taskId: Id, updatedTask: Task, now: Time) returns (r: Result<Task>)
      requires Valid()
      modifies base
      ensures Valid()
      ensures taskId !in old(base.rows) ==> r == Failure(TaskNotFound) && unchanged(base)
      ensures taskId in old(base.rows) ==>
        && r.Success?
        && MergedTask(old(base.rows)[taskId], updatedTask, now, r.value)
        && base.rows == old(base.rows)[taskId := r.value]
        && base.nextId == old(base.nextId)
    {
      var found := base.FindById(taskId);
      if found.None? {
        return Failure(TaskNotFound);
      }
      var task := found.value;
      if updatedTask.fields.title.Some? {
        task := task.(fields := task.fields.(title := updatedTask.fields.title));
      }
      if updatedTask.fields.taskStatus.Some? {
        task := task.(fields := task.fields.(taskStatus := updatedTask.fields.taskStatus));
      }
      if updatedTask.fields.taskPriority.Some? {
        task := task.(fields := task.fields.(taskPriority := updatedTask.fields.taskPriority));
      }
      if updatedTask.fields.deadline.Some? {
        task := task.(fields := task.fields.(deadline := updatedTask.fields.deadline));
      }
      if updatedTask.fields.assignedTo.Some? {
        task := task.(fields := task.fields.(assignedTo := updatedTask.fields.assignedTo));
      }
      task := task.(fields := task.fields.(updatedAt := Some(now)));
      var saved := base.Save(task);
      r := Success(saved);
    }

    /** `getTasksWithCloseDeadline`: exactly the stored tasks whose deadline
        lies in the closed window from `now` to 24 hours later, each once. */
    method GetTasksWithCloseDeadline(now: Time) returns (due: seq<Task>)
      requires Valid()
      ensures forall k :: k in base.rows && DeadlineBetween(base.rows[k], now, WindowEnd(now)) ==> base.rows[k] in due
      ensures forall t :: t in due ==>
        t.id.Some? && t.id.value in base.rows && base.rows[t.id.value] == t && DeadlineBetween(t, now, WindowEnd(now))
      ensures forall i, j :: 0 <= i < j < |due| ==> due[i].id != due[j].id
    {
      var next24Hours := WindowEnd(now);
      due := base.Query(t => DeadlineBetween(t, now, next24Hours));
    }

    /** `deleteTask`: removes that task and nothing else. */
    method DeleteTask(id: Id)
      requires Valid()
      modifies base
      ensures Valid()
      ensures base.rows == old(base.rows) - {id} && base.nextId == old(base.nextId)
    {
      base.DeleteById(id);
    }
  }
}
