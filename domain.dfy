/** The persisted entities. Every entity is an identifier (null until the
    store generates one) and the entity's own fields. */
module Domain {
  import opened Common

  datatype Entity<D> = Entity(id: Option<Id>, fields: D)

  /** `Task`: status and priority are enum constants stored by name;
      `assignedTo` is the identifier of the referenced User. */
  datatype TaskFields = TaskFields(
    title: Option<string>,
    taskStatus: Option<string>,
    taskPriority: Option<string>,
    createdAt: Option<Time>,
    updatedAt: Option<Time>,
    deadline: Option<Time>,
    assignedTo: Option<Id>)

  type Task = Entity<TaskFields>

  datatype RoleFields = RoleFields(name: Option<string>)

  type Role = Entity<RoleFields>

  /** `User`: `userId` is the textual user id the repository can search by. */
  datatype UserFields = UserFields(
    userId: Option<string>,
    userName: Option<string>,
    email: Option<string>,
    password: Option<string>,
    roles: Option<set<Role>>)

  type User = Entity<UserFields>
}
