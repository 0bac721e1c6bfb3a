/** `RoleService`: role creation behind a name-uniqueness check, lookup,
    an update that re-saves the stored role, and deletion. */
module Roles {
  import opened Common
  import opened Failures
  import opened Domain
  import opened Crud

  const RoleExists: Exception := RuntimeException(Some("Role already exists!"))
  const RoleNotFound: Exception := RuntimeException(Some("Role not found!"))

  /** The repository's `existsByName`; a null argument matches a stored null. */
  predicate ExistsByName(rows: map<Id, Role>, name: Option<string>)
  {
    exists k :: k in rows && rows[k].fields.name == name
  }

  class RoleService {
    /** The inherited generic service and the role repository: one table. */
    const base: BaseService<RoleFields>

    ghost predicate Valid()
      reads base
    {
      base.Valid()
    }

    constructor ()
      ensures Valid() && fresh(base) && base.rows == map[]
    {
      base := new BaseService<RoleFields>();
    }

    /** `createRole`: a stored role of the same name fails the call and
        nothing is saved; otherwise the role is saved and its name exists. */
    method CreateRole(role: Role) returns (r: Result<Role>)
      requires Valid()
      modifies base
      ensures Valid()
      ensures r.Failure? <==> ExistsByName(old(base.rows), role.fields.name)
      ensures r.Failure? ==> r.error == RoleExists && unchanged(base)
      ensures r.Success? ==>
        && SaveEffect(old(base.rows), old(base.nextId), role, base.rows, base.nextId, r.value)
        && ExistsByName(base.rows, role.fields.name)
    {
      if ExistsByName(base.rows, role.fields.name) {
        return Failure(RoleExists);
      }
      var saved := base.Save(role);
      SavedIsFound(old(base.rows), old(base.nextId), role, base.rows, base.nextId, saved);
      var key := saved.id.value;
      assert key in base.rows && base.rows[key].fields.name == role.fields.name;
      assert ExistsByName(base.rows, role.fields.name);
      r := Success(saved);
    }

    /** `getAllRoles`: exactly the stored roles. */
    method GetAllRoles() returns (all: seq<Role>)
      requires Valid()
      ensures forall k :: k in base.rows ==> base.rows[k] in all
      ensures forall t :: t in all ==> t.id.Some? && t.id.value in base.rows && base.rows[t.id.value] == t
      ensures forall i, j :: 0 <= i < j < |all| ==> all[i].id != all[j].id
    {
      all := base.FindAll();
    }

    /** `getRoleById`: the stored role, or "Role not found!". */
    function GetRoleById(id: Id): (r: Result<Role>)
      reads base
      ensures r.Success? <==> id in base.rows
      ensures r.Success? ==> r.value == base.rows[id]
      ensures r.Failure? ==> r.error == RoleNotFound
    {
      match base.FindById(id)
      case Some(t) => Success(t)
      case None => Failure(RoleNotFound)
    }

    /** `updateRole`: the payload is never read; the stored role is saved
        back as it is, so the table does not change. */
    method UpdateRole(id: Id, updatedRole: Role) returns (r: Result<Role>)
      requires Valid()
      modifies base
      ensures Valid()
      ensures id !in old(base.rows) ==> r == Failure(RoleNotFound)
      ensures id in old(base.rows) ==> r == Success(old(base.rows)[id])
      ensures base.rows == old(base.rows) && base.nextId == old(base.nextId)
    {
      var found := GetRoleById(id);
      if found.Failure? {
        return found;
      }
      var saved := base.Save(found.value);
      r := Success(saved);
    }

    /** `deleteRole`: removes that role and nothing else. */
    method DeleteRole(id: Id)
      requires Valid()
      modifies base
      ensures Valid()
      ensures base.rows == old(base.rows) - {id} && base.nextId == old(base.nextId)
    {
      base.DeleteById(id);
    }
  }

  /** Two `createRole` calls with the same role: the second always fails with
      "Role already exists!", and the first succeeds exactly when no stored
      role had that name. */
  method CreateRoleTwice(service: RoleService, role: Role) returns (first: Result<Role>, second: Result<Role>)
    requires service.Valid()
    modifies service.base
    ensures service.Valid()
    ensures first.Success? <==> !ExistsByName(old(service.base.rows), role.fields.name)
    ensures second == Failure(RoleExists)
  {
    first := service.CreateRole(role);
    second := service.CreateRole(role);
  }
}
