/** `UserService`: user creation behind three ordered uniqueness checks and
    password encoding, the null-skipping merge of `updateUser`, and wholesale
    role assignment. The password encoder is a parameter of the service. */
module Users {
  import opened Common
  import opened Failures
  import opened Domain
  import opened Crud

  const EmailExists: Exception := RuntimeException(Some("Email already exists!"))
  const UsernameExists: Exception := RuntimeException(Some("Username already exists!"))
  const UserIdExists: Exception := RuntimeException(Some("Userid already exists!"))
  const UserNotFound: Exception := RuntimeException(Some("User not found!"))

  /** The repository's `existsByEmail`; a null argument matches a stored null. */
  predicate ExistsByEmail(rows: map<Id, User>, email: Option<string>)
  {
    exists k :: k in rows && rows[k].fields.email == email
  }

  /** The repository's `existsByUsername`, over the user name property. */
  predicate ExistsByUsername(rows: map<Id, User>, userName: Option<string>)
  {
    exists k :: k in rows && rows[k].fields.userName == userName
  }

  /** The repository's `existsByUserId`. */
  predicate ExistsByUserId(rows: map<Id, User>, userId: string)
  {
    exists k :: k in rows && rows[k].fields.userId == Some(userId)
  }

  /** `String.valueOf(user.getId())`: the decimal identifier, or "null". */
  function IdText(id: Option<Id>): string
  {
    ValueOf(if id.Some? then Some(DecimalText(id.value)) else None)
  }

  /** The first uniqueness check `createUser` fails, in the order email,
      user name, user id; `None` when all three pass. */
  function FirstCollision(rows: map<Id, User>, user: User): (c: Option<Exception>)
    ensures c == Some(EmailExists) <==> ExistsByEmail(rows, user.fields.email)
    ensures c == Some(UsernameExists) <==>
              !ExistsByEmail(rows, user.fields.email) && ExistsByUsername(rows, user.fields.userName)
    ensures c == Some(UserIdExists) <==>
              && !ExistsByEmail(rows, user.fields.email) && !ExistsByUsername(rows, user.fields.userName)
              && ExistsByUserId(rows, IdText(user.id))
    ensures c.None? <==>
              && !ExistsByEmail(rows, user.fields.email) && !ExistsByUsername(rows, user.fields.userName)
              && !ExistsByUserId(rows, IdText(user.id))
  {
    if ExistsByEmail(rows, user.fields.email) then Some(EmailExists)
    else if ExistsByUsername(rows, user.fields.userName) then Some(UsernameExists)
    else if ExistsByUserId(rows, IdText(user.id)) then Some(UserIdExists)
    else None
  }

  /** `updateUser`'s result from the stored user: user name, email, password
      and roles each take the incoming value when it is non-null, the new
      password as given; the identifier and `userId` stay. */
  ghost predicate MergedUser(stored: User, incoming: User, merged: User)
  {
    && merged.id == stored.id
    && merged.fields.userId == stored.fields.userId
    && merged.fields.userName == NonNullOr(incoming.fields.userName, stored.fields.userName)
    && merged.fields.email == NonNullOr(incoming.fields.email, stored.fields.email)
    && merged.fields.password == NonNullOr(incoming.fields.password, stored.fields.password)
    && merged.fields.roles == NonNullOr(incoming.fields.roles, stored.fields.roles)
  }

  class UserService {
    /** The inherited generic service and the user repository: one table. */
    const base: BaseService<UserFields>
    /** `PasswordEncoder.encode`, which may throw (for one, on a null password). */
    const encode: Option<string> -> Result<string>

    ghost predicate Valid()
      reads base
    {
      base.Valid()
    }

    constructor (encode: Option<string> -> Result<string>)
      ensures Valid() && fresh(base) && base.rows == map[] && this.encode == encode
    {
      base := new BaseService<UserFields>();
      this.encode := encode;
    }

    /** `createUser`: the first collision among email, user name and user id
        fails the call with its own message and stores nothing; otherwise the
        password is replaced by its encoding and the user is saved. */
    method CreateUser(user: User) returns (r: Result<User>)
      requires Valid()
      modifies base
      ensures Valid()
      ensures FirstCollision(old(base.rows), user).Some? ==> r == Failure(FirstCollision(old(base.rows), user).value)
      ensures FirstCollision(old(base.rows), user).None? && encode(user.fields.password).Failure? ==>
                r == Failure(encode(user.fields.password).error)
      ensures r.Failure? ==> unchanged(base)
      ensures r.Success? <==> FirstCollision(old(base.rows), user).None? && encode(user.fields.password).Success?
      ensures r.Success? ==>
        && FirstCollision(old(base.rows), user).None?
        && encode(user.fields.password).Success?
        && r.value.fields == user.fields.(password := Some(encode(user.fields.password).value))
        && SaveEffect(old(base.rows), old(base.nextId), user.(fields := r.value.fields), base.rows, base.nextId, r.value)
        && ExistsByEmail(base.rows, user.fields.email)
        && ExistsByUsername(base.rows, user.fields.userName)
    {
      if ExistsByEmail(base.rows, user.fields.email) {
        return Failure(EmailExists);
      }
      if ExistsByUsername(base.rows, user.fields.userName) {
        return Failure(UsernameExists);
      }
      if ExistsByUserId(base.rows, IdText(user.id)) {
        return Failure(UserIdExists);
      }
      var encoded := encode(user.fields.password);
      if encoded.Failure? {
        return Failure(encoded.error);
      }
      var hashed := user.(fields := user.fields.(password := Some(encoded.value)));
      var saved := base.Save(hashed);
      SavedIsFound(old(base.rows), old(base.nextId), hashed, base.rows, base.nextId, saved);
      var key := saved.id.value;
      assert key in base.rows && base.rows[key].fields.email == user.fields.email;
      assert key in base.rows && base.rows[key].fields.userName == user.fields.userName;
      assert ExistsByEmail(base.rows, user.fields.email) && ExistsByUsername(base.rows, user.fields.userName);
      r := Success(saved);
    }

    /** `getUserById`: the stored user, or "User not found!". */
    function GetUserById(id: Id): (r: Result<User>)
      reads base
      ensures r.Success? <==> id in base.rows
      ensures r.Success? ==> r.value == base.rows[id]
      ensures r.Failure? ==> r.error == UserNotFound
    {
      match base.FindById(id)
      case Some(u) => Success(u)
      case None => Failure(UserNotFound)
    }

    /** `getAllUsers`: exactly the stored users. */
    method GetAllUsers() returns (all: seq<User>)
      requires Valid()
      ensures forall k :: k in base.rows ==> base.rows[k] in all
      ensures forall u :: u in all ==> u.id.Some? && u.id.value in base.rows && base.rows[u.id.value] == u
      ensures forall i, j :: 0 <= i < j < |all| ==> all[i].id != all[j].id
    {
      all := base.FindAll();
    }

    /** `updateUser`: setter by setter on the stored user, then save; no
        uniqueness check and no encoding of a new password. */
    method UpdateUser(id: Id, updatedUser: User) returns (r: Result<User>)
      requires Valid()
      modifies base
      ensures Valid()
      ensures id !in old(base.rows) ==> r == Failure(UserNotFound) && unchanged(base)
      ensures id in old(base.rows) ==>
        && r.Success?
        && MergedUser(old(base.rows)[id], updatedUser, r.value)
        && base.rows == old(base.rows)[id := r.value]
        && base.nextId == old(base.nextId)
    {
      var found := base.FindById(id);
      if found.None? {
        return Failure(UserNotFound);
      }
      var user := found.value;
      if updatedUser.fields.userName.Some? {
        user := user.(fields := user.fields.(userName := updatedUser.fields.userName));
      }
      if updatedUser.fields.email.Some? {
        user := user.(fields := user.fields.(email := updatedUser.fields.email));
      }
      if updatedUser.fields.password.Some? {
        user := user.(fields := user.fields.(password := updatedUser.fields.password));
      }
      if updatedUser.fields.roles.Some? {
        user := user.(fields := user.fields.(roles := updatedUser.fields.roles));
      }
      var saved := base.Save(user);
      r := Success(saved);
    }

    /** `deleteUser`: removes that user and nothing else. */
    method DeleteUser(id: Id)
      requires Valid()
      modifies base
      ensures Valid()
      ensures base.rows == old(base.rows) - {id} && base.nextId == old(base.nextId)
    {
      base.DeleteById(id);
    }

    /** `assignRoles`: the user's role set becomes exactly `roles`, not a
        union with the old one; everything else stays. */
    method AssignRoles(userId: Id, roles: Option<set<Role>>) returns (r: Result<User>)
      requires Valid()
      modifies base
      ensures Valid()
      ensures userId !in old(base.rows) ==> r == Failure(UserNotFound) && unchanged(base)
      ensures userId in old(base.rows) ==>
        && r.Success?
        && r.value == old(base.rows)[userId].(fields := old(base.rows)[userId].fields.(roles := roles))
        && base.rows == old(base.rows)[userId := r.value]
        && base.nextId == old(base.nextId)
    {
      var found := GetUserById(userId);
      if found.Failure? {
        return found;
      }
      var user := found.value.(fields := found.value.fields.(roles := roles));
      var saved := base.Save(user);
      r := Success(saved);
    }
  }

  /** Two `createUser` calls with the same user: the second fails. When the
      first succeeded, the second fails on the email check. */
  method CreateUserTwice(service: UserService, user: User) returns (first: Result<User>, second: Result<User>)
    requires service.Valid()
    modifies service.base
    ensures service.Valid()
    ensures second.Failure?
    ensures first.Success? ==> second == Failure(EmailExists)
  {
    first := service.CreateUser(user);
    second := service.CreateUser(user);
  }
}
