/** `services/UserService.java`: user lookups, writes and the permission check. */
module UserService {
  import opened Wrappers
  import opened Text
  import opened Entities
  import opened Store
  import opened UserEntity
  import PermissionEntity

  /** The registration form: name, email, raw password and the requested role (null allowed). */
  datatype RegisterUserDto = RegisterUserDto(fullName: string, email: string, password: string, role: Option<RoleName>)

  /** `UpdateUserDto`: every field may be null, meaning "keep the stored value". */
  datatype UpdateUserDto = UpdateUserDto(
    fullName: Option<string>, email: Option<string>, password: Option<string>, role: Option<RoleName>)

  function UserNotFound(id: int): Error {
    NotFound("User not found with id: " + IntToString(id))
  }

  /** `"Role not found: " + role`, where a null role prints as "null". */
  function RoleNotFound(role: Option<RoleName>): Error {
    NotFound("Role not found: " + (if role.Some? then RoleNameText(role.value) else "null"))
  }

  /** `roleRepository.findByName(role).isPresent()`; a null name finds nothing. */
  predicate RoleExists(db: Db, role: Option<RoleName>) {
    role.Some? && HasRoleNamed(db.roles, role.value)
  }

  /** `loadUserByUsername`: the user whose email is the username, or UsernameNotFound. */
  ghost function LoadUserByUsername(db: Db, email: string): (r: Result<User, Error>)
    ensures r.Success? <==> HasUserWithEmail(db.users, email)
    ensures r.Success? ==> r.value.email == email && r.value in db.users.Values
    ensures r.Failure? ==> r.error == UsernameNotFound("User not found with email: " + email)
  {
    if HasUserWithEmail(db.users, email) then Success(db.users[UserIdWithEmail(db.users, email)])
    else Failure(UsernameNotFound("User not found with email: " + email))
  }

  /** Loading a stored user by its username gives back that user. */
  lemma LoadUserByUsernameRoundTrip(db: Db, id: int)
    requires Consistent(db) && id in db.users
    ensures LoadUserByUsername(db, Username(db.users[id])) == Success(db.users[id])
  {
    UserIdWithEmailIs(db.users, id);
  }

  /** `getUserById`: the stored user, or NotFound. */
  function GetUserById(db: Db, id: int): (r: Result<User, Error>)
    ensures r.Success? <==> id in db.users
    ensures r.Success? ==> r.value == db.users[id]
    ensures r.Failure? ==> r.error == UserNotFound(id)
  {
    if id in db.users then Success(db.users[id]) else Failure(UserNotFound(id))
  }

  /**
   * `createUser`: the named role must exist; the user is stored with that
   * role and the encoded password. Saving a taken email violates the
   * unique constraint and stores nothing.
   */
  method CreateUser(s: Store, dto: RegisterUserDto, encode: string -> string) returns (r: Result<int, Error>)
    requires s.Valid()
    modifies s
    ensures s.Valid()
    ensures !old(RoleExists(s.Snapshot(), dto.role)) ==>
      r == Failure(RoleNotFound(dto.role)) && s.Snapshot() == old(s.Snapshot())
    ensures old(RoleExists(s.Snapshot(), dto.role)) && old(HasUserWithEmail(s.users, dto.email)) ==>
      r == Failure(DataIntegrity) && s.Snapshot() == old(s.Snapshot())
    ensures old(RoleExists(s.Snapshot(), dto.role)) && !old(HasUserWithEmail(s.users, dto.email)) ==>
      var roleId := old(RoleIdNamed(s.roles, dto.role.value));
      && r.Success? && r.value !in old(s.users)
      && s.Snapshot() == old(s.Snapshot()).(users :=
           old(s.users)[r.value := User(dto.fullName, dto.email, encode(dto.password), roleId)])
  {
    if !RoleExists(s.Snapshot(), dto.role) {
      return Failure(RoleNotFound(dto.role));
    }
    var roleId :| roleId in s.roles && s.roles[roleId].name == dto.role.value;
    RoleIdNamedIs(s.roles, roleId);
    if HasUserWithEmail(s.users, dto.email) {
      return Failure(DataIntegrity);
    }
    var id := s.NewId();
    s.users := s.users[id := User(dto.fullName, dto.email, encode(dto.password), roleId)];
    r := Success(id);
  }

  /** Some user other than `id` already has that email. */
  predicate EmailTakenByOther(users: map<int, User>, id: int, email: string) {
    exists j | j in users && j != id :: users[j].email == email
  }

  /** Replacing a user by one whose email no other user has and whose role exists keeps the store consistent. */
  lemma ReplaceUserKeepsConsistent(db: Db, id: int, u: User)
    requires Consistent(db) && id in db.users
    requires !EmailTakenByOther(db.users, id, u.email) && u.roleId in db.roles
    ensures Consistent(db.(users := db.users[id := u]))
  {
    var users := db.users[id := u];
    forall i, j | i in users && j in users && users[i].email == users[j].email ensures i == j {
      if i != id && j != id {
        assert db.users[i].email == db.users[j].email;
      }
    }
  }

  /**
   * `updateUser` (transactional): NotFound for an unknown id; a non-null
   * role must exist; each non-null field replaces the stored one, the
   * password encoded; a taken email makes the save fail. Any failure rolls
   * the whole update back.
   */
  method UpdateUser(s: Store, id: int, dto: UpdateUserDto, encode: string -> string) returns (r: Result<User, Error>)
    requires s.Valid()
    modifies s
    ensures s.Valid()
    ensures id !in old(s.users) ==> r == Failure(UserNotFound(id)) && s.Snapshot() == old(s.Snapshot())
    ensures id in old(s.users) && dto.role.Some? && !old(RoleExists(s.Snapshot(), dto.role)) ==>
      r == Failure(RoleNotFound(dto.role)) && s.Snapshot() == old(s.Snapshot())
    ensures id in old(s.users) && (dto.role.None? || old(RoleExists(s.Snapshot(), dto.role))) ==>
      var was := old(s.users[id]);
      var now := User(
        if dto.fullName.Some? then dto.fullName.value else was.fullName,
        if dto.email.Some? then dto.email.value else was.email,
        if dto.password.Some? then encode(dto.password.value) else was.password,
        if dto.role.Some? then old(RoleIdNamed(s.roles, dto.role.value)) else was.roleId);
      if old(EmailTakenByOther(s.users, id, now.email)) then
        r == Failure(DataIntegrity) && s.Snapshot() == old(s.Snapshot())
      else
        r == Success(now) && s.Snapshot() == old(s.Snapshot()).(users := old(s.users)[id := now])
  {
    var found := GetUserById(s.Snapshot(), id);
    if found.Failure? {
      return Failure(found.error);
    }
    var user := found.value;
    if dto.fullName.Some? {
      user := user.(fullName := dto.fullName.value);
    }
    if dto.email.Some? {
      user := user.(email := dto.email.value);
    }
    if dto.password.Some? {
      user := user.(password := encode(dto.password.value));
    }
    if dto.role.Some? {
      if !RoleExists(s.Snapshot(), dto.role) {
        return Failure(RoleNotFound(dto.role));
      }
      var roleId :| roleId in s.roles && s.roles[roleId].name == dto.role.value;
      RoleIdNamedIs(s.roles, roleId);
      user := user.(roleId := roleId);
    }
    if EmailTakenByOther(s.users, id, user.email) {
      return Failure(DataIntegrity);
    }
    ReplaceUserKeepsConsistent(s.Snapshot(), id, user);
    s.users := s.users[id := user];
    r := Success(user);
  }

  /** `deleteUser`: NotFound for an unknown id, otherwise removes that user alone. */
  method DeleteUser(s: Store, id: int) returns (r: Result<(), Error>)
    requires s.Valid()
    modifies s
    ensures s.Valid()
    ensures id !in old(s.users) ==> r == Failure(UserNotFound(id)) && s.Snapshot() == old(s.Snapshot())
    ensures id in old(s.users) ==>
      r == Success(()) && s.Snapshot() == old(s.Snapshot()).(users := old(s.users) - {id})
  {
    if id !in s.users {
      return Failure(UserNotFound(id));
    }
    s.users := s.users - {id};
    r := Success(());
  }

  /** The permission links a resource and an action with exactly these names. */
  predicate PermissionMatches(db: Db, pid: int, resourceName: string, actionName: string) {
    && pid in db.permissions
    && db.permissions[pid].resourceId in db.resources
    && db.permissions[pid].actionId in db.actions
    && db.resources[db.permissions[pid].resourceId].name == resourceName
    && db.actions[db.permissions[pid].actionId].name == actionName
  }

  /**
   * `checkUserPermission`: NotFound for an unknown user; otherwise whether
   * some permission of the user's role names exactly that resource and action.
   */
  function CheckUserPermission(db: Db, userId: int, resourceName: string, actionName: string): (r: Result<bool, Error>)
    requires Consistent(db)
    ensures r.Failure? <==> userId !in db.users
    ensures r.Failure? ==> r.error == UserNotFound(userId)
    ensures r.Success? ==>
      (r.value <==> exists pid | pid in db.roles[db.users[userId].roleId].permissions ::
                      PermissionMatches(db, pid, resourceName, actionName))
  {
    var found := GetUserById(db, userId);
    if found.Failure? then Failure(found.error)
    else Success(exists pid | pid in db.roles[found.value.roleId].permissions ::
                   PermissionMatches(db, pid, resourceName, actionName))
  }

  /** No role authority contains a colon. */
  lemma RoleAuthorityHasNoColon(n: RoleName)
    ensures ':' !in RoleAuthority(n)
  {
    match n
    case ADMIN => assert RoleAuthority(n) == "ROLE_ADMIN";
    case MODERATOR => assert RoleAuthority(n) == "ROLE_MODERATOR";
    case USER => assert RoleAuthority(n) == "ROLE_USER";
  }

  /**
   * When resource names hold no ':', the permission check agrees with the
   * authorities: the user may act iff "resource:action" is among them.
   */
  lemma CheckUserPermissionIsAuthority(db: Db, userId: int, resourceName: string, actionName: string)
    requires Consistent(db) && userId in db.users
    requires ':' !in resourceName
    requires forall id | id in db.resources :: ':' !in db.resources[id].name
    ensures CheckUserPermission(db, userId, resourceName, actionName)
         == Success(PermissionEntity.Name(resourceName, actionName) in Authorities(db, db.users[userId]))
  {
    var u := db.users[userId];
    var role := db.roles[u.roleId];
    var n := PermissionEntity.Name(resourceName, actionName);
    var matches := exists pid | pid in role.permissions :: PermissionMatches(db, pid, resourceName, actionName);
    if matches {
      var pid :| pid in role.permissions && PermissionMatches(db, pid, resourceName, actionName);
      assert PermissionName(db, pid) == Some(n);
    }
    if n in Authorities(db, u) {
      RoleAuthorityHasNoColon(role.name);
      assert n[|resourceName|] == ':';
      assert n != RoleAuthority(role.name);
      var pid :| pid in role.permissions && PermissionName(db, pid) == Some(n);
      var p := db.permissions[pid];
      PermissionEntity.NameDeterminesPair(db.resources[p.resourceId].name, db.actions[p.actionId].name,
                                          resourceName, actionName);
      assert PermissionMatches(db, pid, resourceName, actionName);
    }
  }
}
