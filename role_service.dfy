/** `services/RoleService.java`: role lookups, writes and permission grants. */
module RoleService {
  import opened Wrappers
  import opened Text
  import opened Entities
  import opened Store

  /** `RoleDto`: either field may be null; a role saved without a name violates the `nullable = false` column. */
  datatype RoleDto = RoleDto(name: Option<RoleName>, description: Option<string>)

  function RoleNotFound(id: int): Error {
    NotFound("Role not found with id: " + IntToString(id))
  }

  function PermissionNotFound(id: int): Error {
    NotFound("Permission not found with id: " + IntToString(id))
  }

  function TakenName(n: RoleName): Error {
    AlreadyExists("Role already exists with name: " + RoleNameText(n))
  }

  /** `getRoleById`: the stored role, or NotFound. */
  function GetRoleById(db: Db, id: int): (r: Result<Role, Error>)
    ensures r.Success? <==> id in db.roles
    ensures r.Success? ==> r.value == db.roles[id]
    ensures r.Failure? ==> r.error == RoleNotFound(id)
  {
    if id in db.roles then Success(db.roles[id]) else Failure(RoleNotFound(id))
  }

  /** `Role.addPermission`: inserts the permission into the role's set. */
  function Granting(role: Role, permissionId: int): (r: Role)
    ensures permissionId in r.permissions
    ensures forall q :: q != permissionId ==> (q in r.permissions <==> q in role.permissions)
    ensures r.name == role.name && r.description == role.description
  {
    role.(permissions := role.permissions + {permissionId})
  }

  /** `Role.removePermission`: deletes the permission from the role's set. */
  function Revoking(role: Role, permissionId: int): (r: Role)
    ensures permissionId !in r.permissions
    ensures forall q :: q != permissionId ==> (q in r.permissions <==> q in role.permissions)
    ensures r.name == role.name && r.description == role.description
  {
    role.(permissions := role.permissions - {permissionId})
  }

  /** Assigning twice equals assigning once. */
  lemma GrantingIdempotent(role: Role, permissionId: int)
    ensures Granting(Granting(role, permissionId), permissionId) == Granting(role, permissionId)
  {
    var once := Granting(role, permissionId);
    var twice := Granting(once, permissionId);
    assert twice.permissions == once.permissions by {
      forall q ensures q in twice.permissions <==> q in once.permissions { }
    }
  }

  /** Revoking a permission the role did not hold undoes an assignment of it. */
  lemma RevokingUndoesGranting(role: Role, permissionId: int)
    requires permissionId !in role.permissions
    ensures Revoking(Granting(role, permissionId), permissionId) == role
  {
    var back := Revoking(Granting(role, permissionId), permissionId);
    assert back.permissions == role.permissions by {
      forall q ensures q in back.permissions <==> q in role.permissions { }
    }
  }

  /** Re-assigning a permission the role held undoes a revocation of it. */
  lemma GrantingUndoesRevoking(role: Role, permissionId: int)
    requires permissionId in role.permissions
    ensures Granting(Revoking(role, permissionId), permissionId) == role
  {
    var back := Granting(Revoking(role, permissionId), permissionId);
    assert back.permissions == role.permissions by {
      forall q ensures q in back.permissions <==> q in role.permissions { }
    }
  }

  /** `createRole`: refuses a taken name, otherwise stores one role with no permissions; a null name finds no clash and fails on save. */
  method CreateRole(s: Store, dto: RoleDto) returns (r: Result<int, Error>)
    requires s.Valid()
    modifies s
    ensures s.Valid()
    ensures dto.name.None? ==> r == Failure(DataIntegrity) && s.Snapshot() == old(s.Snapshot())
    ensures dto.name.Some? && old(HasRoleNamed(s.roles, dto.name.value)) ==>
      r == Failure(TakenName(dto.name.value)) && s.Snapshot() == old(s.Snapshot())
    ensures dto.name.Some? && !old(HasRoleNamed(s.roles, dto.name.value)) ==>
      && r.Success? && r.value !in old(s.roles)
      && s.Snapshot() == old(s.Snapshot()).(roles :=
           old(s.roles)[r.value := Role(dto.name.value, dto.description, {})])
  {
    if dto.name.None? {
      return Failure(DataIntegrity);
    }
    var name := dto.name.value;
    if HasRoleNamed(s.roles, name) {
      return Failure(TakenName(name));
    }
    var id := s.NewId();
    s.roles := s.roles[id := Role(name, dto.description, {})];
    r := Success(id);
  }

  /**
   * `updateRole`: NotFound for an unknown id; a non-null name other than the
   * current one must be free; null fields keep the stored value.
   */
  method UpdateRole(s: Store, id: int, dto: RoleDto) returns (r: Result<Role, Error>)
    requires s.Valid()
    modifies s
    ensures s.Valid()
    ensures id !in old(s.roles) ==> r == Failure(RoleNotFound(id)) && s.Snapshot() == old(s.Snapshot())
    ensures id in old(s.roles) ==>
      var was := old(s.roles[id]);
      var renames := dto.name.Some? && dto.name.value != was.name;
      if renames && old(HasRoleNamed(s.roles, dto.name.value)) then
        r == Failure(TakenName(dto.name.value)) && s.Snapshot() == old(s.Snapshot())
      else
        var now := Role(if renames then dto.name.value else was.name,
                        if dto.description.Some? then dto.description else was.description,
                        was.permissions);
        r == Success(now) && s.Snapshot() == old(s.Snapshot()).(roles := old(s.roles)[id := now])
  {
    var found := GetRoleById(s.Snapshot(), id);
    if found.Failure? {
      return Failure(found.error);
    }
    var role := found.value;
    if dto.name.Some? && role.name != dto.name.value {
      if HasRoleNamed(s.roles, dto.name.value) {
        return Failure(TakenName(dto.name.value));
      }
      role := role.(name := dto.name.value);
    }
    if dto.description.Some? {
      role := role.(description := dto.description);
    }
    s.roles := s.roles[id := role];
    r := Success(role);
  }

  /**
   * `deleteRole`: NotFound for an unknown id; otherwise removes that role
   * alone. The `users.role_id` foreign key refuses the delete while a user
   * still has the role.
   */
  method DeleteRole(s: Store, id: int) returns (r: Result<(), Error>)
    requires s.Valid()
    modifies s
    ensures s.Valid()
    ensures id !in old(s.roles) ==> r == Failure(RoleNotFound(id)) && s.Snapshot() == old(s.Snapshot())
    ensures id in old(s.roles) && (exists u | u in old(s.users) :: old(s.users[u].roleId) == id) ==>
      r == Failure(DataIntegrity) && s.Snapshot() == old(s.Snapshot())
    ensures id in old(s.roles) && (forall u | u in old(s.users) :: old(s.users[u].roleId) != id) ==>
      r == Success(()) && s.Snapshot() == old(s.Snapshot()).(roles := old(s.roles) - {id})
  {
    if id !in s.roles {
      return Failure(RoleNotFound(id));
    }
    if exists u | u in s.users :: s.users[u].roleId == id {
      return Failure(DataIntegrity);
    }
    s.roles := s.roles - {id};
    r := Success(());
  }

  /** `assignPermissionToRole`: both must exist; the permission joins the role's set. */
  method AssignPermissionToRole(s: Store, roleId: int, permissionId: int) returns (r: Result<Role, Error>)
    requires s.Valid()
    modifies s
    ensures s.Valid()
    ensures roleId !in old(s.roles) ==> r == Failure(RoleNotFound(roleId)) && s.Snapshot() == old(s.Snapshot())
    ensures roleId in old(s.roles) && permissionId !in old(s.permissions) ==>
      r == Failure(PermissionNotFound(permissionId)) && s.Snapshot() == old(s.Snapshot())
    ensures roleId in old(s.roles) && permissionId in old(s.permissions) ==>
      var now := Granting(old(s.roles[roleId]), permissionId);
      r == Success(now) && s.Snapshot() == old(s.Snapshot()).(roles := old(s.roles)[roleId := now])
  {
    var found := GetRoleById(s.Snapshot(), roleId);
    if found.Failure? {
      return Failure(found.error);
    }
    if permissionId !in s.permissions {
      return Failure(PermissionNotFound(permissionId));
    }
    var role := Granting(found.value, permissionId);
    s.roles := s.roles[roleId := role];
    r := Success(role);
  }

  /** `revokePermissionFromRole`: both must exist; the permission leaves the role's set. */
  method RevokePermissionFromRole(s: Store, roleId: int, permissionId: int) returns (r: Result<Role, Error>)
    requires s.Valid()
    modifies s
    ensures s.Valid()
    ensures roleId !in old(s.roles) ==> r == Failure(RoleNotFound(roleId)) && s.Snapshot() == old(s.Snapshot())
    ensures roleId in old(s.roles) && permissionId !in old(s.permissions) ==>
      r == Failure(PermissionNotFound(permissionId)) && s.Snapshot() == old(s.Snapshot())
    ensures roleId in old(s.roles) && permissionId in old(s.permissions) ==>
      var now := Revoking(old(s.roles[roleId]), permissionId);
      r == Success(now) && s.Snapshot() == old(s.Snapshot()).(roles := old(s.roles)[roleId := now])
  {
    var found := GetRoleById(s.Snapshot(), roleId);
    if found.Failure? {
      return Failure(found.error);
    }
    if permissionId !in s.permissions {
      return Failure(PermissionNotFound(permissionId));
    }
    var role := Revoking(found.value, permissionId);
    s.roles := s.roles[roleId := role];
    r := Success(role);
  }
}
