/** `dtos/UserResponseDto.java`: the user as the API returns it. */
module UserResponse {
  import opened Wrappers
  import opened Entities
  import opened Store

  /** The DTO's fields without the two timestamps; there is no password field. */
  datatype UserResponseDto = UserResponseDto(
    id: int, email: string, fullName: string, roleName: Option<string>, roleId: Option<int>)

  /**
   * `fromEntity`: id, email and full name copied; the role's enum name and
   * id set exactly when the user's role is present.
   */
  function FromEntity(db: Db, id: int, u: User): (r: UserResponseDto)
    ensures r.id == id && r.email == u.email && r.fullName == u.fullName
    ensures r.roleName.Some? <==> u.roleId in db.roles
    ensures r.roleId.Some? <==> u.roleId in db.roles
    ensures u.roleId in db.roles ==>
      r.roleName == Some(RoleNameText(db.roles[u.roleId].name)) && r.roleId == Some(u.roleId)
  {
    var role := if u.roleId in db.roles then Some(db.roles[u.roleId]) else None;
    UserResponseDto(id, u.email, u.fullName,
                    if role.Some? then Some(RoleNameText(role.value.name)) else None,
                    if role.Some? then Some(u.roleId) else None)
  }

  /** The response does not depend on the password: it never leaks. */
  lemma FromEntityHidesPassword(db: Db, id: int, u: User, password: string)
    ensures FromEntity(db, id, u.(password := password)) == FromEntity(db, id, u)
  {
  }

  /** In a consistent store every stored user's response names its role, and the name tells the role apart. */
  lemma FromEntityNamesRole(db: Db, id: int, v: int)
    requires Consistent(db) && id in db.users && v in db.users
    ensures FromEntity(db, id, db.users[id]).roleName.Some?
    ensures FromEntity(db, id, db.users[id]).roleName == FromEntity(db, v, db.users[v]).roleName
        <==> db.roles[db.users[id].roleId].name == db.roles[db.users[v].roleId].name
  {
    RoleNameTextInjective(db.roles[db.users[id].roleId].name, db.roles[db.users[v].roleId].name);
  }
}
