/**
 * `models/User.java` as Spring Security sees it: the authorities a user
 * holds, the username, and the account flags.
 */
module UserEntity {
  import opened Wrappers
  import opened Text
  import opened Entities
  import opened Store
  import PermissionEntity
  import Sets

  /** The authority naming a role: `"ROLE_" + role.getName().name()`. */
  function RoleAuthority(n: RoleName): (r: string)
    ensures StartsWith(r, "ROLE_") && r[5..] == RoleNameText(n)
  {
    "ROLE_" + RoleNameText(n)
  }

  /**
   * `permission.getName()` of a stored permission. A permission whose
   * resource or action is no longer stored has no name (`None`).
   */
  function PermissionName(db: Db, pid: int): Option<string> {
    if pid in db.permissions
       && db.permissions[pid].resourceId in db.resources
       && db.permissions[pid].actionId in db.actions
    then Some(PermissionEntity.Name(db.resources[db.permissions[pid].resourceId].name,
                                    db.actions[db.permissions[pid].actionId].name))
    else None
  }

  /** The names of the given permissions (the `map(getName)` stream, collected to a set). */
  function PermissionNames(db: Db, pids: set<int>): set<string> {
    set pid | pid in pids && PermissionName(db, pid).Some? :: PermissionName(db, pid).value
  }

  /**
   * `getAuthorities`: the role's authority together with the name of every
   * permission of the role; being a set, equal names collapse.
   */
  function Authorities(db: Db, u: User): (r: set<string>)
    requires u.roleId in db.roles
    ensures RoleAuthority(db.roles[u.roleId].name) in r
    ensures forall pid | pid in db.roles[u.roleId].permissions && PermissionName(db, pid).Some? ::
      PermissionName(db, pid).value in r
    ensures forall a | a in r ::
      a == RoleAuthority(db.roles[u.roleId].name)
      || exists pid | pid in db.roles[u.roleId].permissions :: PermissionName(db, pid) == Some(a)
  {
    {RoleAuthority(db.roles[u.roleId].name)} + PermissionNames(db, db.roles[u.roleId].permissions)
  }

  /** Naming a set of permissions gives at most as many names as permissions. */
  lemma {:induction false} PermissionNamesBound(db: Db, pids: set<int>)
    ensures |PermissionNames(db, pids)| <= |pids|
    decreases pids
  {
    if pids != {} {
      var p := Sets.Pick(pids);
      var rest := pids - {p};
      PermissionNamesBound(db, rest);
      var head: set<string> := if PermissionName(db, p).Some? then {PermissionName(db, p).value} else {};
      forall a ensures a in PermissionNames(db, pids) <==> a in PermissionNames(db, rest) + head {
        if a in PermissionNames(db, pids) {
          var q :| q in pids && PermissionName(db, q) == Some(a);
          if q != p {
            assert q in rest;
          }
        }
      }
      assert PermissionNames(db, pids) == PermissionNames(db, rest) + head;
      assert |head| <= 1;
    }
  }

  /** A user holds at most one authority more than the role has permissions. */
  lemma AuthoritiesSize(db: Db, u: User)
    requires u.roleId in db.roles
    ensures |Authorities(db, u)| <= 1 + |db.roles[u.roleId].permissions|
  {
    PermissionNamesBound(db, db.roles[u.roleId].permissions);
  }

  /**
   * A permission authority starts with "ROLE_" only when its resource name
   * does; so if no stored resource name does, the only authority with that
   * prefix is the role's own.
   */
  lemma OnlyRoleAuthorityHasRolePrefix(db: Db, u: User, a: string)
    requires u.roleId in db.roles
    requires forall id | id in db.resources :: !StartsWith(db.resources[id].name, "ROLE_")
    requires a in Authorities(db, u)
    ensures StartsWith(a, "ROLE_") <==> a == RoleAuthority(db.roles[u.roleId].name)
  {
    if a != RoleAuthority(db.roles[u.roleId].name) {
      var pid :| pid in db.roles[u.roleId].permissions && PermissionName(db, pid) == Some(a);
      var p := db.permissions[pid];
      PermissionEntity.NameRolePrefix(db.resources[p.resourceId].name, db.actions[p.actionId].name);
    }
  }

  /** `getUsername`: a user signs in with the email address. */
  function Username(u: User): (r: string)
    ensures r == u.email
  {
    u.email
  }

  /** `isAccountNonExpired`: accounts never expire. */
  function IsAccountNonExpired(u: User): (r: bool)
    ensures r
  {
    true
  }

  /** `isAccountNonLocked`: accounts are never locked. */
  function IsAccountNonLocked(u: User): (r: bool)
    ensures r
  {
    true
  }

  /** `isCredentialsNonExpired`: passwords never expire. */
  function IsCredentialsNonExpired(u: User): (r: bool)
    ensures r
  {
    true
  }

  /** `isEnabled`: every account is enabled. */
  function IsEnabled(u: User): (r: bool)
    ensures r
  {
    true
  }
}
