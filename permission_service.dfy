/** `services/PermissionService.java`: permission lookups and writes. */
module PermissionService {
  import opened Wrappers
  import opened Text
  import opened Entities
  import opened Store
  import opened PermissionEntity

  /** `PermissionDto`: the resource and action named by the request and a description. */
  datatype PermissionDto = PermissionDto(resourceName: string, actionName: string, description: Option<string>)

  function PermissionNotFound(id: int): Error {
    NotFound("Permission not found with id: " + IntToString(id))
  }

  /** `getAllPermissions`: every stored permission id, each once. */
  method GetAllPermissions(s: Store) returns (ids: seq<int>)
    ensures forall id :: id in ids <==> id in s.permissions
    ensures forall i, j :: 0 <= i < j < |ids| ==> ids[i] != ids[j]
  {
    ids := ListIds(s.permissions);
  }

  /** `getPermissionById`: the stored permission, or NotFound. */
  function GetPermissionById(db: Db, id: int): (r: Result<Permission, Error>)
    ensures r.Success? <==> id in db.permissions
    ensures r.Success? ==> r.value == db.permissions[id]
    ensures r.Failure? ==> r.error == PermissionNotFound(id)
  {
    if id in db.permissions then Success(db.permissions[id]) else Failure(PermissionNotFound(id))
  }

  /**
   * `createPermission`: the resource is looked up first, then the action;
   * a pair that already has a permission is refused; otherwise one
   * permission linking exactly those two is stored.
   */
  method CreatePermission(s: Store, dto: PermissionDto) returns (r: Result<int, Error>)
    requires s.Valid()
    modifies s
    ensures s.Valid()
    ensures !old(HasResourceNamed(s.resources, dto.resourceName)) ==>
      r == Failure(NotFound("Resource not found with name: " + dto.resourceName))
      && s.Snapshot() == old(s.Snapshot())
    ensures old(HasResourceNamed(s.resources, dto.resourceName)) && !old(HasActionNamed(s.actions, dto.actionName)) ==>
      r == Failure(NotFound("Action not found with name: " + dto.actionName))
      && s.Snapshot() == old(s.Snapshot())
    ensures old(HasResourceNamed(s.resources, dto.resourceName)) && old(HasActionNamed(s.actions, dto.actionName)) ==>
      var resourceId := old(ResourceIdNamed(s.resources, dto.resourceName));
      var actionId := old(ActionIdNamed(s.actions, dto.actionName));
      if old(HasPair(s.permissions, resourceId, actionId)) then
        r == Failure(AlreadyExists("Permission already exists for resource '" + dto.resourceName
                                   + "' and action '" + dto.actionName + "'"))
        && s.Snapshot() == old(s.Snapshot())
      else
        && r.Success? && r.value !in old(s.permissions)
        && s.Snapshot() == old(s.Snapshot()).(permissions :=
             old(s.permissions)[r.value := Permission(resourceId, actionId, dto.description)])
  {
    if !HasResourceNamed(s.resources, dto.resourceName) {
      return Failure(NotFound("Resource not found with name: " + dto.resourceName));
    }
    var resourceId :| resourceId in s.resources && s.resources[resourceId].name == dto.resourceName;
    ResourceIdNamedIs(s.resources, resourceId);
    if !HasActionNamed(s.actions, dto.actionName) {
      return Failure(NotFound("Action not found with name: " + dto.actionName));
    }
    var actionId :| actionId in s.actions && s.actions[actionId].name == dto.actionName;
    ActionIdNamedIs(s.actions, actionId);
    if HasPair(s.permissions, resourceId, actionId) {
      return Failure(AlreadyExists("Permission already exists for resource '" + dto.resourceName
                                   + "' and action '" + dto.actionName + "'"));
    }
    var id := s.NewId();
    var p := Permission(resourceId, actionId, dto.description);
    InsertKeepsUniquePairs(s.permissions, id, p);
    s.permissions := s.permissions[id := p];
    r := Success(id);
  }

  /** `deletePermission`: NotFound for an unknown id, otherwise removes that permission alone. */
  method DeletePermission(s: Store, id: int) returns (r: Result<(), Error>)
    requires s.Valid()
    modifies s
    ensures s.Valid()
    ensures id !in old(s.permissions) ==>
      r == Failure(PermissionNotFound(id)) && s.Snapshot() == old(s.Snapshot())
    ensures id in old(s.permissions) ==>
      r == Success(()) && s.Snapshot() == old(s.Snapshot()).(permissions := old(s.permissions) - {id})
  {
    if id !in s.permissions {
      return Failure(PermissionNotFound(id));
    }
    s.permissions := s.permissions - {id};
    r := Success(());
  }

  /**
   * `updatePermissionDescription`: NotFound for an unknown id; otherwise the
   * description is replaced (null included) and resource and action stay.
   */
  method UpdatePermissionDescription(s: Store, id: int, description: Option<string>)
    returns (r: Result<Permission, Error>)
    requires s.Valid()
    modifies s
    ensures s.Valid()
    ensures id !in old(s.permissions) ==>
      r == Failure(PermissionNotFound(id)) && s.Snapshot() == old(s.Snapshot())
    ensures id in old(s.permissions) ==>
      var now := old(s.permissions[id]).(description := description);
      && r == Success(now)
      && now.resourceId == old(s.permissions[id].resourceId)
      && now.actionId == old(s.permissions[id].actionId)
      && s.Snapshot() == old(s.Snapshot()).(permissions := old(s.permissions)[id := now])
  {
    var found := GetPermissionById(s.Snapshot(), id);
    if found.Failure? {
      return Failure(found.error);
    }
    var p := found.value.(description := description);
    s.permissions := s.permissions[id := p];
    r := Success(p);
  }
}
