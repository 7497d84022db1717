/**
 * `bootstrap/DataLoader.java`: seeds the roles, an admin account, five
 * resources, five actions, the 5×5 permission matrix and the grants of
 * each role. Every step skips what already exists, so a second run changes
 * nothing. The password encoder is the parameter `encode`.
 */
module DataLoader {
  import opened Wrappers
  import opened Entities
  import opened Store
  import opened PermissionEntity
  import opened RoleSeeder
  import ResourceService
  import ActionService
  import PermissionService
  import RoleService

  const AdminEmail := "admin@example.com"
  const AdminFullName := "Admin User"
  const AdminPassword := "admin123"

  /** The resources `createResources` creates, with their descriptions, in call order. */
  const SeedResources: seq<(string, string)> := [
    ("USER", "User management resource"),
    ("ROLE", "Role management resource"),
    ("PERMISSION", "Permission management resource"),
    ("RESOURCE", "Resource management resource"),
    ("ACTION", "Action management resource")]

  /** The actions `createActions` creates, with their descriptions, in call order. */
  const SeedActions: seq<(string, string)> := [
    ("CREATE", "Create operation"),
    ("READ", "Read operation"),
    ("UPDATE", "Update operation"),
    ("DELETE", "Delete operation"),
    ("LIST", "List all operation")]

  /** The two name arrays of `createPermissions`. */
  const PermissionResourceNames: seq<string> := ["USER", "ROLE", "PERMISSION", "RESOURCE", "ACTION"]
  const PermissionActionNames: seq<string> := ["CREATE", "READ", "UPDATE", "DELETE", "LIST"]

  /** The description `createPermissions` gives the permission of a pair. */
  function PermissionDescription(resourceName: string, actionName: string): string {
    resourceName + ":" + actionName + " permission"
  }

  /** Resource and action named `resourceName` and `actionName` are stored and have a permission. */
  ghost predicate PermissionFor(db: Db, resourceName: string, actionName: string) {
    && HasResourceNamed(db.resources, resourceName)
    && HasActionNamed(db.actions, actionName)
    && HasPair(db.permissions, ResourceIdNamed(db.resources, resourceName), ActionIdNamed(db.actions, actionName))
  }

  /** A pair whose resource and action both exist has its permission. */
  ghost predicate PairCovered(db: Db, resourceName: string, actionName: string) {
    HasResourceNamed(db.resources, resourceName) && HasActionNamed(db.actions, actionName) ==>
      PermissionFor(db, resourceName, actionName)
  }

  /** The three filters `assignPermissionsToRoles` applies to the permission list. */
  datatype Selection = Every | ReadOrList | UserReadOrList

  /** The filter each role's grants go through. */
  function SelectionFor(n: RoleName): Selection {
    match n
    case ADMIN => Every
    case MODERATOR => ReadOrList
    case USER => UserReadOrList
  }

  /**
   * The stored permission passes the filter: every one for ADMIN; one whose
   * action is READ or LIST for MODERATOR; one on the USER resource whose
   * action is READ or LIST for USER.
   */
  predicate Selected(db: Db, sel: Selection, pid: int) {
    && pid in db.permissions
    && match sel
       case Every => true
       case ReadOrList =>
         && db.permissions[pid].actionId in db.actions
         && (db.actions[db.permissions[pid].actionId].name == "READ"
             || db.actions[db.permissions[pid].actionId].name == "LIST")
       case UserReadOrList =>
         && db.permissions[pid].actionId in db.actions
         && db.permissions[pid].resourceId in db.resources
         && db.resources[db.permissions[pid].resourceId].name == "USER"
         && (db.actions[db.permissions[pid].actionId].name == "READ"
             || db.actions[db.permissions[pid].actionId].name == "LIST")
  }

  /** The stored permissions that pass the filter `sel`. */
  ghost function SelectedIds(db: Db, sel: Selection): set<int> {
    set pid | pid in db.permissions && Selected(db, sel, pid)
  }

  /** The permissions `assignPermissionsToRoles` grants the role named `n`. */
  ghost function Grants(db: Db, n: RoleName): set<int> {
    SelectedIds(db, SelectionFor(n))
  }

  /** A role that holds, besides its own permissions, the given ones. */
  function GrantedAll(role: Role, pids: set<int>): Role {
    role.(permissions := role.permissions + pids)
  }

  /** Everything a completed seeding leaves in the store. */
  ghost predicate Seeded(db: Db) {
    && (forall n: RoleName :: HasRoleNamed(db.roles, n))
    && HasUserWithEmail(db.users, AdminEmail)
    && (forall i | 0 <= i < |SeedResources| :: HasResourceNamed(db.resources, SeedResources[i].0))
    && (forall i | 0 <= i < |SeedActions| :: HasActionNamed(db.actions, SeedActions[i].0))
    && (forall i, j | 0 <= i < |PermissionResourceNames| && 0 <= j < |PermissionActionNames| ::
          PermissionFor(db, PermissionResourceNames[i], PermissionActionNames[j]))
    && (forall id | id in db.roles :: Grants(db, db.roles[id].name) <= db.roles[id].permissions)
  }

  // ----- createAdminUserIfNotExist -----

  /**
   * `createAdminUserIfNotExist`: unless a user has the admin email, stores
   * the admin account with the ADMIN role, which must exist.
   */
  method CreateAdminUserIfNotExist(s: Store, encode: string -> string) returns (r: Result<(), Error>)
    requires s.Valid()
    modifies s
    ensures s.Valid()
    ensures s.Snapshot() == old(s.Snapshot()).(users := s.users)
    ensures old(HasUserWithEmail(s.users, AdminEmail)) ==> r == Success(()) && s.users == old(s.users)
    ensures !old(HasUserWithEmail(s.users, AdminEmail)) && !old(HasRoleNamed(s.roles, ADMIN)) ==>
      r == Failure(Runtime("Admin role not found")) && s.users == old(s.users)
    ensures old(HasUserWithEmail(s.users, AdminEmail)) || old(HasRoleNamed(s.roles, ADMIN)) ==>
      r == Success(()) && HasUserWithEmail(s.users, AdminEmail)
    ensures Kept(old(s.users), s.users)
    ensures forall id | id in s.users && id !in old(s.users) ::
      && HasRoleNamed(s.roles, ADMIN)
      && s.users[id] == User(AdminFullName, AdminEmail, encode(AdminPassword), RoleIdNamed(s.roles, ADMIN))
  {
    if HasUserWithEmail(s.users, AdminEmail) {
      return Success(());
    }
    if !HasRoleNamed(s.roles, ADMIN) {
      return Failure(Runtime("Admin role not found"));
    }
    var roleId :| roleId in s.roles && s.roles[roleId].name == ADMIN;
    RoleIdNamedIs(s.roles, roleId);
    var id := s.NewId();
    s.users := s.users[id := User(AdminFullName, AdminEmail, encode(AdminPassword), roleId)];
    UserIdWithEmailIs(s.users, id);
    r := Success(());
  }

  // ----- createResources / createActions -----

  /** A kept resource still carries its name. */
  lemma KeptResourceNamed(before: map<int, Resource>, after: map<int, Resource>, name: string)
    requires Kept(before, after) && HasResourceNamed(before, name)
    ensures HasResourceNamed(after, name)
  {
    var w :| w in before && before[w].name == name;
    assert after[w] == before[w];
  }

  /** A kept action still carries its name. */
  lemma KeptActionNamed(before: map<int, Action>, after: map<int, Action>, name: string)
    requires Kept(before, after) && HasActionNamed(before, name)
    ensures HasActionNamed(after, name)
  {
    var w :| w in before && before[w].name == name;
    assert after[w] == before[w];
  }

  /**
   * `createResource(name, description)`: `createResource` of the service
   * with its AlreadyExists swallowed.
   */
  method CreateResource(s: Store, name: string, description: string)
    requires s.Valid()
    modifies s
    ensures s.Valid()
    ensures s.Snapshot() == old(s.Snapshot()).(resources := s.resources)
    ensures HasResourceNamed(s.resources, name)
    ensures Kept(old(s.resources), s.resources)
    ensures forall m | HasResourceNamed(old(s.resources), m) :: HasResourceNamed(s.resources, m)
    ensures forall id | id in s.resources && id !in old(s.resources) ::
      s.resources[id] == Resource(name, Some(description))
    ensures old(HasResourceNamed(s.resources, name)) ==> s.Snapshot() == old(s.Snapshot())
  {
    var created := ResourceService.CreateResource(s, ResourceService.ResourceDto(Some(name), Some(description)));
    if created.Success? {
      ResourceIdNamedIs(s.resources, created.value);
    }
    forall m | HasResourceNamed(old(s.resources), m) ensures HasResourceNamed(s.resources, m) {
      KeptResourceNamed(old(s.resources), s.resources, m);
    }
  }

  /** The resources `createResources` may store: a seed name with its description. */
  ghost function SeedResourceValues(): set<Resource> {
    set i | 0 <= i < |SeedResources| :: Resource(SeedResources[i].0, Some(SeedResources[i].1))
  }

  /** Every seed resource name is stored. */
  ghost predicate AllSeedResources(resources: map<int, Resource>) {
    forall i | 0 <= i < |SeedResources| :: HasResourceNamed(resources, SeedResources[i].0)
  }

  /**
   * After the first `k` calls of `createResources`: `now` keeps `was`, has
   * the first `k` seed names and adds only seed resources; a store that
   * had every seed name is unchanged.
   */
  ghost predicate ResourcesSeeded(was: map<int, Resource>, now: map<int, Resource>, k: nat) {
    && Kept(was, now)
    && (forall i | 0 <= i < k && i < |SeedResources| :: HasResourceNamed(now, SeedResources[i].0))
    && (forall id | id in now && id !in was :: now[id] in SeedResourceValues())
    && (AllSeedResources(was) ==> now == was)
  }

  /** One more `createResource` call of `createResources`. */
  lemma ResourcesSeededStep(was: map<int, Resource>, mid: map<int, Resource>, now: map<int, Resource>, k: nat)
    requires k < |SeedResources| && ResourcesSeeded(was, mid, k)
    requires HasResourceNamed(now, SeedResources[k].0) && Kept(mid, now)
    requires forall id | id in now && id !in mid :: now[id] == Resource(SeedResources[k].0, Some(SeedResources[k].1))
    requires HasResourceNamed(mid, SeedResources[k].0) ==> now == mid
    ensures ResourcesSeeded(was, now, k + 1)
  {
    forall i | 0 <= i < k ensures HasResourceNamed(now, SeedResources[i].0) {
      KeptResourceNamed(mid, now, SeedResources[i].0);
    }
    forall id | id in was ensures id in now && now[id] == was[id] {
      assert id in mid;
    }
    forall id | id in now && id !in was ensures now[id] in SeedResourceValues() {
      if id !in mid {
        assert now[id] == Resource(SeedResources[k].0, Some(SeedResources[k].1));
      }
    }
    if AllSeedResources(was) {
      KeptResourceNamed(was, mid, SeedResources[k].0);
    }
  }

  /** `createResources`: the five seed resources, each skipped when its name exists. */
  method CreateResources(s: Store)
    requires s.Valid()
    modifies s
    ensures s.Valid()
    ensures s.Snapshot() == old(s.Snapshot()).(resources := s.resources)
    ensures ResourcesSeeded(old(s.resources), s.resources, |SeedResources|)
  {
    ghost var was := s.resources;
    ghost var mid := was;
    CreateResource(s, SeedResources[0].0, SeedResources[0].1);
    ResourcesSeededStep(was, mid, s.resources, 0);
    mid := s.resources;
    CreateResource(s, SeedResources[1].0, SeedResources[1].1);
    ResourcesSeededStep(was, mid, s.resources, 1);
    mid := s.resources;
    CreateResource(s, SeedResources[2].0, SeedResources[2].1);
    ResourcesSeededStep(was, mid, s.resources, 2);
    mid := s.resources;
    CreateResource(s, SeedResources[3].0, SeedResources[3].1);
    ResourcesSeededStep(was, mid, s.resources, 3);
    mid := s.resources;
    CreateResource(s, SeedResources[4].0, SeedResources[4].1);
    ResourcesSeededStep(was, mid, s.resources, 4);
  }

  /** `createAction(name, description)`: `createAction` of the service with its AlreadyExists swallowed. */
  method CreateAction(s: Store, name: string, description: string)
    requires s.Valid()
    modifies s
    ensures s.Valid()
    ensures s.Snapshot() == old(s.Snapshot()).(actions := s.actions)
    ensures HasActionNamed(s.actions, name)
    ensures Kept(old(s.actions), s.actions)
    ensures forall m | HasActionNamed(old(s.actions), m) :: HasActionNamed(s.actions, m)
    ensures forall id | id in s.actions && id !in old(s.actions) ::
      s.actions[id] == Action(name, Some(description))
    ensures old(HasActionNamed(s.actions, name)) ==> s.Snapshot() == old(s.Snapshot())
  {
    var created := ActionService.CreateAction(s, ActionService.ActionDto(Some(name), Some(description)));
    if created.Success? {
      ActionIdNamedIs(s.actions, created.value);
    }
    forall m | HasActionNamed(old(s.actions), m) ensures HasActionNamed(s.actions, m) {
      KeptActionNamed(old(s.actions), s.actions, m);
    }
  }

  /** The actions `createActions` may store: a seed name with its description. */
  ghost function SeedActionValues(): set<Action> {
    set i | 0 <= i < |SeedActions| :: Action(SeedActions[i].0, Some(SeedActions[i].1))
  }

  /** Every seed action name is stored. */
  ghost predicate AllSeedActions(actions: map<int, Action>) {
    forall i | 0 <= i < |SeedActions| :: HasActionNamed(actions, SeedActions[i].0)
  }

  /**
   * After the first `k` calls of `createActions`: `now` keeps `was`, has
   * the first `k` seed names and adds only seed actions; a store that
   * had every seed name is unchanged.
   */
  ghost predicate ActionsSeeded(was: map<int, Action>, now: map<int, Action>, k: nat) {
    && Kept(was, now)
    && (forall i | 0 <= i < k && i < |SeedActions| :: HasActionNamed(now, SeedActions[i].0))
    && (forall id | id in now && id !in was :: now[id] in SeedActionValues())
    && (AllSeedActions(was) ==> now == was)
  }

  /** One more `createAction` call of `createActions`. */
  lemma ActionsSeededStep(was: map<int, Action>, mid: map<int, Action>, now: map<int, Action>, k: nat)
    requires k < |SeedActions| && ActionsSeeded(was, mid, k)
    requires HasActionNamed(now, SeedActions[k].0) && Kept(mid, now)
    requires forall id | id in now && id !in mid :: now[id] == Action(SeedActions[k].0, Some(SeedActions[k].1))
    requires HasActionNamed(mid, SeedActions[k].0) ==> now == mid
    ensures ActionsSeeded(was, now, k + 1)
  {
    forall i | 0 <= i < k ensures HasActionNamed(now, SeedActions[i].0) {
      KeptActionNamed(mid, now, SeedActions[i].0);
    }
    forall id | id in was ensures id in now && now[id] == was[id] {
      assert id in mid;
    }
    forall id | id in now && id !in was ensures now[id] in SeedActionValues() {
      if id !in mid {
        assert now[id] == Action(SeedActions[k].0, Some(SeedActions[k].1));
      }
    }
    if AllSeedActions(was) {
      KeptActionNamed(was, mid, SeedActions[k].0);
    }
  }

  /** `createActions`: the five seed actions, each skipped when its name exists. */
  method CreateActions(s: Store)
    requires s.Valid()
    modifies s
    ensures s.Valid()
    ensures s.Snapshot() == old(s.Snapshot()).(actions := s.actions)
    ensures ActionsSeeded(old(s.actions), s.actions, |SeedActions|)
  {
    ghost var was := s.actions;
    ghost var mid := was;
    CreateAction(s, SeedActions[0].0, SeedActions[0].1);
    ActionsSeededStep(was, mid, s.actions, 0);
    mid := s.actions;
    CreateAction(s, SeedActions[1].0, SeedActions[1].1);
    ActionsSeededStep(was, mid, s.actions, 1);
    mid := s.actions;
    CreateAction(s, SeedActions[2].0, SeedActions[2].1);
    ActionsSeededStep(was, mid, s.actions, 2);
    mid := s.actions;
    CreateAction(s, SeedActions[3].0, SeedActions[3].1);
    ActionsSeededStep(was, mid, s.actions, 3);
    mid := s.actions;
    CreateAction(s, SeedActions[4].0, SeedActions[4].1);
    ActionsSeededStep(was, mid, s.actions, 4);
  }

  // ----- createPermissions -----

  /** Every pair of the matrix whose resource and action exist has its permission. */
  ghost predicate AllPairsCovered(db: Db) {
    forall a, b | 0 <= a < |PermissionResourceNames| && 0 <= b < |PermissionActionNames| ::
      PairCovered(db, PermissionResourceNames[a], PermissionActionNames[b])
  }

  /** The permission `createPermissions` stores for a pair whose resource and action exist. */
  ghost function SeedPermission(resources: map<int, Resource>, actions: map<int, Action>,
                                resourceName: string, actionName: string): Permission
    requires HasResourceNamed(resources, resourceName) && HasActionNamed(actions, actionName)
  {
    Permission(ResourceIdNamed(resources, resourceName), ActionIdNamed(actions, actionName),
               Some(PermissionDescription(resourceName, actionName)))
  }

  /** `p` is the permission `createPermissions` stores for one pair of the matrix. */
  ghost predicate IsSeedPermission(resources: map<int, Resource>, actions: map<int, Action>, p: Permission) {
    exists a, b | 0 <= a < |PermissionResourceNames| && 0 <= b < |PermissionActionNames| ::
      && HasResourceNamed(resources, PermissionResourceNames[a])
      && HasActionNamed(actions, PermissionActionNames[b])
      && p == SeedPermission(resources, actions, PermissionResourceNames[a], PermissionActionNames[b])
  }

  /** `p` is the permission `createPermissions` stores for `resourceName` and one action name. */
  ghost predicate IsRowPermission(resources: map<int, Resource>, actions: map<int, Action>,
                                  resourceName: string, p: Permission) {
    exists b | 0 <= b < |PermissionActionNames| ::
      && HasResourceNamed(resources, resourceName)
      && HasActionNamed(actions, PermissionActionNames[b])
      && p == SeedPermission(resources, actions, resourceName, PermissionActionNames[b])
  }

  /** Adding permissions, and changing nothing else, keeps a pair covered. */
  lemma KeptPairCovered(before: Db, after: Db, resourceName: string, actionName: string)
    requires after == before.(permissions := after.permissions)
    requires Kept(before.permissions, after.permissions)
    requires PairCovered(before, resourceName, actionName)
    ensures PairCovered(after, resourceName, actionName)
  {
    if HasResourceNamed(before.resources, resourceName) && HasActionNamed(before.actions, actionName) {
      var resourceId := ResourceIdNamed(before.resources, resourceName);
      var actionId := ActionIdNamed(before.actions, actionName);
      var w :| w in before.permissions
        && before.permissions[w].resourceId == resourceId && before.permissions[w].actionId == actionId;
      assert after.permissions[w] == before.permissions[w];
    }
  }

  /**
   * `createPermission(resourceName, actionName, description)`: the
   * service's `createPermission` with its NotFound and AlreadyExists
   * swallowed. Afterwards the pair is covered; a pair already covered, or
   * one whose resource or action is missing, changes nothing.
   */
  method CreatePermission(s: Store, resourceName: string, actionName: string)
    requires s.Valid()
    modifies s
    ensures s.Valid()
    ensures s.Snapshot() == old(s.Snapshot()).(permissions := s.permissions)
    ensures PairCovered(s.Snapshot(), resourceName, actionName)
    ensures Kept(old(s.permissions), s.permissions)
    ensures forall id | id in s.permissions && id !in old(s.permissions) ::
      && HasResourceNamed(s.resources, resourceName)
      && HasActionNamed(s.actions, actionName)
      && s.permissions[id] == SeedPermission(s.resources, s.actions, resourceName, actionName)
    ensures old(PairCovered(s.Snapshot(), resourceName, actionName)) ==> s.Snapshot() == old(s.Snapshot())
  {
    var description := PermissionDescription(resourceName, actionName);
    var created := PermissionService.CreatePermission(s,
      PermissionService.PermissionDto(resourceName, actionName, Some(description)));
    if created.Success? {
      var perms := s.permissions;
      assert created.value in perms;
      assert perms[created.value].resourceId == ResourceIdNamed(s.resources, resourceName);
      assert perms[created.value].actionId == ActionIdNamed(s.actions, actionName);
      HasOwnPair(perms, created.value);
    }
  }

  /**
   * The inner loop of `createPermissions`: one resource name against every
   * action name. Afterwards each of those pairs is covered; only
   * permissions change, existing ones are kept, and every new one is the
   * seed permission of the resource and one of the action names.
   */
  method CreateResourcePermissions(s: Store, resourceName: string)
    requires s.Valid()
    modifies s
    ensures s.Valid()
    ensures s.Snapshot() == old(s.Snapshot()).(permissions := s.permissions)
    ensures forall b | 0 <= b < |PermissionActionNames| ::
      PairCovered(s.Snapshot(), resourceName, PermissionActionNames[b])
    ensures Kept(old(s.permissions), s.permissions)
    ensures forall id | id in s.permissions && id !in old(s.permissions) ::
      IsRowPermission(s.resources, s.actions, resourceName, s.permissions[id])
    ensures (forall b | 0 <= b < |PermissionActionNames| ::
               old(PairCovered(s.Snapshot(), resourceName, PermissionActionNames[b]))) ==>
      s.Snapshot() == old(s.Snapshot())
  {
    var actions := PermissionActionNames;
    var j := 0;
    while j < |actions|
      invariant 0 <= j <= |actions|
      invariant s.Valid()
      invariant s.Snapshot() == old(s.Snapshot()).(permissions := s.permissions)
      invariant forall b | 0 <= b < j :: PairCovered(s.Snapshot(), resourceName, actions[b])
      invariant Kept(old(s.permissions), s.permissions)
      invariant forall id | id in s.permissions && id !in old(s.permissions) ::
        IsRowPermission(s.resources, s.actions, resourceName, s.permissions[id])
      invariant (forall b | 0 <= b < |actions| :: old(PairCovered(s.Snapshot(), resourceName, actions[b]))) ==>
        s.Snapshot() == old(s.Snapshot())
    {
      ghost var before := s.Snapshot();
      CreatePermission(s, resourceName, actions[j]);
      forall b | 0 <= b < j ensures PairCovered(s.Snapshot(), resourceName, actions[b]) {
        KeptPairCovered(before, s.Snapshot(), resourceName, actions[b]);
      }
      j := j + 1;
    }
  }

  /** The first `i` rows of the matrix are covered. */
  ghost predicate RowsCovered(db: Db, i: nat) {
    forall a, b | 0 <= a < i && a < |PermissionResourceNames| && 0 <= b < |PermissionActionNames| ::
      PairCovered(db, PermissionResourceNames[a], PermissionActionNames[b])
  }

  /**
   * After the first `i` rows of `createPermissions`: only permissions
   * changed, existing ones are kept, the first `i` rows are covered, every
   * new permission is a seed permission, and a covered matrix is unchanged.
   */
  ghost predicate PermissionsSeeded(was: Db, now: Db, i: nat) {
    && now == was.(permissions := now.permissions)
    && Kept(was.permissions, now.permissions)
    && RowsCovered(now, i)
    && (forall id | id in now.permissions && id !in was.permissions ::
          IsSeedPermission(now.resources, now.actions, now.permissions[id]))
    && (AllPairsCovered(was) ==> now == was)
  }

  /** One more row of `createPermissions`. */
  lemma PermissionsSeededStep(was: Db, mid: Db, now: Db, i: nat)
    requires i < |PermissionResourceNames| && PermissionsSeeded(was, mid, i)
    requires now == mid.(permissions := now.permissions)
    requires forall b | 0 <= b < |PermissionActionNames| ::
      PairCovered(now, PermissionResourceNames[i], PermissionActionNames[b])
    requires Kept(mid.permissions, now.permissions)
    requires forall id | id in now.permissions && id !in mid.permissions ::
      IsRowPermission(now.resources, now.actions, PermissionResourceNames[i], now.permissions[id])
    requires (forall b | 0 <= b < |PermissionActionNames| ::
                PairCovered(mid, PermissionResourceNames[i], PermissionActionNames[b])) ==> now == mid
    ensures PermissionsSeeded(was, now, i + 1)
  {
    forall a, b | 0 <= a < i + 1 && a < |PermissionResourceNames| && 0 <= b < |PermissionActionNames|
      ensures PairCovered(now, PermissionResourceNames[a], PermissionActionNames[b])
    {
      if a < i {
        KeptPairCovered(mid, now, PermissionResourceNames[a], PermissionActionNames[b]);
      }
    }
    forall id | id in was.permissions ensures id in now.permissions && now.permissions[id] == was.permissions[id] {
      assert id in mid.permissions;
    }
    forall id | id in now.permissions && id !in was.permissions
      ensures IsSeedPermission(now.resources, now.actions, now.permissions[id])
    {
      if id !in mid.permissions {
        var b :| 0 <= b < |PermissionActionNames|
          && HasResourceNamed(now.resources, PermissionResourceNames[i])
          && HasActionNamed(now.actions, PermissionActionNames[b])
          && now.permissions[id] == SeedPermission(now.resources, now.actions,
                                                    PermissionResourceNames[i], PermissionActionNames[b]);
      }
    }
    if AllPairsCovered(was) {
      forall b | 0 <= b < |PermissionActionNames|
        ensures PairCovered(mid, PermissionResourceNames[i], PermissionActionNames[b])
      {
        assert PairCovered(was, PermissionResourceNames[i], PermissionActionNames[b]);
      }
    }
  }

  /**
   * `createPermissions`: every resource name against every action name,
   * resources in the outer loop. Only permissions change, existing ones are
   * kept, every new one is the seed permission of some pair, and a store
   * whose pairs are all covered is left unchanged.
   */
  method CreatePermissions(s: Store)
    requires s.Valid()
    modifies s
    ensures s.Valid()
    ensures s.Snapshot() == old(s.Snapshot()).(permissions := s.permissions)
    ensures AllPairsCovered(s.Snapshot())
    ensures Kept(old(s.permissions), s.permissions)
    ensures forall id | id in s.permissions && id !in old(s.permissions) ::
      IsSeedPermission(s.resources, s.actions, s.permissions[id])
    ensures AllPairsCovered(old(s.Snapshot())) ==> s.Snapshot() == old(s.Snapshot())
  {
    var resources := PermissionResourceNames;
    var i := 0;
    while i < |resources|
      invariant 0 <= i <= |resources|
      invariant s.Valid()
      invariant PermissionsSeeded(old(s.Snapshot()), s.Snapshot(), i)
    {
      ghost var before := s.Snapshot();
      CreateResourcePermissions(s, resources[i]);
      PermissionsSeededStep(old(s.Snapshot()), before, s.Snapshot(), i);
      i := i + 1;
    }
  }

  // ----- assignPermissionsToRoles -----

  /** The filters read only permissions, resources and actions, never roles or users. */
  lemma SelectedIdsOfCatalogue(db1: Db, db2: Db, sel: Selection)
    requires db1.permissions == db2.permissions
    requires db1.resources == db2.resources && db1.actions == db2.actions
    ensures SelectedIds(db1, sel) == SelectedIds(db2, sel)
  {
    var a, b := SelectedIds(db1, sel), SelectedIds(db2, sel);
    forall pid ensures pid in a <==> pid in b { }
    assert a == b;
  }

  /** One more grant extends the granted set by that permission. */
  lemma GrantingGrantedAll(role: Role, pids: set<int>, pid: int)
    ensures RoleService.Granting(GrantedAll(role, pids), pid) == GrantedAll(role, pids + {pid})
  {
    var a := RoleService.Granting(GrantedAll(role, pids), pid).permissions;
    var b := role.permissions + (pids + {pid});
    forall q ensures q in a <==> q in b { }
    assert a == b;
  }

  /** Granting permissions the role already holds leaves it as it is. */
  lemma GrantedAllHeld(role: Role, pids: set<int>)
    requires pids <= role.permissions
    ensures GrantedAll(role, pids) == role
  {
    var a := role.permissions + pids;
    forall q ensures q in a <==> q in role.permissions { }
    assert a == role.permissions;
  }

  /**
   * One `getAllPermissions().stream().filter(..).forEach(..)` pass:
   * `assignPermissionToRole` for every stored permission that passes the
   * filter (failures swallowed). The role gains exactly those permissions;
   * nothing else changes.
   */
  method GrantSelected(s: Store, roleId: int, sel: Selection)
    requires s.Valid() && roleId in s.roles
    modifies s
    ensures s.Valid()
    ensures s.Snapshot() == old(s.Snapshot()).(roles :=
      old(s.roles)[roleId := GrantedAll(old(s.roles[roleId]), SelectedIds(old(s.Snapshot()), sel))])
  {
    ghost var db := s.Snapshot();
    var ids := PermissionService.GetAllPermissions(s);
    ghost var granted: set<int> := {};
    GrantedAllHeld(db.roles[roleId], granted);
    var k := 0;
    while k < |ids|
      invariant 0 <= k <= |ids|
      invariant s.Valid()
      invariant forall pid :: pid in granted <==> pid in ids[..k] && Selected(db, sel, pid)
      invariant s.Snapshot() == db.(roles := db.roles[roleId := GrantedAll(db.roles[roleId], granted)])
    {
      assert ids[..k + 1] == ids[..k] + [ids[k]];
      if Selected(s.Snapshot(), sel, ids[k]) {
        var outcome := RoleService.AssignPermissionToRole(s, roleId, ids[k]);
        GrantingGrantedAll(db.roles[roleId], granted, ids[k]);
        granted := granted + {ids[k]};
      }
      k := k + 1;
    }
    assert ids[..k] == ids;
    var all := SelectedIds(db, sel);
    forall pid ensures pid in granted <==> pid in all { }
    assert granted == all;
  }

  /** Each role of `was` has gained exactly the grants of its name, and no role was added. */
  ghost predicate GrantsApplied(was: Db, now: map<int, Role>) {
    && now.Keys == was.roles.Keys
    && forall id | id in was.roles :: now[id] == GrantedAll(was.roles[id], Grants(was, was.roles[id].name))
  }

  /** Granting the three roles their selections, one after the other, applies every role's grants. */
  lemma ThreeGrants(db: Db, now: map<int, Role>, adminId: int, moderatorId: int, userId: int)
    requires UniqueRoleNames(db.roles)
    requires adminId in db.roles && db.roles[adminId].name == ADMIN
    requires moderatorId in db.roles && db.roles[moderatorId].name == MODERATOR
    requires userId in db.roles && db.roles[userId].name == USER
    requires now == db.roles
      [adminId := GrantedAll(db.roles[adminId], Grants(db, ADMIN))]
      [moderatorId := GrantedAll(db.roles[moderatorId], Grants(db, MODERATOR))]
      [userId := GrantedAll(db.roles[userId], Grants(db, USER))]
    ensures GrantsApplied(db, now)
  {
    forall id | id in db.roles
      ensures now[id] == GrantedAll(db.roles[id], Grants(db, db.roles[id].name))
    {
      match db.roles[id].name
      case ADMIN => assert id == adminId;
      case MODERATOR => assert id == moderatorId;
      case USER => assert id == userId;
    }
  }

  /**
   * `assignPermissionsToRoles`: the three roles are looked up first (a
   * missing one throws before anything is granted); then ADMIN gains every
   * permission, MODERATOR those whose action is READ or LIST, and USER those
   * on the USER resource whose action is READ or LIST.
   */
  method AssignPermissionsToRoles(s: Store) returns (r: Result<(), Error>)
    requires s.Valid()
    modifies s
    ensures s.Valid()
    ensures !old(HasRoleNamed(s.roles, ADMIN)) ==>
      r == Failure(Runtime("Admin role not found")) && s.Snapshot() == old(s.Snapshot())
    ensures old(HasRoleNamed(s.roles, ADMIN)) && !old(HasRoleNamed(s.roles, MODERATOR)) ==>
      r == Failure(Runtime("Moderator role not found")) && s.Snapshot() == old(s.Snapshot())
    ensures old(HasRoleNamed(s.roles, ADMIN) && HasRoleNamed(s.roles, MODERATOR)) && !old(HasRoleNamed(s.roles, USER)) ==>
      r == Failure(Runtime("User role not found")) && s.Snapshot() == old(s.Snapshot())
    ensures old(HasRoleNamed(s.roles, ADMIN) && HasRoleNamed(s.roles, MODERATOR) && HasRoleNamed(s.roles, USER)) ==>
      && r == Success(())
      && s.Snapshot() == old(s.Snapshot()).(roles := s.roles)
      && GrantsApplied(old(s.Snapshot()), s.roles)
  {
    if !HasRoleNamed(s.roles, ADMIN) {
      return Failure(Runtime("Admin role not found"));
    }
    var adminId :| adminId in s.roles && s.roles[adminId].name == ADMIN;
    if !HasRoleNamed(s.roles, MODERATOR) {
      return Failure(Runtime("Moderator role not found"));
    }
    var moderatorId :| moderatorId in s.roles && s.roles[moderatorId].name == MODERATOR;
    if !HasRoleNamed(s.roles, USER) {
      return Failure(Runtime("User role not found"));
    }
    var userId :| userId in s.roles && s.roles[userId].name == USER;
    ghost var db := s.Snapshot();
    GrantSelected(s, adminId, Every);
    SelectedIdsOfCatalogue(db, s.Snapshot(), ReadOrList);
    GrantSelected(s, moderatorId, ReadOrList);
    SelectedIdsOfCatalogue(db, s.Snapshot(), UserReadOrList);
    GrantSelected(s, userId, UserReadOrList);
    r := Success(());
    ThreeGrants(db, s.roles, adminId, moderatorId, userId);
  }

  // ----- run -----

  /** `args.length > 0 && args[0].equals("test")`: the seeding is skipped. */
  predicate IsTestRun(args: seq<string>) {
    |args| > 0 && args[0] == "test"
  }

  /** What the steps before `assignPermissionsToRoles` leave in the store. */
  ghost predicate CatalogueSeeded(db: Db) {
    && (forall n | n in AllRoleNames :: HasRoleNamed(db.roles, n))
    && HasUserWithEmail(db.users, AdminEmail)
    && (forall i | 0 <= i < |SeedResources| :: HasResourceNamed(db.resources, SeedResources[i].0))
    && (forall i | 0 <= i < |SeedActions| :: HasActionNamed(db.actions, SeedActions[i].0))
    && AllPairsCovered(db)
  }

  /**
   * Once the catalogue is seeded, granting each role its permissions
   * completes the seeding: the permission matrix is whole, since every
   * matrix name is a seeded resource or action name.
   */
  lemma GrantsCompleteSeeding(db1: Db, db2: Db)
    requires CatalogueSeeded(db1) && Consistent(db2)
    requires db2 == db1.(roles := db2.roles) && GrantsApplied(db1, db2.roles)
    ensures Seeded(db2)
  {
    forall n: RoleName ensures HasRoleNamed(db2.roles, n) && Grants(db2, n) == Grants(db1, n) {
      AllRoleNamesComplete(n);
      RoleIdNamedIs(db2.roles, RoleIdNamed(db1.roles, n));
      SelectedIdsOfCatalogue(db1, db2, SelectionFor(n));
    }
    forall a, b | 0 <= a < |PermissionResourceNames| && 0 <= b < |PermissionActionNames|
      ensures PermissionFor(db2, PermissionResourceNames[a], PermissionActionNames[b])
    {
      assert PermissionResourceNames[a] == SeedResources[a].0;
      assert PermissionActionNames[b] == SeedActions[b].0;
      assert PairCovered(db1, PermissionResourceNames[a], PermissionActionNames[b]);
    }
  }

  /** A seeded store has every grant in place already. */
  lemma SeededHoldsGrants(db: Db, id: int)
    requires Seeded(db) && id in db.roles
    ensures GrantedAll(db.roles[id], Grants(db, db.roles[id].name)) == db.roles[id]
  {
    GrantedAllHeld(db.roles[id], Grants(db, db.roles[id].name));
  }

  /** A seeded store has its catalogue seeded. */
  lemma SeededCatalogue(db: Db)
    requires Seeded(db)
    ensures CatalogueSeeded(db)
  {
  }

  /** Users, resources, actions and permissions of `was` are all kept in `now`. */
  ghost predicate CatalogueKept(was: Db, now: Db) {
    && Kept(was.users, now.users) && Kept(was.resources, now.resources)
    && Kept(was.actions, now.actions) && Kept(was.permissions, now.permissions)
  }

  /** Every role of `was` is in `now`, the same but for permissions it gained. */
  ghost predicate RolesGrew(was: map<int, Role>, now: map<int, Role>) {
    forall id | id in was :: id in now && now[id] == GrantedAll(was[id], now[id].permissions)
  }

  /** Keeping is transitive. */
  lemma KeptTrans<T>(a: map<int, T>, b: map<int, T>, c: map<int, T>)
    requires Kept(a, b) && Kept(b, c)
    ensures Kept(a, c)
  {
    forall id | id in a ensures id in c && c[id] == a[id] {
      assert id in b;
    }
  }

  /**
   * The five catalogue steps of `run` in order (roles, admin, resources,
   * actions, permissions), each as its own contract states it, seed the
   * catalogue, keep what existed, and change nothing in a seeded store.
   */
  lemma CatalogueSteps(db0: Db, dbRoles: Db, dbAdmin: Db, dbResources: Db, dbActions: Db, db1: Db)
    requires dbRoles == db0.(roles := dbRoles.roles) && Kept(db0.roles, dbRoles.roles)
    requires forall n | n in AllRoleNames :: HasRoleNamed(dbRoles.roles, n)
    requires (forall n | n in AllRoleNames :: HasRoleNamed(db0.roles, n)) ==> dbRoles == db0
    requires dbAdmin == dbRoles.(users := dbAdmin.users) && Kept(dbRoles.users, dbAdmin.users)
    requires HasUserWithEmail(dbAdmin.users, AdminEmail)
    requires HasUserWithEmail(dbRoles.users, AdminEmail) ==> dbAdmin == dbRoles
    requires dbResources == dbAdmin.(resources := dbResources.resources)
    requires ResourcesSeeded(dbAdmin.resources, dbResources.resources, |SeedResources|)
    requires dbActions == dbResources.(actions := dbActions.actions)
    requires ActionsSeeded(dbResources.actions, dbActions.actions, |SeedActions|)
    requires db1 == dbActions.(permissions := db1.permissions)
    requires Kept(dbActions.permissions, db1.permissions) && AllPairsCovered(db1)
    requires AllPairsCovered(dbActions) ==> db1 == dbActions
    ensures CatalogueSeeded(db1) && CatalogueKept(db0, db1) && Kept(db0.roles, db1.roles)
    ensures Seeded(db0) ==> db1 == db0
  {
    KeptTrans(db0.users, dbRoles.users, dbAdmin.users);
    if Seeded(db0) {
      forall n | n in AllRoleNames ensures HasRoleNamed(db0.roles, n) { }
      assert dbAdmin == db0;
    }
  }

  /** Granting never takes a permission away, so granting twice is granting the union. */
  lemma GrantedAllAbsorbs(role: Role, pids: set<int>)
    ensures GrantedAll(role, GrantedAll(role, pids).permissions) == GrantedAll(role, pids)
  {
    var a := role.permissions + (role.permissions + pids);
    forall q ensures q in a <==> q in role.permissions + pids { }
    assert a == role.permissions + pids;
  }

  /**
   * The grants that end `run`: they complete the seeding, keep the rest of
   * the catalogue, only add permissions to existing roles, and leave a store
   * that was seeded before the run as it was.
   */
  lemma GrantSteps(db0: Db, db1: Db, db2: Db)
    requires CatalogueKept(db0, db1) && Kept(db0.roles, db1.roles)
    requires Seeded(db0) ==> db1 == db0
    requires CatalogueSeeded(db1) && Consistent(db2)
    requires db2 == db1.(roles := db2.roles) && GrantsApplied(db1, db2.roles)
    ensures Seeded(db2) && CatalogueKept(db0, db2)
    ensures RolesGrew(db0.roles, db2.roles)
    ensures Seeded(db0) ==> db2 == db0
  {
    GrantsCompleteSeeding(db1, db2);
    forall id | id in db0.roles
      ensures id in db2.roles && db2.roles[id] == GrantedAll(db0.roles[id], db2.roles[id].permissions)
    {
      assert db1.roles[id] == db0.roles[id];
      GrantedAllAbsorbs(db0.roles[id], Grants(db1, db1.roles[id].name));
    }
    if Seeded(db0) {
      forall id | id in db0.roles ensures db2.roles[id] == db0.roles[id] {
        SeededHoldsGrants(db0, id);
      }
      assert db2.roles == db0.roles;
    }
  }

  /**
   * `run`: unless started as a test run, seeds roles, the admin account,
   * resources, actions, permissions and grants, in that order. Afterwards
   * the store is seeded; nothing that existed is removed or altered except
   * that roles gain permissions; and a store that was already seeded is
   * left exactly as it was, so running twice is running once.
   */
  method Run(s: Store, args: seq<string>, encode: string -> string)
    requires s.Valid()
    modifies s
    ensures s.Valid()
    ensures IsTestRun(args) ==> s.Snapshot() == old(s.Snapshot())
    ensures !IsTestRun(args) ==> Seeded(s.Snapshot())
    ensures CatalogueKept(old(s.Snapshot()), s.Snapshot())
    ensures RolesGrew(old(s.roles), s.roles)
    ensures old(Seeded(s.Snapshot())) ==> s.Snapshot() == old(s.Snapshot())
  {
    if IsTestRun(args) {
      forall id | id in s.roles ensures s.roles[id] == GrantedAll(s.roles[id], s.roles[id].permissions) {
        GrantedAllHeld(s.roles[id], s.roles[id].permissions);
      }
      assert CatalogueKept(s.Snapshot(), s.Snapshot());
      return;
    }
    ghost var db0 := s.Snapshot();
    SeedRoles(s, AllRoleNames);
    ghost var dbRoles := s.Snapshot();
    AllRoleNamesComplete(ADMIN);
    var admin := CreateAdminUserIfNotExist(s, encode);
    ghost var dbAdmin := s.Snapshot();
    CreateResources(s);
    ghost var dbResources := s.Snapshot();
    CreateActions(s);
    ghost var dbActions := s.Snapshot();
    CreatePermissions(s);
    ghost var db1 := s.Snapshot();
    CatalogueSteps(db0, dbRoles, dbAdmin, dbResources, dbActions, db1);
    AllRoleNamesComplete(MODERATOR);
    AllRoleNamesComplete(USER);
    var granted := AssignPermissionsToRoles(s);
    GrantSteps(db0, db1, s.Snapshot());
    assert Seeded(db0) ==> s.Snapshot() == db0;
  }
}
