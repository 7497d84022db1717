/**
 * The repositories behind the services: one map from id to record per
 * entity, with the uniqueness rules the schema and the services keep, and a
 * counter standing for the database's id generator.
 */
module Store {
  import opened Wrappers
  import opened Entities
  import PermissionEntity
  import Sets

  /** A snapshot of every repository's contents. */
  datatype Db = Db(
    roles: map<int, Role>,
    permissions: map<int, Permission>,
    resources: map<int, Resource>,
    actions: map<int, Action>,
    users: map<int, User>)

  /** `roleRepository.findByName(n).isPresent()`. */
  predicate HasRoleNamed(roles: map<int, Role>, n: RoleName) {
    exists id | id in roles :: roles[id].name == n
  }

  /** `resourceRepository.existsByName(name)`. */
  predicate HasResourceNamed(resources: map<int, Resource>, name: string) {
    exists id | id in resources :: resources[id].name == name
  }

  /** `actionRepository.existsByName(name)`. */
  predicate HasActionNamed(actions: map<int, Action>, name: string) {
    exists id | id in actions :: actions[id].name == name
  }

  /** `userRepository.existsByEmail(email)`. */
  predicate HasUserWithEmail(users: map<int, User>, email: string) {
    exists id | id in users :: users[id].email == email
  }

  ghost predicate UniqueRoleNames(roles: map<int, Role>) {
    forall i, j | i in roles && j in roles && roles[i].name == roles[j].name :: i == j
  }

  ghost predicate UniqueResourceNames(resources: map<int, Resource>) {
    forall i, j | i in resources && j in resources && resources[i].name == resources[j].name :: i == j
  }

  ghost predicate UniqueActionNames(actions: map<int, Action>) {
    forall i, j | i in actions && j in actions && actions[i].name == actions[j].name :: i == j
  }

  /** The `unique = true` column constraint on `users.email`. */
  ghost predicate UniqueEmails(users: map<int, User>) {
    forall i, j | i in users && j in users && users[i].email == users[j].email :: i == j
  }

  /** The id of the role with that name (`findByName`). */
  ghost function RoleIdNamed(roles: map<int, Role>, n: RoleName): (id: int)
    requires HasRoleNamed(roles, n)
    ensures id in roles && roles[id].name == n
  {
    var id :| id in roles && roles[id].name == n; id
  }

  ghost function ResourceIdNamed(resources: map<int, Resource>, name: string): (id: int)
    requires HasResourceNamed(resources, name)
    ensures id in resources && resources[id].name == name
  {
    var id :| id in resources && resources[id].name == name; id
  }

  ghost function ActionIdNamed(actions: map<int, Action>, name: string): (id: int)
    requires HasActionNamed(actions, name)
    ensures id in actions && actions[id].name == name
  {
    var id :| id in actions && actions[id].name == name; id
  }

  ghost function UserIdWithEmail(users: map<int, User>, email: string): (id: int)
    requires HasUserWithEmail(users, email)
    ensures id in users && users[id].email == email
  {
    var id :| id in users && users[id].email == email; id
  }

  /** With unique names, the role found by name is the one that has it. */
  lemma RoleIdNamedIs(roles: map<int, Role>, id: int)
    requires UniqueRoleNames(roles) && id in roles
    ensures HasRoleNamed(roles, roles[id].name) && RoleIdNamed(roles, roles[id].name) == id
  {
  }

  lemma ResourceIdNamedIs(resources: map<int, Resource>, id: int)
    requires UniqueResourceNames(resources) && id in resources
    ensures HasResourceNamed(resources, resources[id].name)
    ensures ResourceIdNamed(resources, resources[id].name) == id
  {
  }

  lemma ActionIdNamedIs(actions: map<int, Action>, id: int)
    requires UniqueActionNames(actions) && id in actions
    ensures HasActionNamed(actions, actions[id].name) && ActionIdNamed(actions, actions[id].name) == id
  {
  }

  lemma UserIdWithEmailIs(users: map<int, User>, id: int)
    requires UniqueEmails(users) && id in users
    ensures HasUserWithEmail(users, users[id].email) && UserIdWithEmail(users, users[id].email) == id
  {
  }

  /**
   * The rules every reachable store satisfies: unique role, resource and
   * action names, one permission per (resource, action) pair, unique emails,
   * and every user's role present (the non-null `role_id` foreign key).
   */
  ghost predicate Consistent(db: Db) {
    && UniqueRoleNames(db.roles)
    && UniqueResourceNames(db.resources)
    && UniqueActionNames(db.actions)
    && PermissionEntity.UniquePairs(db.permissions)
    && UniqueEmails(db.users)
    && (forall u | u in db.users :: db.users[u].roleId in db.roles)
  }

  /**
   * `findAll().forEach(list::add)`: lists every stored id exactly once (in
   * the repository's iteration order, which the model leaves open).
   */
  method ListIds<T>(m: map<int, T>) returns (ids: seq<int>)
    ensures forall id :: id in ids <==> id in m
    ensures forall i, j :: 0 <= i < j < |ids| ==> ids[i] != ids[j]
  {
    ids := [];
    var rest := m.Keys;
    while rest != {}
      invariant rest <= m.Keys
      invariant forall id :: id in m ==> (id in ids <==> id !in rest)
      invariant forall id :: id in ids ==> id in m
      invariant forall i, j :: 0 <= i < j < |ids| ==> ids[i] != ids[j]
      decreases rest
    {
      var id := Sets.Choose(rest);
      ids := ids + [id];
      rest := rest - {id};
    }
  }

  /** The empty store of a fresh database. */
  const EmptyDb := Db(map[], map[], map[], map[], map[])

  class Store {
    var roles: map<int, Role>
    var permissions: map<int, Permission>
    var resources: map<int, Resource>
    var actions: map<int, Action>
    var users: map<int, User>
    /** The id the next saved entity receives. */
    var nextId: int

    /** The repositories' contents. */
    function Snapshot(): Db
      reads this
    {
      Db(roles, permissions, resources, actions, users)
    }

    /** Consistent contents, and every id in use is below `nextId`. */
    ghost predicate Valid()
      reads this
    {
      && Consistent(Snapshot())
      && (forall id | id in roles :: id < nextId)
      && (forall id | id in permissions :: id < nextId)
      && (forall id | id in resources :: id < nextId)
      && (forall id | id in actions :: id < nextId)
      && (forall id | id in users :: id < nextId)
    }

    constructor ()
      ensures Valid() && Snapshot() == EmptyDb
    {
      roles, permissions, resources, actions, users := map[], map[], map[], map[], map[];
      nextId := 1;
    }

    /** Draws the id of an entity about to be saved; it is in use nowhere. */
    method NewId() returns (id: int)
      requires Valid()
      modifies this`nextId
      ensures Valid() && id == old(nextId) && nextId == id + 1
      ensures id !in roles && id !in permissions && id !in resources && id !in actions && id !in users
    {
      id := nextId;
      nextId := nextId + 1;
    }
  }
}
