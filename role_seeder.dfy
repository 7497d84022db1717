/** `bootstrap/RoleSeeder.java`: creates the default roles that are missing. */
module RoleSeeder {
  import opened Wrappers
  import opened Entities
  import opened Store
  import RoleService

  /** `getDescriptionForRole`: the fixed description of each role; the default text is never used. */
  function DescriptionForRole(n: RoleName): (r: string)
    ensures r != "Role description"
  {
    match n
    case ADMIN => "Administrator with full access"
    case MODERATOR => "Moderator with limited administrative access"
    case USER => "Regular user with basic access"
  }

  /** The role a seeder creates for a name. */
  function SeededRole(n: RoleName): (r: Role)
    ensures r.name == n && r.permissions == {}
    ensures r.description.Some? && r.description.value != "Role description"
  {
    Role(n, Some(DescriptionForRole(n)), {})
  }

  /** Every entry of `before` is in `after`, unchanged. */
  ghost predicate Kept<T>(before: map<int, T>, after: map<int, T>) {
    forall id | id in before :: id in after && after[id] == before[id]
  }

  /** Keeping every entry keeps every key. */
  lemma KeptKeys<T>(before: map<int, T>, after: map<int, T>)
    requires Kept(before, after)
    ensures before.Keys <= after.Keys
  {
    forall id | id in before.Keys ensures id in after.Keys {
      assert id in before;
    }
  }

  /** A kept entry still carries its name. */
  lemma KeptRoleNamed(before: map<int, Role>, after: map<int, Role>, n: RoleName)
    requires Kept(before, after) && HasRoleNamed(before, n)
    ensures HasRoleNamed(after, n)
  {
    var w :| w in before && before[w].name == n;
    assert after[w] == before[w];
  }

  /** Keys added in two rounds are the keys added in each. */
  lemma AddedKeys(first: set<int>, second: set<int>, third: set<int>)
    requires first <= second <= third
    ensures |third - first| == |second - first| + |third - second|
  {
    var a, b := second - first, third - second;
    forall id ensures id in third - first <==> id in a + b { }
    assert third - first == a + b;
    assert a * b == {};
  }

  /** One round of the loop body: creates the role `n` unless some role has that name. */
  method SeedRole(s: Store, n: RoleName)
    requires s.Valid()
    modifies s
    ensures s.Valid()
    ensures s.Snapshot() == old(s.Snapshot()).(roles := s.roles)
    ensures HasRoleNamed(s.roles, n)
    ensures Kept(old(s.roles), s.roles)
    ensures old(HasRoleNamed(s.roles, n)) ==> s.roles == old(s.roles)
    ensures !old(HasRoleNamed(s.roles, n)) ==>
      exists id | id !in old(s.roles) :: s.roles == old(s.roles)[id := SeededRole(n)]
  {
    if !HasRoleNamed(s.roles, n) {
      var created := RoleService.CreateRole(s, RoleService.RoleDto(Some(n), Some(DescriptionForRole(n))));
      assert created.value in s.roles && s.roles[created.value].name == n;
      RoleIdNamedIs(s.roles, created.value);
    }
  }

  /**
   * After the first `i` names of the seeding loop: `now` keeps `was`, has a
   * role for each of those names, adds at most `i` roles, each a seeded role
   * for a name `was` lacked, and equals `was` if `was` had every name.
   */
  ghost predicate RolesSeeded(was: map<int, Role>, now: map<int, Role>, names: seq<RoleName>, i: nat)
    requires i <= |names|
  {
    && Kept(was, now)
    && (forall k | 0 <= k < i :: HasRoleNamed(now, names[k]))
    && (forall id | id in now && id !in was ::
          && now[id].name in names[..i]
          && !HasRoleNamed(was, now[id].name)
          && now[id] == SeededRole(now[id].name))
    && |now.Keys - was.Keys| <= i
    && ((forall n | n in names :: HasRoleNamed(was, n)) ==> now == was)
  }

  /** Storing under a new key adds exactly that key. */
  lemma UpdateAddsOneKey(m: map<int, Role>, k: int, r: Role)
    requires k !in m
    ensures |m[k := r].Keys - m.Keys| == 1
  {
    var d := m[k := r].Keys - m.Keys;
    forall id ensures id in d <==> id == k { }
    assert d == {k};
  }

  /** A round adds at most one key. */
  lemma SeededCount(was: map<int, Role>, mid: map<int, Role>, now: map<int, Role>, n: RoleName, i: nat)
    requires Kept(was, mid) && Kept(mid, now) && |mid.Keys - was.Keys| <= i
    requires HasRoleNamed(mid, n) ==> now == mid
    requires !HasRoleNamed(mid, n) ==> exists id | id !in mid :: now == mid[id := SeededRole(n)]
    ensures |now.Keys - was.Keys| <= i + 1
  {
    KeptKeys(was, mid);
    KeptKeys(mid, now);
    if !HasRoleNamed(mid, n) {
      var added :| added !in mid && now == mid[added := SeededRole(n)];
      UpdateAddsOneKey(mid, added, SeededRole(n));
    } else {
      assert now.Keys - mid.Keys == {};
    }
    AddedKeys(was.Keys, mid.Keys, now.Keys);
  }

  /** A round adds only the seeded role of its name, and only when that name was missing. */
  lemma SeededNew(was: map<int, Role>, mid: map<int, Role>, now: map<int, Role>, names: seq<RoleName>, i: nat)
    requires i < |names| && Kept(was, mid)
    requires forall id | id in mid && id !in was ::
      && mid[id].name in names[..i]
      && !HasRoleNamed(was, mid[id].name)
      && mid[id] == SeededRole(mid[id].name)
    requires HasRoleNamed(mid, names[i]) ==> now == mid
    requires !HasRoleNamed(mid, names[i]) ==> exists id | id !in mid :: now == mid[id := SeededRole(names[i])]
    ensures forall id | id in now && id !in was ::
      && now[id].name in names[..i + 1]
      && !HasRoleNamed(was, now[id].name)
      && now[id] == SeededRole(now[id].name)
  {
    assert names[..i + 1] == names[..i] + [names[i]];
    if !HasRoleNamed(mid, names[i]) {
      var added :| added !in mid && now == mid[added := SeededRole(names[i])];
      if HasRoleNamed(was, names[i]) {
        KeptRoleNamed(was, mid, names[i]);
      }
      forall id | id in now && id !in was
        ensures now[id].name in names[..i + 1] && !HasRoleNamed(was, now[id].name)
             && now[id] == SeededRole(now[id].name)
      {
        if id != added {
          assert id in mid && now[id] == mid[id];
        }
      }
    }
  }

  /** One more round of the seeding loop. */
  lemma RolesSeededStep(was: map<int, Role>, mid: map<int, Role>, now: map<int, Role>, names: seq<RoleName>, i: nat)
    requires i < |names| && RolesSeeded(was, mid, names, i)
    requires HasRoleNamed(now, names[i]) && Kept(mid, now)
    requires HasRoleNamed(mid, names[i]) ==> now == mid
    requires !HasRoleNamed(mid, names[i]) ==>
      exists id | id !in mid :: now == mid[id := SeededRole(names[i])]
    ensures RolesSeeded(was, now, names, i + 1)
  {
    forall k | 0 <= k < i ensures HasRoleNamed(now, names[k]) {
      KeptRoleNamed(mid, now, names[k]);
    }
    forall id | id in was ensures id in now && now[id] == was[id] {
      assert id in mid;
    }
    SeededCount(was, mid, now, names[i], i);
    SeededNew(was, mid, now, names, i);
    if forall n | n in names :: HasRoleNamed(was, n) {
      KeptRoleNamed(was, mid, names[i]);
    }
  }

  /**
   * The seeding loop: for each name in turn, a role with that name and its
   * fixed description is created unless one already exists. Only roles
   * change; existing roles are kept as they are; at most one role per name
   * is created; a store that already has every name is left unchanged.
   */
  method SeedRoles(s: Store, names: seq<RoleName>)
    requires s.Valid()
    modifies s
    ensures s.Valid()
    ensures s.Snapshot() == old(s.Snapshot()).(roles := s.roles)
    ensures forall n | n in names :: HasRoleNamed(s.roles, n)
    ensures Kept(old(s.roles), s.roles)
    ensures forall id | id in s.roles && id !in old(s.roles) ::
      && s.roles[id].name in names
      && !HasRoleNamed(old(s.roles), s.roles[id].name)
      && s.roles[id] == SeededRole(s.roles[id].name)
    ensures |s.roles.Keys - old(s.roles).Keys| <= |names|
    ensures (forall n | n in names :: old(HasRoleNamed(s.roles, n))) ==> s.Snapshot() == old(s.Snapshot())
  {
    var i := 0;
    while i < |names|
      invariant 0 <= i <= |names|
      invariant s.Valid()
      invariant s.Snapshot() == old(s.Snapshot()).(roles := s.roles)
      invariant RolesSeeded(old(s.roles), s.roles, names, i)
    {
      ghost var before := s.roles;
      SeedRole(s, names[i]);
      RolesSeededStep(old(s.roles), before, s.roles, names, i);
      i := i + 1;
    }
    assert names[..i] == names;
  }

  /** `run`: seeds ADMIN, MODERATOR and USER, in that order. */
  method Run(s: Store)
    requires s.Valid()
    modifies s
    ensures s.Valid()
    ensures s.Snapshot() == old(s.Snapshot()).(roles := s.roles)
    ensures HasRoleNamed(s.roles, ADMIN) && HasRoleNamed(s.roles, MODERATOR) && HasRoleNamed(s.roles, USER)
    ensures Kept(old(s.roles), s.roles)
    ensures forall id | id in s.roles && id !in old(s.roles) ::
      !HasRoleNamed(old(s.roles), s.roles[id].name) && s.roles[id] == SeededRole(s.roles[id].name)
    ensures |s.roles.Keys - old(s.roles).Keys| <= 3
    ensures old(HasRoleNamed(s.roles, ADMIN) && HasRoleNamed(s.roles, MODERATOR) && HasRoleNamed(s.roles, USER)) ==>
      s.Snapshot() == old(s.Snapshot())
  {
    SeedRoles(s, [ADMIN, MODERATOR, USER]);
  }
}
