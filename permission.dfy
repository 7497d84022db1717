/**
 * `models/Permission.java`: the permission name `resource:action` and the
 * table's unique constraint on the (resource, action) pair.
 */
module PermissionEntity {
  import opened Text
  import opened Entities
  import Sets

  /** `Permission.getName`: the resource name, a colon, the action name. */
  function Name(resourceName: string, actionName: string): (r: string)
    ensures StartsWith(r, resourceName) && EndsWith(r, actionName)
    ensures |r| == |resourceName| + 1 + |actionName| && r[|resourceName|] == ':'
  {
    resourceName + ":" + actionName
  }

  /**
   * When resource names hold no colon, the name determines the pair: the
   * first colon of the name ends the resource name.
   */
  lemma NameDeterminesPair(r1: string, a1: string, r2: string, a2: string)
    requires ':' !in r1 && ':' !in r2
    requires Name(r1, a1) == Name(r2, a2)
    ensures r1 == r2 && a1 == a2
  {
    var n := Name(r1, a1);
    assert r1 == n[..|r1|] == r2;
    assert a1 == n[|r1| + 1..] == a2;
  }

  /** Without that condition two different pairs can share a name. */
  lemma NameCollidesWithColon()
    ensures Name("a:b", "c") == Name("a", "b:c")
  {
  }

  /**
   * A permission name starts with "ROLE_" exactly when its resource name
   * does: the colon can never stand where "ROLE_" has a letter or '_'.
   */
  lemma NameRolePrefix(resourceName: string, actionName: string)
    ensures StartsWith(Name(resourceName, actionName), "ROLE_") <==> StartsWith(resourceName, "ROLE_")
  {
    var n := Name(resourceName, actionName);
    if |resourceName| >= 5 {
      assert n[..5] == resourceName[..5];
    }
  }

  /** Two permissions link the same resource and the same action. */
  predicate SamePair(p: Permission, q: Permission) {
    p.resourceId == q.resourceId && p.actionId == q.actionId
  }

  /** The unique constraint on (resource_id, action_id). */
  ghost predicate UniquePairs(perms: map<int, Permission>) {
    forall i, j | i in perms && j in perms && SamePair(perms[i], perms[j]) :: i == j
  }

  /** Some permission links this resource and this action (`existsByResourceAndAction`). */
  predicate HasPair(perms: map<int, Permission>, resourceId: int, actionId: int) {
    exists i | i in perms :: perms[i].resourceId == resourceId && perms[i].actionId == actionId
  }

  /** A stored permission links its own resource and action. */
  lemma HasOwnPair(perms: map<int, Permission>, id: int)
    requires id in perms
    ensures HasPair(perms, perms[id].resourceId, perms[id].actionId)
  {
  }

  /** The ids of the permissions that link this resource and this action. */
  function PairIds(perms: map<int, Permission>, resourceId: int, actionId: int): set<int> {
    set i | i in perms && perms[i].resourceId == resourceId && perms[i].actionId == actionId
  }

  /** Under the constraint, at most one permission exists per pair. */
  lemma AtMostOnePerPair(perms: map<int, Permission>, resourceId: int, actionId: int)
    requires UniquePairs(perms)
    ensures |PairIds(perms, resourceId, actionId)| <= 1
  {
    var ids := PairIds(perms, resourceId, actionId);
    forall i, j | i in ids && j in ids ensures i == j {
      assert SamePair(perms[i], perms[j]);
    }
    Sets.AllEqualAtMostOne(ids);
  }

  /** Storing a permission under a new id keeps the constraint iff its pair is new. */
  lemma InsertKeepsUniquePairs(perms: map<int, Permission>, id: int, p: Permission)
    requires UniquePairs(perms) && id !in perms
    ensures UniquePairs(perms[id := p]) <==> !HasPair(perms, p.resourceId, p.actionId)
  {
    var m := perms[id := p];
    if HasPair(perms, p.resourceId, p.actionId) {
      var i :| i in perms && perms[i].resourceId == p.resourceId && perms[i].actionId == p.actionId;
      assert SamePair(m[i], m[id]) && i != id;
    }
  }
}
